/**
 What becomes of a caller that waits for a channel: it is woken, its key is still pending, or its lock was dropped
 from the map by Set, Delete or Clear, and then it waits for ever.
 */
module SingleFlightWaiters {
  import opened Wrappers
  import opened SingleFlight
  import opened SingleFlightProtocol

  // ----- the fate of a channel -----

  /** An open channel that no key stores. */
  ghost predicate Orphaned(s: Store, channel: nat) {
    channel < s.made && channel !in s.closed && forall k :: !StoredLock(s, k, channel)
  }

  /** The operation takes the lock with this channel out of the map and closes nothing. */
  predicate DropsIn(s: Store, op: Op, channel: nat) {
    match op
    case Set(k, _) => StoredLock(s, k, channel)
    case Delete(k) => StoredLock(s, k, channel)
    case Clear => exists k | k in s.items :: StoredLock(s, k, channel)
    case _ => false
  }

  predicate Drops(s: State, e: Event, channel: nat) {
    Running(s, e).Some? && DropsIn(s.store, Running(s, e).value, channel)
  }

  lemma SectionFate(s: Store, op: Op, channel: nat)
    requires LocksOpen(s)
    ensures Orphaned(Section(s, op).0, channel) <==> Orphaned(s, channel) || DropsIn(s, op, channel)
  {
    var s' := Section(s, op).0;
    if Orphaned(s, channel) {
      assert op.SetUnlock? ==> !StoredLock(s, op.key, channel);
      forall k ensures !StoredLock(s', k, channel) {
        assert !StoredLock(s, k, channel);
      }
    } else if channel < s.made && channel !in s.closed {
      var k :| StoredLock(s, k, channel);
      assert StoredLock(s', k, channel) || channel in s'.closed || DropsIn(s, op, channel);
    } else if channel == s.made && op.GetOrLock? && op.key !in s.items {
      assert StoredLock(s', op.key, channel);
    }
  }

  lemma StepFate(s: State, e: Event, s': State, channel: nat)
    requires LocksOpen(s.store) && Next(s, e) == Some(s')
    ensures Orphaned(s'.store, channel) <==> Orphaned(s.store, channel) || Drops(s, e, channel)
  {
    StepStore(s, e, s');
    if Running(s, e).Some? {
      SectionFate(s.store, Running(s, e).value, channel);
    }
  }

  lemma StepStore(s: State, e: Event, s': State)
    requires Next(s, e) == Some(s')
    ensures s'.store == if Running(s, e).Some? then Section(s.store, Running(s, e).value).0 else s.store
  {
    if Running(s, e).Some? {
      var op := Running(s, e).value;
      RecordFrame(s.(store := Section(s.store, op).0), op, Section(s.store, op).1);
      SectionWaits(s.store, op);
    } else if e.Work? {
      RecordFrame(s, GetOrLock(s.threads[e.t].key), Resume(s.store, s.threads[e.t].key));
    }
  }

  /**
   An open channel is in no entry of the map, if and only if an earlier Set, Delete or Clear ran on the key whose
   lock it was.
   */
  lemma {:induction false} OrphanedIff(states: seq<State>, events: seq<Event>, i: nat, channel: nat)
    requires Run(states, events) && i < |states|
    ensures Orphaned(states[i].store, channel) <==> exists j | 0 <= j < i :: Drops(states[j], events[j], channel)
  {
    if i > 0 {
      OrphanedIff(states, events, i - 1, channel);
      RunKeepsInv(states, events, i - 1);
      assert StepAt(states, events, i - 1);
      StepFate(states[i-1], events[i-1], states[i], channel);
    }
  }

  // ----- the three cases of a waiter -----

  /** The lock that a caller waits for is in the map under no other key. */
  ghost predicate HomeOk(s: State) {
    forall t, k :: t in s.threads && s.threads[t].Blocked? && StoredLock(s.store, k, s.threads[t].channel)
      ==> k == s.threads[t].key
  }

  lemma SectionKeepsHome(s: Store, op: Op, k: Key, channel: nat)
    requires LocksOpen(s) && channel < s.made && StoredLock(Section(s, op).0, k, channel)
    ensures StoredLock(s, k, channel)
  {
  }

  lemma HomeKept(s: State, e: Event, s': State)
    requires Inv(s) && HomeOk(s) && Next(s, e) == Some(s')
    ensures HomeOk(s')
  {
    StepStore(s, e, s');
    StepThreads(s, e, s');
    forall t, k | t in s'.threads && s'.threads[t].Blocked? && StoredLock(s'.store, k, s'.threads[t].channel)
      ensures k == s'.threads[t].key
    {
      if Running(s, e).Some? && s'.threads[t].channel < s.store.made {
        SectionKeepsHome(s.store, Running(s, e).value, k, s'.threads[t].channel);
      }
    }
  }

  /** Other calls stay; this one waits only for a lock that it has found under its key. */
  lemma StepThreads(s: State, e: Event, s': State)
    requires LocksOpen(s.store) && Next(s, e) == Some(s')
    ensures forall t :: t != e.t ==> (t in s'.threads <==> t in s.threads)
    ensures forall t :: t != e.t && t in s.threads ==> s'.threads[t] == s.threads[t]
    ensures e.t in s'.threads && s'.threads[e.t].Blocked? ==>
      Running(s, e).Some? && StoredLock(s.store, s'.threads[e.t].key, s'.threads[e.t].channel)
  {
    if Running(s, e).Some? {
      var op := Running(s, e).value;
      RecordFrame(s.(store := Section(s.store, op).0), op, Section(s.store, op).1);
    } else if e.Work? {
      RecordFrame(s, GetOrLock(s.threads[e.t].key), Resume(s.store, s.threads[e.t].key));
    }
  }

  lemma {:induction false} RunKeepsHome(states: seq<State>, events: seq<Event>, i: nat)
    requires Run(states, events) && i < |states|
    ensures HomeOk(states[i])
  {
    if i > 0 {
      RunKeepsHome(states, events, i - 1);
      RunKeepsInv(states, events, i - 1);
      assert StepAt(states, events, i - 1);
      HomeKept(states[i-1], events[i-1], states[i]);
    }
  }

  /**
   The channel of a waiter is closed, or is the one stored under its key, or was dropped by an earlier operation on
   exactly its lock; never two of these.
   */
  lemma WaiterTracked(states: seq<State>, events: seq<Event>, i: nat, t: nat)
    requires Run(states, events) && i < |states| && t in states[i].threads && states[i].threads[t].Blocked?
    ensures var s, k, ch := states[i].store, states[i].threads[t].key, states[i].threads[t].channel;
      var dropped := exists j | 0 <= j < i :: Drops(states[j], events[j], ch);
      if dropped then ch !in s.closed && !StoredLock(s, k, ch) else ch in s.closed <==> !StoredLock(s, k, ch)
  {
    RunKeepsInv(states, events, i);
    RunKeepsHome(states, events, i);
    OrphanedIff(states, events, i, states[i].threads[t].channel);
  }

  /** Once no call can proceed, each waiter's key is still pending, or its lock was dropped. */
  lemma OnlyOwnersKeepWaiters(states: seq<State>, events: seq<Event>, i: nat, t: nat)
    requires Run(states, events) && i < |states| && Stuck(states[i]) && t in states[i].threads
    ensures states[i].threads[t].Blocked?
    ensures StoredLock(states[i].store, states[i].threads[t].key, states[i].threads[t].channel)
         || exists j | 0 <= j < i :: Drops(states[j], events[j], states[i].threads[t].channel)
  {
    RunKeepsInv(states, events, i);
    StuckMeansWaiting(states[i], t);
    WaiterTracked(states, events, i, t);
  }

  // ----- when a waiter waits for ever -----

  /** The channel is dropped, or the caller that holds the mutex is about to drop it. */
  ghost predicate Lost(s: State, channel: nat) {
    Orphaned(s.store, channel) || (s.writer.Some? && Drops(s, Work(s.writer.value), channel))
  }

  /** A run that begins with this one. */
  ghost predicate Extends(states': seq<State>, events': seq<Event>, states: seq<State>, events: seq<Event>) {
    Run(states', events') && states <= states' && events <= events'
  }

  ghost predicate WaitsForEver(states: seq<State>, events: seq<Event>, t: nat, k: Key, channel: nat) {
    forall states', events' :: Extends(states', events', states, events) ==>
      Waits(states'[|events'|], t, k, channel)
  }

  predicate Waits(s: State, t: nat, k: Key, channel: nat) {
    t in s.threads && s.threads[t] == Blocked(k, channel)
  }

  /** While a caller holds the mutex to write, nobody else runs a critical section. */
  lemma LostKept(s: State, e: Event, s': State, channel: nat)
    requires Inv(s) && Lost(s, channel) && Next(s, e) == Some(s')
    ensures Lost(s', channel)
  {
    StepFate(s, e, s', channel);
    if !Orphaned(s.store, channel) && e != Work(s.writer.value) {
      OthersWait(s, e, s');
    }
  }

  lemma OthersWait(s: State, e: Event, s': State)
    requires MutexOk(s) && s.writer.Some? && Next(s, e) == Some(s')
    requires var u := s.writer.value; u in s.threads && s.threads[u].Inside? && e != Work(u)
    ensures s'.store == s.store && s'.writer == s.writer
    ensures s.writer.value in s'.threads && s'.threads[s.writer.value] == s.threads[s.writer.value]
  {
    if e.Work? || e.Release? {
      assert false;
    }
  }

  lemma LostIsOpen(s: State, channel: nat)
    requires LocksOpen(s.store) && Lost(s, channel)
    ensures channel !in s.store.closed
  {
  }

  lemma WaitingKept(s: State, e: Event, s': State, t: nat, k: Key, channel: nat)
    requires Waits(s, t, k, channel) && channel !in s.store.closed && Next(s, e) == Some(s')
    ensures Waits(s', t, k, channel)
  {
    if e.Work? {
      if s.threads[e.t].Inside? {
        var op := s.threads[e.t].op;
        RecordFrame(s.(store := Section(s.store, op).0), op, Section(s.store, op).1);
      } else {
        RecordFrame(s, GetOrLock(s.threads[e.t].key), Resume(s.store, s.threads[e.t].key));
      }
    }
  }

  /** A waiter whose channel is lost waits for ever. */
  lemma {:induction false} LostWaitsOn(states: seq<State>, events: seq<Event>, i: nat, j: nat, t: nat, k: Key, channel: nat)
    requires Run(states, events) && i <= j < |states|
    requires Lost(states[i], channel) && Waits(states[i], t, k, channel)
    ensures Lost(states[j], channel) && Waits(states[j], t, k, channel)
    decreases j
  {
    if i < j {
      LostWaitsOn(states, events, i, j - 1, t, k, channel);
      RunKeepsInv(states, events, j - 1);
      assert StepAt(states, events, j - 1);
      LostIsOpen(states[j-1], channel);
      LostKept(states[j-1], events[j-1], states[j], channel);
      WaitingKept(states[j-1], events[j-1], states[j], t, k, channel);
    }
  }

  // ----- otherwise it can be woken -----

  lemma Extend(states: seq<State>, events: seq<Event>, e: Event) returns (states': seq<State>, events': seq<Event>)
    requires Run(states, events) && Next(states[|events|], e).Some?
    ensures Extends(states', events', states, events) && events' == events + [e]
    ensures states'[|events'|] == Next(states[|events|], e).value
  {
    states', events' := states + [Next(states[|events|], e).value], events + [e];
    forall i | 0 <= i < |events'| ensures StepAt(states', events', i) {
      assert i < |events| ==> StepAt(states, events, i);
    }
  }

  /** This caller waits, and its channel is not lost. */
  ghost predicate Hopeful(s: State, t: nat, k: Key, channel: nat) {
    Inv(s) && HomeOk(s) && Waits(s, t, k, channel) && !Lost(s, channel)
  }

  lemma StaysHopeful(s: State, e: Event, s': State, t: nat, k: Key, channel: nat)
    requires Hopeful(s, t, k, channel) && Next(s, e) == Some(s') && e.t != t && !Drops(s, e, channel)
    requires s'.writer.Some? ==> !Drops(s', Work(s'.writer.value), channel)
    ensures Hopeful(s', t, k, channel)
  {
    StepThreads(s, e, s');
    StepFate(s, e, s', channel);
    HomeKept(s, e, s');
    LocksOpenKept(s, e, s');
    MutexKept(s, e, s');
    ValuesKept(s, e, s');
  }

  /** A caller that holds the mutex gives it back, in one or two steps. */
  ghost predicate Returns(s: State, u: nat, s': State) {
    && s'.writer == (if s.writer == Some(u) then None else s.writer)
    && s'.readers == s.readers - {u}
  }

  lemma LeaveMutex(states: seq<State>, events: seq<Event>, u: nat, t: nat, k: Key, channel: nat)
    returns (states': seq<State>, events': seq<Event>)
    requires Run(states, events) && Hopeful(states[|events|], t, k, channel)
    requires u in states[|events|].threads && states[|events|].threads[u].Leaving?
    ensures Extends(states', events', states, events) && Hopeful(states'[|events'|], t, k, channel)
    ensures Returns(states[|events|], u, states'[|events'|])
  {
    states', events' := Extend(states, events, Release(u));
    var s, s' := states[|events|], states'[|events'|];
    StaysHopeful(s, Release(u), s', t, k, channel);
  }

  /** What the critical section of a caller that holds the mutex leaves to do. */
  lemma WorkDone(s: State, u: nat, s': State)
    requires MutexOk(s) && u in s.threads && s.threads[u].Held().Some? && !s.threads[u].Leaving?
    requires Next(s, Work(u)) == Some(s')
    ensures u in s'.threads && (s'.threads[u].Leaving? || s'.threads[u].Blocked?)
    ensures s'.threads[u].Leaving? ==> s'.writer == s.writer && s'.readers == s.readers
    ensures s'.threads[u].Blocked? ==> Returns(s, u, s')
  {
    if s.threads[u].Inside? {
      var op := s.threads[u].op;
      RecordFrame(s.(store := Section(s.store, op).0), op, Section(s.store, op).1);
    } else {
      RecordFrame(s, GetOrLock(s.threads[u].key), Resume(s.store, s.threads[u].key));
    }
  }

  lemma GiveBack(states: seq<State>, events: seq<Event>, u: nat, t: nat, k: Key, channel: nat)
    returns (states': seq<State>, events': seq<Event>)
    requires Run(states, events) && Hopeful(states[|events|], t, k, channel)
    requires u in states[|events|].threads && states[|events|].threads[u].Held().Some?
    ensures Extends(states', events', states, events) && Hopeful(states'[|events'|], t, k, channel)
    ensures Returns(states[|events|], u, states'[|events'|])
  {
    var s := states[|events|];
    if s.threads[u].Leaving? {
      states', events' := LeaveMutex(states, events, u, t, k, channel);
    } else {
      NothingDropped(s, u, channel);
      var states0, events0 := Extend(states, events, Work(u));
      var s0 := states0[|events0|];
      WorkDone(s, u, s0);
      StaysHopeful(s, Work(u), s0, t, k, channel);
      if s0.threads[u].Leaving? {
        states', events' := LeaveMutex(states0, events0, u, t, k, channel);
      } else {
        states', events' := states0, events0;
      }
    }
  }

  /** A reader drops nothing, and the writer is not about to. */
  lemma NothingDropped(s: State, u: nat, channel: nat)
    requires MutexOk(s) && !Lost(s, channel) && u in s.threads && s.threads[u].Held().Some?
    ensures !Drops(s, Work(u), channel)
  {
    if s.threads[u].HoldsWrite() { assert s.writer == Some(u); }
  }

  lemma {:induction false} FreeMutex(states: seq<State>, events: seq<Event>, t: nat, k: Key, channel: nat)
    returns (states': seq<State>, events': seq<Event>)
    requires Run(states, events) && Hopeful(states[|events|], t, k, channel)
    ensures Extends(states', events', states, events) && Hopeful(states'[|events'|], t, k, channel)
    ensures states'[|events'|].writer.None? && states'[|events'|].readers == {}
    decreases states[|events|].writer.Some?, |states[|events|].readers|
  {
    var s := states[|events|];
    states', events' := states, events;
    if s.writer.Some? {
      states', events' := GiveBack(states, events, s.writer.value, t, k, channel);
      states', events' := FreeMutex(states', events', t, k, channel);
    } else if s.readers != {} {
      var u :| u in s.readers;
      states', events' := GiveBack(states, events, u, t, k, channel);
      states', events' := FreeMutex(states', events', t, k, channel);
    }
  }

  lemma {:induction false} NewThread(ts: set<nat>) returns (n: nat)
    ensures forall t :: t in ts ==> t < n
    decreases |ts|
  {
    n := 0;
    if ts != {} {
      var t :| t in ts;
      n := NewThread(ts - {t});
      n := if n > t then n else t + 1;
      assert forall u :: u in ts ==> u == t || u in ts - {t};
    }
  }

  /** Somebody publishes the key. */
  lemma Publish(states: seq<State>, events: seq<Event>, t: nat, k: Key, channel: nat)
    returns (states': seq<State>, events': seq<Event>)
    requires Run(states, events) && Waits(states[|events|], t, k, channel)
    requires StoredLock(states[|events|].store, k, channel)
    requires states[|events|].writer.None? && states[|events|].readers == {}
    ensures Extends(states', events', states, events)
    ensures Waits(states'[|events'|], t, k, channel) && channel in states'[|events'|].store.closed
  {
    var n := NewThread(states[|events|].threads.Keys);
    states', events' := Extend(states, events, Call(n, SetUnlock(k, "")));
    states', events' := Extend(states', events', Acquire(n));
    states', events' := Extend(states', events', Work(n));
  }

  lemma CanBeWoken(states: seq<State>, events: seq<Event>, t: nat, k: Key, channel: nat)
    returns (states': seq<State>, events': seq<Event>)
    requires Run(states, events) && Waits(states[|events|], t, k, channel) && !Lost(states[|events|], channel)
    ensures Extends(states', events', states, events) && !Waits(states'[|events'|], t, k, channel)
  {
    RunKeepsInv(states, events, |events|);
    RunKeepsHome(states, events, |events|);
    states', events' := FreeMutex(states, events, t, k, channel);
    if channel !in states'[|events'|].store.closed {
      states', events' := Publish(states', events', t, k, channel);
    }
    states', events' := Extend(states', events', Wake(t));
  }

  /**
   A waiter waits for ever, whatever the others do, if and only if an earlier Set, Delete or Clear ran on its lock or
   the caller that holds the mutex is about to run one.
   */
  lemma WaitsForEverIff(states: seq<State>, events: seq<Event>, t: nat, k: Key, channel: nat)
    requires Run(states, events) && Waits(states[|events|], t, k, channel)
    ensures WaitsForEver(states, events, t, k, channel) <==>
      || (exists j | 0 <= j < |events| :: Drops(states[j], events[j], channel))
      || (states[|events|].writer.Some? && Drops(states[|events|], Work(states[|events|].writer.value), channel))
  {
    OrphanedIff(states, events, |events|, channel);
    if Lost(states[|events|], channel) {
      forall states', events' | Extends(states', events', states, events)
        ensures Waits(states'[|events'|], t, k, channel)
      {
        LostWaitsOn(states', events', |events|, |events'|, t, k, channel);
      }
    } else {
      var states', events' := CanBeWoken(states, events, t, k, channel);
    }
  }

  // ----- it happens -----

  /** A caller that does its critical section and returns, while nobody holds the mutex. */
  lemma OneMiss(k: Key) returns (states: seq<State>, events: seq<Event>)
    ensures Run(states, events)
    ensures var s := states[|events|];
      && s.threads == map[] && s.writer.None? && s.readers == {}
      && s.store == Store(map[k := Entry.Lock(0)], 1, {}, false)
  {
    states, events := [Init], [];
    states, events := Extend(states, events, Call(0, GetOrLock(k)));
    states, events := Extend(states, events, Acquire(0));
    states, events := Extend(states, events, Work(0));
    states, events := Extend(states, events, Release(0));
  }

  lemma OneWaiter(k: Key) returns (states: seq<State>, events: seq<Event>)
    ensures Run(states, events)
    ensures var s := states[|events|];
      && s.threads == map[1 := Blocked(k, 0)] && s.writer.None? && s.readers == {}
      && s.store == Store(map[k := Entry.Lock(0)], 1, {}, false)
  {
    states, events := OneMiss(k);
    states, events := Extend(states, events, Call(1, GetOrLock(k)));
    states, events := Extend(states, events, Acquire(1));
    states, events := Extend(states, events, Work(1));
  }

  /** Each of the three operations loses a waiter for ever: a miss, a second caller that waits, and the operation. */
  lemma WaiterCanBeLost(k: Key, op: Op) returns (states: seq<State>, events: seq<Event>)
    requires op == Clear || op == Delete(k) || (op.Set? && op.key == k)
    ensures Run(states, events) && Waits(states[|events|], 1, k, 0) && WaitsForEver(states, events, 1, k, 0)
  {
    var states0, events0 := OneWaiter(k);
    states0, events0 := Extend(states0, events0, Call(2, op));
    states0, events0 := Extend(states0, events0, Acquire(2));
    var j := |events0|;
    var s := states0[j];
    assert StoredLock(s.store, k, 0) && k in s.store.items;
    assert Running(s, Work(2)) == Some(op);
    states, events := Extend(states0, events0, Work(2));
    assert states[j] == s && events[j] == Work(2);
    WaitsForEverIff(states, events, 1, k, 0);
  }
}
