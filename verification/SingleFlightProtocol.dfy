/**
 Threads calling the single-flight cache. A call takes the mutex (shared for Get and
 ItemCount), runs its critical section, and releases the mutex on return; GetOrLock
 releases it in between to wait for a channel. Every interleaving of these steps is a run.
 */
module SingleFlightProtocol {
  import opened Wrappers
  import opened SingleFlight

  datatype Pc =
    | Wanting(op: Op)                    // about to take the mutex
    | Inside(op: Op)                     // holds it
    | Blocked(key: Key, channel: nat)    // GetOrLock waiting for a channel, without the mutex
    | Rewanting(key: Key)
    | InsideAgain(key: Key)
    | Leaving(op: Op, answer: Answer)    // about to release the mutex and return
  {
    /** The mutex is held for this operation. */
    function Held(): Option<Op> {
      match this
      case Inside(op) => Some(op)
      case InsideAgain(k) => Some(GetOrLock(k))
      case Leaving(op, _) => Some(op)
      case _ => None
    }

    predicate HoldsWrite() {
      Held().Some? && !Shared(Held().value)
    }

    predicate HoldsRead() {
      Held().Some? && Shared(Held().value)
    }

    /** Steps this call can still take. */
    function Weight(): nat {
      match this
      case Wanting(_) => 6
      case Inside(_) => 5
      case Blocked(_, _) => 4
      case Rewanting(_) => 3
      case InsideAgain(_) => 2
      case Leaving(_, _) => 1
    }
  }

  predicate Shared(op: Op) {
    op.Get? || op.ItemCount?
  }

  /** `misses` and `published` record what the critical sections answered and stored. */
  datatype State = State(
    store: Store,
    writer: Option<nat>,
    readers: set<nat>,
    threads: map<nat, Pc>,
    misses: multiset<Key>,
    published: set<(Key, string)>,
    fault: bool)

  const Init := State(EmptyStore, None, {}, map[], multiset{}, {}, false)

  datatype Event = Call(t: nat, op: Op) | Acquire(t: nat) | Work(t: nat) | Wake(t: nat) | Release(t: nat)

  function At(s: State, t: nat, pc: Pc): State {
    s.(threads := s.threads[t := pc])
  }

  function TakeMutex(s: State, t: nat, op: Op, pc: Pc): Option<State> {
    if s.writer.Some? || (!Shared(op) && s.readers != {}) then None
    else if Shared(op) then Some(At(s, t, pc).(readers := s.readers + {t}))
    else Some(At(s, t, pc).(writer := Some(t)))
  }

  /** Unlocking a mutex that the thread does not hold faults. */
  function Unlock(s: State, t: nat, op: Op): State {
    if Shared(op) then s.(readers := s.readers - {t}, fault := s.fault || t !in s.readers)
    else s.(writer := None, fault := s.fault || s.writer != Some(t))
  }

  /** What a critical section leaves in the record. */
  function Record(s: State, op: Op, answer: Answer): State {
    match op
    case GetOrLock(k) =>
      if answer.NotFound? then s.(misses := s.misses[k := s.misses[k] + 1])
      else s
    case Set(k, v) => s.(published := s.published + {(k, v)})
    case SetUnlock(k, v) => s.(published := s.published + {(k, v)})
    case Add(k, v) => if answer.Unit? then s.(published := s.published + {(k, v)}) else s
    case _ => s
  }

  function Next(s: State, e: Event): Option<State> {
    match e
    case Call(t, op) => if t in s.threads then None else Some(At(s, t, Wanting(op)))
    case Acquire(t) =>
      if t !in s.threads then None
      else if s.threads[t].Wanting? then TakeMutex(s, t, s.threads[t].op, Inside(s.threads[t].op))
      else if s.threads[t].Rewanting? then TakeMutex(s, t, GetOrLock(s.threads[t].key), InsideAgain(s.threads[t].key))
      else None
    case Work(t) =>
      if t !in s.threads then None
      else if s.threads[t].Inside? then
        var op := s.threads[t].op;
        var (store, answer) := Section(s.store, op);
        if answer.MustWait? && op.GetOrLock?
        then Some(At(Unlock(s, t, op), t, Blocked(op.key, answer.channel)))
        else Some(At(Record(s.(store := store), op, answer), t, Leaving(op, answer)))
      else if s.threads[t].InsideAgain? then
        var op := GetOrLock(s.threads[t].key);
        var answer := Resume(s.store, s.threads[t].key);
        Some(At(Record(s, op, answer), t, Leaving(op, answer)))
      else None
    case Wake(t) =>
      if t in s.threads && s.threads[t].Blocked? && s.threads[t].channel in s.store.closed
      then Some(At(s, t, Rewanting(s.threads[t].key))) else None
    case Release(t) =>
      if t in s.threads && s.threads[t].Leaving?
      then Some(Unlock(s, t, s.threads[t].op).(threads := s.threads - {t})) else None
  }

  /** A run: the states it passes through and the events between them. */
  ghost predicate Run(states: seq<State>, events: seq<Event>) {
    && |states| == |events| + 1
    && states[0] == Init
    && forall i :: 0 <= i < |events| ==> StepAt(states, events, i)
  }

  ghost predicate StepAt(states: seq<State>, events: seq<Event>, i: nat)
    requires i < |events| && |states| == |events| + 1
  {
    Next(states[i], events[i]) == Some(states[i+1])
  }

  /** The operation whose critical section event `e` runs, if it is the first one of a call. */
  function Running(s: State, e: Event): Option<Op> {
    if e.Work? && e.t in s.threads && s.threads[e.t].Inside? then Some(s.threads[e.t].op) else None
  }

  predicate Pending(s: State, k: Key) {
    k in s.store.items && s.store.items[k].Lock?
  }

  /** No item is removed, and no lock that somebody may wait for is overwritten. */
  predicate KeepsItems(s: State, e: Event) {
    match Running(s, e)
    case Some(Set(k, _)) => !Pending(s, k)
    case Some(Delete(_)) => false
    case Some(Clear) => false
    case _ => true
  }

  // ----- under all operations -----

  /** The mutex is held exactly by the threads that are between taking and releasing it. */
  ghost predicate MutexOk(s: State) {
    && !s.fault
    && (s.writer.None? || s.readers == {})
    && (forall t :: s.writer == Some(t) <==> t in s.threads && s.threads[t].HoldsWrite())
    && (forall t :: t in s.readers <==> t in s.threads && s.threads[t].HoldsRead())
  }

  /** Values come from a publication, and GetOrLock hands out values only. */
  ghost predicate ValuesOk(s: State) {
    && (forall k :: k in s.store.items && s.store.items[k].Value? ==> (k, s.store.items[k].path) in s.published)
    && (forall t :: t in s.threads ==> AnswerOk(s, s.threads[t]))
    && (forall t :: t in s.threads && s.threads[t].Blocked? ==> s.threads[t].channel < s.store.made)
  }

  predicate AnswerOk(s: State, pc: Pc) {
    pc.Leaving? && pc.op.GetOrLock? && !pc.answer.NotFound? ==>
      pc.answer.Found? && pc.answer.entry.Value? && (pc.op.key, pc.answer.entry.path) in s.published
  }

  ghost predicate Inv(s: State) {
    LocksOpen(s.store) && MutexOk(s) && ValuesOk(s)
  }

  lemma LocksOpenKept(s: State, e: Event, s': State)
    requires LocksOpen(s.store) && Next(s, e) == Some(s')
    ensures LocksOpen(s'.store)
  {
    if Running(s, e).Some? { SectionKeepsLocksOpen(s.store, Running(s, e).value); }
  }

  lemma TakeKeepsMutex(s: State, t: nat, op: Op, pc: Pc, s': State)
    requires MutexOk(s) && t in s.threads && s.threads[t].Held().None? && pc.Held() == Some(op)
    requires TakeMutex(s, t, op, pc) == Some(s')
    ensures MutexOk(s')
  {
    if Shared(op) {} else {}
  }

  lemma FreeKeepsMutex(s: State, t: nat, op: Op, threads: map<nat, Pc>)
    requires MutexOk(s) && t in s.threads && s.threads[t].Held() == Some(op)
    requires threads - {t} == s.threads - {t} && (t in threads ==> threads[t].Held().None?)
    ensures MutexOk(Unlock(s, t, op).(threads := threads))
  {
    forall u | u != t ensures (u in threads <==> u in s.threads) && (u in threads ==> threads[u] == s.threads[u]) {
      assert u in threads - {t} <==> u in threads;
      assert u in s.threads - {t} <==> u in s.threads;
      if u in threads { assert (threads - {t})[u] == threads[u]; }
    }
  }

  lemma StayKeepsMutex(s: State, t: nat, pc: Pc, s': State)
    requires MutexOk(s) && s'.threads == s.threads[t := pc]
    requires pc.Held() == if t in s.threads then s.threads[t].Held() else None
    requires s'.writer == s.writer && s'.readers == s.readers && s'.fault == s.fault
    ensures MutexOk(s')
  {
  }

  lemma RecordFrame(s: State, op: Op, answer: Answer)
    ensures var s' := Record(s, op, answer);
      s'.store == s.store && s'.writer == s.writer && s'.readers == s.readers
      && s'.threads == s.threads && s'.fault == s.fault
  {
  }

  lemma MutexKept(s: State, e: Event, s': State)
    requires MutexOk(s) && Next(s, e) == Some(s')
    ensures MutexOk(s')
  {
    var t := e.t;
    match e
    case Call(_, op) => StayKeepsMutex(s, t, Wanting(op), s');
    case Acquire(_) =>
      if s.threads[t].Wanting? { TakeKeepsMutex(s, t, s.threads[t].op, Inside(s.threads[t].op), s'); }
      else { TakeKeepsMutex(s, t, GetOrLock(s.threads[t].key), InsideAgain(s.threads[t].key), s'); }
    case Work(_) => WorkKeepsMutex(s, t, s');
    case Wake(_) => StayKeepsMutex(s, t, Rewanting(s.threads[t].key), s');
    case Release(_) => FreeKeepsMutex(s, t, s.threads[t].op, s.threads - {t});
  }

  lemma WorkKeepsMutex(s: State, t: nat, s': State)
    requires MutexOk(s) && Next(s, Work(t)) == Some(s')
    ensures MutexOk(s')
  {
    if s.threads[t].Inside? {
      var op := s.threads[t].op;
      var (store, answer) := Section(s.store, op);
      if answer.MustWait? && op.GetOrLock? {
        FreeKeepsMutex(s, t, op, s.threads[t := Blocked(op.key, answer.channel)]);
      } else {
        RecordFrame(s.(store := store), op, answer);
        StayKeepsMutex(s, t, Leaving(op, answer), s');
      }
    } else {
      var op := GetOrLock(s.threads[t].key);
      RecordFrame(s, op, Resume(s.store, s.threads[t].key));
      StayKeepsMutex(s, t, Leaving(op, Resume(s.store, s.threads[t].key)), s');
    }
  }

  // A step that leaves the store alone and publishes nothing.
  lemma QuietKeepsValues(s: State, t: nat, s': State)
    requires ValuesOk(s) && s'.store == s.store && s'.published == s.published
    requires s'.threads - {t} == s.threads - {t}
    requires t in s'.threads ==> AnswerOk(s, s'.threads[t]) && (s'.threads[t].Blocked? ==> s'.threads[t].channel < s.store.made)
    ensures ValuesOk(s')
  {
    forall u | u != t && u in s'.threads ensures u in s.threads && s'.threads[u] == s.threads[u] {
      assert u in s'.threads - {t};
      assert (s'.threads - {t})[u] == s'.threads[u];
    }
  }

  /** What a critical section publishes is what it stores, and what it finds was published. */
  lemma SectionValues(s: State, op: Op)
    requires LocksOpen(s.store) && ValuesOk(s)
    ensures var (store, answer) := Section(s.store, op);
      var s' := Record(s.(store := store), op, answer);
      && (forall k :: k in store.items && store.items[k].Value? ==> (k, store.items[k].path) in s'.published)
      && s.published <= s'.published
      && s.store.made <= store.made
      && (answer.MustWait? ==> answer.channel < store.made)
      && (op.GetOrLock? && !answer.NotFound? && !answer.MustWait? ==>
            answer.Found? && answer.entry.Value? && (op.key, answer.entry.path) in s'.published)
  {
  }

  lemma ResumeValues(s: State, k: Key)
    requires ValuesOk(s)
    ensures var answer := Resume(s.store, k);
      var s' := Record(s, GetOrLock(k), answer);
      && s'.published == s.published
      && (!answer.NotFound? ==> answer.Found? && answer.entry.Value? && (k, answer.entry.path) in s.published)
  {
  }

  lemma WorkKeepsValues(s: State, t: nat, s': State)
    requires LocksOpen(s.store) && ValuesOk(s) && Next(s, Work(t)) == Some(s')
    ensures ValuesOk(s')
  {
    if s.threads[t].Inside? {
      var op := s.threads[t].op;
      SectionValues(s, op);
      var (store, answer) := Section(s.store, op);
      RecordFrame(s.(store := store), op, answer);
    } else {
      ResumeValues(s, s.threads[t].key);
      RecordFrame(s, GetOrLock(s.threads[t].key), Resume(s.store, s.threads[t].key));
    }
  }

  lemma ValuesKept(s: State, e: Event, s': State)
    requires LocksOpen(s.store) && ValuesOk(s) && Next(s, e) == Some(s')
    ensures ValuesOk(s')
  {
    if e.Work? {
      WorkKeepsValues(s, e.t, s');
    } else {
      QuietKeepsValues(s, e.t, s');
    }
  }

  predicate StoredLock(s: Store, k: Key, channel: nat) {
    k in s.items && s.items[k] == Entry.Lock(channel)
  }

  // ----- when no pending lock is dropped and no item is removed -----

  /** At most one miss per key, after which the key stays; a woken waiter finds a value. */
  ghost predicate FlightOk(s: State) {
    && (forall k :: s.misses[k] <= 1 && (s.misses[k] == 1 ==> k in s.store.items))
    && (forall t :: t in s.threads ==> WokenOk(s.store, s.threads[t]))
  }

  predicate WokenOk(s: Store, pc: Pc) {
    match pc
    case Blocked(k, ch) => k in s.items && (s.items[k].Value? || s.items[k] == Entry.Lock(ch))
    case Rewanting(k) => k in s.items && s.items[k].Value?
    case InsideAgain(k) => k in s.items && s.items[k].Value?
    case _ => true
  }

  predicate GentleOp(s: State, op: Op) {
    !op.Delete? && !op.Clear? && (op.Set? ==> !Pending(s, op.key))
  }

  /** A gentle operation leaves each item as it is or makes it a value. */
  predicate Settled(s: Store, s': Store, k: Key) {
    k in s.items ==> k in s'.items && (s'.items[k] == s.items[k] || s'.items[k].Value?)
  }

  lemma SectionKeepsItems(s: State, op: Op, k: Key)
    requires FlightOk(s) && GentleOp(s, op)
    ensures var (store, answer) := Section(s.store, op);
      var s' := Record(s.(store := store), op, answer);
      && Settled(s.store, store, k)
      && s'.misses[k] <= 1 && (s'.misses[k] == 1 ==> k in store.items)
  {
  }

  lemma SectionWaits(s: Store, op: Op)
    ensures var (store, answer) := Section(s, op);
      answer.MustWait? ==> op.GetOrLock? && WokenOk(store, Blocked(op.key, answer.channel))
  {
  }

  lemma SectionKeepsFlight(s: State, e: Event, s': State)
    requires FlightOk(s) && KeepsItems(s, e) && Next(s, e) == Some(s') && Running(s, e).Some?
    ensures FlightOk(s')
  {
    var op := Running(s, e).value;
    var (store, answer) := Section(s.store, op);
    RecordFrame(s.(store := store), op, answer);
    SectionWaits(s.store, op);
    forall k ensures Settled(s.store, store, k) && s'.misses[k] <= 1 && (s'.misses[k] == 1 ==> k in store.items) {
      SectionKeepsItems(s, op, k);
    }
    forall t | t in s'.threads ensures WokenOk(s'.store, s'.threads[t]) {
      if t != e.t { assert WokenOk(s.store, s.threads[t]); }
    }
  }

  lemma FlightKept(s: State, e: Event, s': State)
    requires LocksOpen(s.store) && FlightOk(s) && KeepsItems(s, e) && Next(s, e) == Some(s')
    ensures FlightOk(s')
  {
    if Running(s, e).Some? {
      SectionKeepsFlight(s, e, s');
    } else if e.Work? {
      RecordFrame(s, GetOrLock(s.threads[e.t].key), Resume(s.store, s.threads[e.t].key));
    } else {
      OtherKeepsFlight(s, e, s');
    }
  }

  lemma OtherKeepsFlight(s: State, e: Event, s': State)
    requires LocksOpen(s.store) && FlightOk(s) && !e.Work? && Next(s, e) == Some(s')
    ensures FlightOk(s')
  {
    assert s'.store == s.store && s'.misses == s.misses;
    forall t | t in s'.threads ensures WokenOk(s'.store, s'.threads[t]) {
      if t == e.t {
        assert t in s.threads ==> WokenOk(s.store, s.threads[t]);
      } else {
        assert t in s.threads && s'.threads[t] == s.threads[t];
      }
    }
  }

  // ----- runs -----

  lemma {:induction false} RunKeepsInv(states: seq<State>, events: seq<Event>, i: nat)
    requires Run(states, events) && i < |states|
    ensures Inv(states[i])
  {
    if i > 0 {
      RunKeepsInv(states, events, i - 1);
      assert StepAt(states, events, i - 1);
      LocksOpenKept(states[i-1], events[i-1], states[i]);
      MutexKept(states[i-1], events[i-1], states[i]);
      ValuesKept(states[i-1], events[i-1], states[i]);
    }
  }

  /**
   In every interleaving of all operations: no channel is closed twice, the mutex is
   released only by its holder, every stored lock is open and under one key only, and
   every value that GetOrLock returned was published for its key.
   */
  lemma EveryRunIsSafe(states: seq<State>, events: seq<Event>, i: nat)
    requires Run(states, events) && i < |states|
    ensures LocksOpen(states[i].store) && MutexOk(states[i])
    ensures forall t :: t in states[i].threads ==> StepIsSafe(states[i], t)
  {
    RunKeepsInv(states, events, i);
  }

  /** The channel that the call is about to close is open, and the mutex that it is about to release is its own. */
  predicate StepIsSafe(s: State, t: nat)
    requires t in s.threads
  {
    match s.threads[t]
    case Inside(SetUnlock(k, _)) =>
      s.writer == Some(t) && (k in s.store.items && s.store.items[k].Lock? ==> s.store.items[k].channel !in s.store.closed)
    case Inside(op) => HasMutex(s, t, op)
    case Leaving(op, _) => HasMutex(s, t, op)
    case InsideAgain(_) => s.writer == Some(t)
    case _ => s.writer != Some(t) && t !in s.readers
  }

  /** Get and ItemCount share it with each other. */
  predicate HasMutex(s: State, t: nat, op: Op) {
    if op.Get? || op.ItemCount? then t in s.readers && s.writer.None? else s.writer == Some(t) && s.readers == {}
  }

  // ----- what was answered and what was published -----

  /** Step `j` answers this to a caller of `op`. */
  predicate AnsweredAt(states: seq<State>, events: seq<Event>, j: nat, op: Op, answer: Answer)
    requires j < |events| && |states| == |events| + 1
  {
    events[j].Work? && events[j].t in states[j+1].threads && states[j+1].threads[events[j].t] == Leaving(op, answer)
  }

  /** Step `j` stores the path under the key. */
  predicate PublishesAt(states: seq<State>, events: seq<Event>, j: nat, k: Key, path: string)
    requires j < |events| && |states| == |events| + 1
  {
    || AnsweredAt(states, events, j, Set(k, path), Unit)
    || AnsweredAt(states, events, j, SetUnlock(k, path), Unit)
    || AnsweredAt(states, events, j, Add(k, path), Unit)
  }

  /** What a step that runs a critical section leaves: the answer, and the record of it. */
  lemma WorkAnswers(s: State, t: nat, s': State)
    requires Next(s, Work(t)) == Some(s')
    ensures t in s'.threads && (s'.threads[t].Blocked? || s'.threads[t].Leaving?)
    ensures s'.threads[t].Blocked? ==> s'.misses == s.misses && s'.published == s.published
    ensures s'.threads[t].Leaving? ==>
      && s'.misses == Record(s, s'.threads[t].op, s'.threads[t].answer).misses
      && s'.published == Record(s, s'.threads[t].op, s'.threads[t].answer).published
  {
    if s.threads[t].Inside? {
      var op := s.threads[t].op;
      RecordFrame(s.(store := Section(s.store, op).0), op, Section(s.store, op).1);
    } else {
      RecordFrame(s, GetOrLock(s.threads[t].key), Resume(s.store, s.threads[t].key));
    }
  }

  lemma StepCountsMiss(states: seq<State>, events: seq<Event>, j: nat, k: Key)
    requires Run(states, events) && j < |events|
    ensures states[j+1].misses[k]
         == states[j].misses[k] + if AnsweredAt(states, events, j, GetOrLock(k), NotFound) then 1 else 0
  {
    assert StepAt(states, events, j);
    if events[j].Work? {
      WorkAnswers(states[j], events[j].t, states[j+1]);
    }
  }

  /** An Add that is refused has nothing to publish. */
  lemma StepPublishes(states: seq<State>, events: seq<Event>, j: nat, k: Key, path: string)
    requires Run(states, events) && j < |events|
    ensures (k, path) in states[j+1].published <==>
      (k, path) in states[j].published || PublishesAt(states, events, j, k, path)
  {
    assert StepAt(states, events, j);
    if events[j].Work? {
      WorkAnswers(states[j], events[j].t, states[j+1]);
      if states[j+1].threads[events[j].t].Leaving? {
        SetsAnswerUnit(states[j], events[j].t, states[j+1]);
      }
    }
  }

  lemma SetsAnswerUnit(s: State, t: nat, s': State)
    requires Next(s, Work(t)) == Some(s') && t in s'.threads && s'.threads[t].Leaving?
    ensures s'.threads[t].op.Set? || s'.threads[t].op.SetUnlock? ==> s'.threads[t].answer == Unit
  {
    if s.threads[t].Inside? {
      var op := s.threads[t].op;
      RecordFrame(s.(store := Section(s.store, op).0), op, Section(s.store, op).1);
    } else {
      RecordFrame(s, GetOrLock(s.threads[t].key), Resume(s.store, s.threads[t].key));
    }
  }

  /** What has been published is what Set, SetUnlock and Add have stored. */
  lemma {:induction false} PublishedIff(states: seq<State>, events: seq<Event>, i: nat, k: Key, path: string)
    requires Run(states, events) && i < |states|
    ensures (k, path) in states[i].published <==> exists j | 0 <= j < i :: PublishesAt(states, events, j, k, path)
  {
    if i > 0 {
      PublishedIff(states, events, i - 1, k, path);
      StepPublishes(states, events, i - 1, k, path);
    }
  }

  lemma {:induction false} MissesCount(states: seq<State>, events: seq<Event>, i: nat, j: nat, k: Key)
    requires Run(states, events) && j <= i < |states|
    ensures states[j].misses[k] <= states[i].misses[k]
    ensures forall m :: j <= m < i && AnsweredAt(states, events, m, GetOrLock(k), NotFound) ==>
      states[j].misses[k] < states[i].misses[k]
    decreases i
  {
    if j < i {
      MissesCount(states, events, i - 1, j, k);
      StepCountsMiss(states, events, i - 1, k);
    }
  }

  /** Every answer that GetOrLock gives but a miss is a path that was stored under its key before. */
  lemma HitsWerePublished(states: seq<State>, events: seq<Event>, i: nat, k: Key, answer: Answer)
    requires Run(states, events) && i < |events| && AnsweredAt(states, events, i, GetOrLock(k), answer)
    ensures answer.NotFound? || (answer.Found? && answer.entry.Value?
      && exists j | 0 <= j < i :: PublishesAt(states, events, j, k, answer.entry.path))
  {
    RunKeepsInv(states, events, i + 1);
    assert AnswerOk(states[i+1], states[i+1].threads[events[i].t]);
    if !answer.NotFound? {
      PublishedIff(states, events, i + 1, k, answer.entry.path);
      var j :| 0 <= j < i + 1 && PublishesAt(states, events, j, k, answer.entry.path);
      assert j != i;
    }
  }

  /** As long as no removal and no overwriting of a pending lock happens, GetOrLock misses at most once per key. */
  lemma SingleMiss(states: seq<State>, events: seq<Event>, i: nat, j: nat, k: Key)
    requires Run(states, events) && j < i < |events|
    requires forall m :: 0 <= m <= i ==> KeepsItems(states[m], events[m])
    requires AnsweredAt(states, events, j, GetOrLock(k), NotFound)
    ensures !AnsweredAt(states, events, i, GetOrLock(k), NotFound)
  {
    RunKeepsFlight(states, events, i + 1);
    MissesCount(states, events, i, j, k);
    StepCountsMiss(states, events, i, k);
    assert states[i+1].misses[k] <= 1;
  }

  lemma {:induction false} RunKeepsFlight(states: seq<State>, events: seq<Event>, i: nat)
    requires Run(states, events) && i < |states|
    requires forall j :: 0 <= j < i ==> KeepsItems(states[j], events[j])
    ensures FlightOk(states[i])
  {
    if i > 0 {
      RunKeepsFlight(states, events, i - 1);
      RunKeepsInv(states, events, i - 1);
      assert StepAt(states, events, i - 1);
      FlightKept(states[i-1], events[i-1], states[i]);
    }
  }

  /**
   Under the same condition a caller that has waited always gets a value that was published for its key: the second
   critical section of GetOrLock never misses.
   */
  lemma WokenHits(states: seq<State>, events: seq<Event>, i: nat, t: nat)
    requires Run(states, events) && i < |states|
    requires forall j :: 0 <= j < i ==> KeepsItems(states[j], events[j])
    requires t in states[i].threads && states[i].threads[t].InsideAgain?
    ensures var k := states[i].threads[t].key;
      var s := Next(states[i], Work(t)).value;
      && s.threads[t].Leaving? && s.threads[t].answer.Found? && s.threads[t].answer.entry.Value?
      && (k, s.threads[t].answer.entry.path) in states[i].published
  {
    RunKeepsFlight(states, events, i);
    RunKeepsInv(states, events, i);
    assert WokenOk(states[i].store, states[i].threads[t]);
    ResumeValues(states[i], states[i].threads[t].key);
  }

  ghost predicate PublishesOnePath(states: seq<State>, events: seq<Event>, k: Key)
    requires |states| == |events| + 1
  {
    forall v, w, m, n | 0 <= m < |events| && 0 <= n < |events| ::
      PublishesAt(states, events, m, k, v) && PublishesAt(states, events, n, k, w) ==> v == w
  }

  /** With one publication per key all hits on a key agree. */
  lemma HitsAgree(states: seq<State>, events: seq<Event>, i: nat, j: nat, k: Key, p: string, q: string)
    requires Run(states, events) && i < |events| && j < |events|
    requires PublishesOnePath(states, events, k)
    requires AnsweredAt(states, events, i, GetOrLock(k), Found(Value(p)))
    requires AnsweredAt(states, events, j, GetOrLock(k), Found(Value(q)))
    ensures p == q
  {
    HitsWerePublished(states, events, i, k, Found(Value(p)));
    HitsWerePublished(states, events, j, k, Found(Value(q)));
    var m :| 0 <= m < i && PublishesAt(states, events, m, k, p);
    var n :| 0 <= n < j && PublishesAt(states, events, n, k, q);
  }

  /** No call that has begun can take a step. */
  ghost predicate Stuck(s: State) {
    forall e: Event :: !e.Call? ==> Next(s, e).None?
  }

  /** The mutex never deadlocks: a call that cannot proceed waits for an open channel. */
  lemma StuckMeansWaiting(s: State, t: nat)
    requires MutexOk(s) && Stuck(s) && t in s.threads
    ensures s.threads[t].Blocked? && s.threads[t].channel !in s.store.closed
  {
    forall u | u in s.threads ensures s.threads[u].Held().None? {
      assert Next(s, Work(u)).None? && Next(s, Release(u)).None?;
    }
    forall u: nat ensures s.writer != Some(u) && u !in s.readers {
    }
    assert s.writer.None? && s.readers == {};
    assert Next(s, Acquire(t)).None? && Next(s, Wake(t)).None?;
  }

  /** Each step of a call that has begun brings this call nearer to its return and moves no other call. */
  lemma StepsAreBounded(s: State, e: Event, s': State)
    requires !e.Call? && Next(s, e) == Some(s')
    ensures e.t in s.threads && s'.threads - {e.t} == s.threads - {e.t}
    ensures e.t in s'.threads ==> s'.threads[e.t].Weight() < s.threads[e.t].Weight()
  {
    if e.Work? {
      if s.threads[e.t].Inside? {
        var op := s.threads[e.t].op;
        RecordFrame(s.(store := Section(s.store, op).0), op, Section(s.store, op).1);
      } else {
        RecordFrame(s, GetOrLock(s.threads[e.t].key), Resume(s.store, s.threads[e.t].key));
      }
    }
  }

  // ----- the in-memory chart cache -----

  /**
   InMemory.GetOrLock turns an answer into a path and, on a miss, the key to unlock; the
   type assertion on a hit panics unless the item is a path.
   */
  function ClientGetOrLock(k: Key, answer: Answer, newPath: string): Option<(string, Option<Key>)> {
    match answer
    case Found(Value(path)) => Some((path, None))
    case NotFound => Some((newPath, Some(k)))
    case _ => None
  }

  /**
   The assertion holds in every interleaving; a miss gives a new path and the key to unlock, and any other answer a
   published path and no key.
   */
  lemma ClientNeverPanics(states: seq<State>, events: seq<Event>, i: nat, t: nat, newPath: string)
    requires Run(states, events) && i < |states|
    requires t in states[i].threads && states[i].threads[t].Leaving? && states[i].threads[t].op.GetOrLock?
    ensures var k := states[i].threads[t].op.key;
      var r := ClientGetOrLock(k, states[i].threads[t].answer, newPath);
      && r.Some?
      && (states[i].threads[t].answer.NotFound? ==> r.value == (newPath, Some(k)))
      && (!states[i].threads[t].answer.NotFound? ==> r.value.1 == None && (k, r.value.0) in states[i].published)
  {
    RunKeepsInv(states, events, i);
  }
}
