/**
 The single-flight cache of internal/cache/cache.go as the in-memory chart cache uses it.

 The class holds one method per critical section. The protocol over threads, the mutex and
 the channels, and what holds in every interleaving, is in SingleFlightProtocol.
 */
module SingleFlight {
  import opened Wrappers

  /** The key of internal/helm/chart/cache: a chart reference in a repository. */
  datatype Key = Key(repo: string, chart: string, version: string)

  /** A cached item: a published path, or the channel that its first requestor will close. */
  datatype Entry = Value(path: string) | Lock(channel: nat)

  /** The map and the channels; a channel is numbered when it is made. */
  datatype Store = Store(items: map<Key, Entry>, made: nat, closed: set<nat>, fault: bool)

  const EmptyStore := Store(map[], 0, {}, false)

  datatype Op =
    | Set(key: Key, path: string)
    | Add(key: Key, path: string)
    | Get(key: Key)
    | GetOrLock(key: Key)
    | SetUnlock(key: Key, path: string)
    | Delete(key: Key)
    | Clear
    | ItemCount

  datatype Answer =
    | Unit
    | Exists
    | NotFound
    | Found(entry: Entry)
    | Count(n: nat)
    | MustWait(channel: nat)   // GetOrLock found a lock: it releases the mutex and waits

  /** What one critical section does; closing a closed channel faults. */
  function Section(s: Store, op: Op): (Store, Answer) {
    match op
    case Set(k, v) => (s.(items := s.items[k := Value(v)]), Unit)
    case Add(k, v) => if k in s.items then (s, Exists) else (s.(items := s.items[k := Value(v)]), Unit)
    case Get(k) => (s, if k in s.items then Found(s.items[k]) else NotFound)
    case GetOrLock(k) =>
      if k !in s.items then (s.(items := s.items[k := Lock(s.made)], made := s.made + 1), NotFound)
      else if s.items[k].Lock? then (s, MustWait(s.items[k].channel))
      else (s, Found(s.items[k]))
    case SetUnlock(k, v) =>
      var s' := if k in s.items && s.items[k].Lock? then Close(s, s.items[k].channel) else s;
      (s'.(items := s'.items[k := Value(v)]), Unit)
    case Delete(k) => (s.(items := s.items - {k}), Unit)
    case Clear => (s.(items := map[]), Unit)
    case ItemCount => (s, Count(|s.items|))
  }

  function Close(s: Store, channel: nat): Store {
    s.(closed := s.closed + {channel}, fault := s.fault || channel in s.closed)
  }

  /** The second critical section of GetOrLock, after the channel was closed. */
  function Resume(s: Store, k: Key): Answer {
    if k !in s.items || s.items[k].Lock? then NotFound else Found(s.items[k])
  }

  /** Every stored lock is open and stored under one key only. */
  ghost predicate LocksOpen(s: Store) {
    && !s.fault
    && (forall k :: k in s.items && s.items[k].Lock? ==>
          s.items[k].channel < s.made && s.items[k].channel !in s.closed)
    && (forall k, l :: k in s.items && l in s.items && s.items[k].Lock? && s.items[k] == s.items[l] ==> k == l)
    && (forall ch :: ch in s.closed ==> ch < s.made)
  }

  lemma SectionKeepsLocksOpen(s: Store, op: Op)
    requires LocksOpen(s)
    ensures LocksOpen(Section(s, op).0)
  {
  }

  class Cache {
    var items: map<Key, Entry>
    var made: nat
    var closed: set<nat>

    ghost function State(): Store
      reads this
    {
      Store(items, made, closed, false)
    }

    ghost predicate Valid()
      reads this
    {
      LocksOpen(State())
    }

    constructor ()
      ensures Valid() && State() == EmptyStore
    {
      items, made, closed := map[], 0, {};
    }

    method Set(key: Key, path: string)
      requires Valid()
      modifies this
      ensures Valid() && State() == Section(old(State()), Op.Set(key, path)).0
    {
      SectionKeepsLocksOpen(State(), Op.Set(key, path));
      items := items[key := Value(path)];
    }

    method Add(key: Key, path: string) returns (ok: bool)
      requires Valid()
      modifies this
      ensures Valid() && (State(), if ok then Unit else Exists) == Section(old(State()), Op.Add(key, path))
    {
      SectionKeepsLocksOpen(State(), Op.Add(key, path));
      if key in items {
        return false;
      }
      items := items[key := Value(path)];
      ok := true;
    }

    method Get(key: Key) returns (item: Option<Entry>)
      ensures item == if key in items then Some(items[key]) else None
      ensures Section(State(), Op.Get(key)) == (State(), if item.Some? then Found(item.value) else NotFound)
    {
      if key !in items {
        return None;
      }
      item := Some(items[key]);
    }

    method ItemCount() returns (n: nat)
      ensures n == |items| && Section(State(), Op.ItemCount) == (State(), Count(n))
    {
      n := |items|;
    }

    /** GetOrLock up to its return or up to the point where it waits for a channel. */
    method BeginGetOrLock(key: Key) returns (answer: Answer)
      requires Valid()
      modifies this
      ensures Valid() && (State(), answer) == Section(old(State()), GetOrLock(key))
    {
      SectionKeepsLocksOpen(State(), GetOrLock(key));
      if key !in items {
        items := items[key := Lock(made)];
        made := made + 1;
        return NotFound;
      }
      match items[key]
      case Lock(channel) => answer := MustWait(channel);
      case Value(_) => answer := Found(items[key]);
    }

    /** Never closes a closed channel. */
    method SetUnlock(key: Key, path: string)
      requires Valid()
      modifies this
      ensures Valid() && State() == Section(old(State()), Op.SetUnlock(key, path)).0
    {
      SectionKeepsLocksOpen(State(), Op.SetUnlock(key, path));
      if key in items && items[key].Lock? {
        CloseChannel(items[key].channel);
      }
      items := items[key := Value(path)];
    }

    method CloseChannel(channel: nat)
      requires channel !in closed
      modifies this`closed
      ensures closed == old(closed) + {channel}
    {
      closed := closed + {channel};
    }

    method Delete(key: Key)
      requires Valid()
      modifies this
      ensures Valid() && State() == Section(old(State()), Op.Delete(key)).0
    {
      SectionKeepsLocksOpen(State(), Op.Delete(key));
      items := items - {key};
    }

    method Clear()
      requires Valid()
      modifies this
      ensures Valid() && State() == Section(old(State()), Op.Clear).0
    {
      SectionKeepsLocksOpen(State(), Op.Clear);
      items := map[];
    }
  }
}
