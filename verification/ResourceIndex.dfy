/** The index of rendered resources, internal/build/index.go: a later resource replaces an earlier one with its key. */
module ResourceIndex {
  import opened Wrappers

  /** The key under which Push stores a resource. */
  datatype Ref = Ref(group: string, kind: string, namespace: string, name: string)

  /** A resource with readable metadata; the ones without are `None`. */
  datatype Resource = Resource(key: Ref, body: string)

  type Entries = map<Ref, Resource>

  predicate AllReadable(rs: seq<Option<Resource>>) {
    forall r :: r in rs ==> r.Some?
  }

  /** The keys that Push stores: it stops at the first resource without readable metadata. */
  function Readable(rs: seq<Option<Resource>>): set<Ref> {
    if rs == [] || rs[0].None? then {} else {rs[0].value.key} + Readable(rs[1..])
  }

  /** What Push stores under these keys. */
  function Pushed(rs: seq<Option<Resource>>): (m: Entries)
    ensures m.Keys == Readable(rs)
  {
    if rs == [] || rs[0].None? then map[] else map[rs[0].value.key := rs[0].value] + Pushed(rs[1..])
  }

  /** Resource `k` is the last one with its key before the first unreadable one. */
  predicate LastOfKey(rs: seq<Option<Resource>>, k: nat) {
    && k < |rs| && AllReadable(rs[..k+1])
    && forall i :: k < i < |rs| && AllReadable(rs[..i+1]) ==> rs[i].value.key != rs[k].value.key
  }

  lemma {:induction false} ReadableFirst(rs: seq<Option<Resource>>, i: nat)
    requires i < |rs| && AllReadable(rs[..i+1])
    ensures rs[0].Some? && rs[i].Some?
    ensures i > 0 ==> AllReadable(rs[1..][..i])
  {
    assert rs[0] in rs[..i+1] && rs[i] in rs[..i+1];
    if i > 0 {
      assert rs[1..][..i] == rs[..i+1][1..];
    }
  }

  /** Push binds a key to the last resource that has it. */
  lemma {:induction false} PushedLast(rs: seq<Option<Resource>>, k: nat)
    requires LastOfKey(rs, k)
    ensures rs[k].value.key in Pushed(rs) && Pushed(rs)[rs[k].value.key] == rs[k].value
  {
    ReadableFirst(rs, k);
    var tail := rs[1..];
    if k > 0 {
      forall i | k - 1 < i < |tail| && AllReadable(tail[..i+1]) ensures tail[i].value.key != tail[k-1].value.key {
        assert rs[..i+2] == [rs[0]] + tail[..i+1];
      }
      PushedLast(tail, k - 1);
    } else if rs[0].value.key in Readable(tail) {
      var i := ReadableAt(tail, rs[0].value.key);
      assert false;
    }
  }

  /** And every key it stores has such a resource. */
  lemma {:induction false} ReadableAt(rs: seq<Option<Resource>>, key: Ref) returns (k: nat)
    requires key in Readable(rs)
    ensures LastOfKey(rs, k) && rs[k].value.key == key
  {
    var tail := rs[1..];
    if key in Readable(tail) {
      var j := ReadableAt(tail, key);
      k := j + 1;
      assert rs[..k+1] == [rs[0]] + tail[..j+1];
      forall i | k < i < |rs| && AllReadable(rs[..i+1]) ensures rs[i].value.key != key {
        ReadableFirst(rs, i);
        assert tail[i-1] == rs[i];
      }
    } else {
      k := 0;
      forall i | 0 < i < |rs| && AllReadable(rs[..i+1]) ensures rs[i].value.key != key {
        ReadableFirst(rs, i);
        ReadableIn(tail, i - 1);
      }
    }
  }

  lemma {:induction false} ReadableIn(rs: seq<Option<Resource>>, i: nat)
    requires i < |rs| && AllReadable(rs[..i+1])
    ensures rs[i].value.key in Readable(rs)
  {
    ReadableFirst(rs, i);
    if i > 0 {
      ReadableIn(rs[1..], i - 1);
    }
  }

  lemma {:induction false} ReadablePrefix(rs: seq<Option<Resource>>, n: nat)
    requires n <= |rs|
    ensures Readable(rs[..n]) <= Readable(rs)
  {
    if n > 0 && rs[0].Some? {
      assert rs[..n][1..] == rs[1..][..n-1];
      ReadablePrefix(rs[1..], n - 1);
    }
  }

  lemma {:induction false} PushedSnoc(rs: seq<Option<Resource>>, n: nat)
    requires n < |rs| && AllReadable(rs[..n+1])
    ensures Pushed(rs[..n+1]) == Pushed(rs[..n])[rs[n].value.key := rs[n].value]
  {
    ReadableFirst(rs, n);
    if n > 0 {
      assert rs[..n+1][1..] == rs[1..][..n] && rs[..n][1..] == rs[1..][..n-1];
      PushedSnoc(rs[1..], n - 1);
    } else {
      assert rs[..1][1..] == [];
    }
  }

  lemma {:induction false} PushedStops(rs: seq<Option<Resource>>, n: nat)
    requires n < |rs| && AllReadable(rs[..n]) && rs[n].None?
    ensures Pushed(rs) == Pushed(rs[..n])
  {
    if n > 0 {
      assert rs[0] in rs[..n];
      assert rs[..n][1..] == rs[1..][..n-1];
      assert AllReadable(rs[1..][..n-1]);
      PushedStops(rs[1..], n - 1);
    }
  }

  /** One round of the loop in Push. */
  lemma OneRound(before: Entries, rs: seq<Option<Resource>>, n: nat)
    requires n < |rs| && AllReadable(rs[..n])
    ensures rs[n].Some? ==> AllReadable(rs[..n+1])
    ensures rs[n].Some? ==> (before + Pushed(rs[..n]))[rs[n].value.key := rs[n].value] == before + Pushed(rs[..n+1])
    ensures rs[n].None? ==> !AllReadable(rs) && Pushed(rs) == Pushed(rs[..n])
  {
    if rs[n].Some? {
      assert rs[..n+1] == rs[..n] + [rs[n]];
      PushedSnoc(rs, n);
    } else {
      assert rs[n] in rs;
      PushedStops(rs, n);
    }
  }

  class Index {
    var entries: Entries

    constructor ()
      ensures entries == map[]
    {
      entries := map[];
    }

    /** Push, resource by resource; what precedes an unreadable one stays. */
    method Push(rs: seq<Option<Resource>>) returns (ok: bool)
      modifies this
      ensures ok <==> AllReadable(rs)
      ensures entries == old(entries) + Pushed(rs)
    {
      for i := 0 to |rs|
        invariant AllReadable(rs[..i])
        invariant entries == old(entries) + Pushed(rs[..i])
      {
        OneRound(old(entries), rs, i);
        if rs[i].None? {
          return false;
        }
        entries := entries[rs[i].value.key := rs[i].value];
      }
      assert rs[..|rs|] == rs;
      return true;
    }
  }
}
