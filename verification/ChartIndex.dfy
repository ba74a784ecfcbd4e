/** The clean-up of a parsed repository index, IndexFromBytes of internal/helm/repository/chart_repository.go. */
module ChartIndex {
  import opened Helpers

  datatype Entry = Entry(name: string, apiVersion: string, version: string)

  /** An element of a chart's list; the parser may leave nil pointers behind. */
  datatype Slot = NilEntry | NilMetadata | Present(entry: Entry)

  const API_VERSION_V1 := "v1"

  /** Fills in the name and the API version. */
  function Defaulted(key: string, e: Entry): Entry {
    e.(name := if e.name == "" then key else e.name,
       apiVersion := if e.apiVersion == "" then API_VERSION_V1 else e.apiVersion)
  }

  predicate Keeps(key: string, valid: Entry -> bool, s: Slot) {
    s.Present? && valid(Defaulted(key, s.entry))
  }

  function Kept(key: string, valid: Entry -> bool, s: Slot): seq<Slot> {
    if Keeps(key, valid, s) then [Present(Defaulted(key, s.entry))] else []
  }

  /** The entries that validate once defaulted, in order. */
  function Cleaned(key: string, valid: Entry -> bool, slots: seq<Slot>): seq<Slot> {
    if slots == [] then [] else Kept(key, valid, slots[0]) + Cleaned(key, valid, slots[1..])
  }

  lemma CleanedFrom(key: string, valid: Entry -> bool, slots: seq<Slot>, idx: nat)
    requires idx < |slots|
    ensures Cleaned(key, valid, slots[idx..]) == Kept(key, valid, slots[idx]) + Cleaned(key, valid, slots[idx+1..])
  {
    assert slots[idx..][1..] == slots[idx+1..];
  }

  /** append(cvs[:idx], cvs[idx+1:]...): the elements behind `idx` move one place to the front. */
  method DeleteAt(a: array<Slot>, idx: nat, len: nat) returns (len': nat)
    requires idx < len <= a.Length
    modifies a
    ensures len' == len - 1
    ensures a[idx..len'] == old(a[idx+1..len]) && forall k :: 0 <= k < idx ==> a[k] == old(a[k])
  {
    for k := idx to len - 1
      invariant forall j :: 0 <= j < idx ==> a[j] == old(a[j])
      invariant forall j :: idx <= j < k ==> a[j] == old(a[j+1])
      invariant forall j :: k <= j < a.Length ==> a[j] == old(a[j])
    {
      a[k] := a[k+1];
    }
    len' := len - 1;
  }

  /** One round: the element at `idx` gets its defaults and stays, or is deleted. */
  method CleanAt(key: string, valid: Entry -> bool, a: array<Slot>, idx: nat, len: nat) returns (len': nat)
    requires idx < len <= a.Length
    modifies a
    ensures idx <= len' <= len && forall k :: 0 <= k < idx ==> a[k] == old(a[k])
    ensures a[idx..len'] == Kept(key, valid, old(a[idx])) + old(a[idx+1..len])
  {
    len' := len;
    match a[idx] {
      case Present(e) =>
        a[idx] := Present(Defaulted(key, e));
        assert a[idx+1..len] == old(a[idx+1..len]);
        if !valid(Defaulted(key, e)) {
          len' := DeleteAt(a, idx, len);
        }
      case _ =>
        len' := DeleteAt(a, idx, len);
    }
  }

  /** The backward loop over one chart's list; `len` is what is left of it. */
  method CleanEntries(key: string, valid: Entry -> bool, a: array<Slot>) returns (len: nat)
    modifies a
    ensures len <= a.Length
    ensures a[..len] == Cleaned(key, valid, old(a[..]))
  {
    len := a.Length;
    ghost var was, behind, from := a[..], [], a.Length;
    var idx := a.Length - 1;
    while idx >= 0
      invariant from == idx + 1 && 0 <= from <= len <= a.Length
      invariant forall k :: 0 <= k < from ==> a[k] == was[k]
      invariant a[from..len] == behind
      invariant behind == Cleaned(key, valid, was[from..])
    {
      CleanedFrom(key, valid, was, idx);
      len := CleanAt(key, valid, a, idx, len);
      behind, from := Kept(key, valid, was[idx]) + behind, idx;
      idx := idx - 1;
    }
    assert was[0..] == was;
  }

  /** Every chart's list is cleaned, whatever the order of the keys. */
  method CleanIndex(entries: map<string, seq<Slot>>, valid: Entry -> bool) returns (cleaned: map<string, seq<Slot>>)
    ensures cleaned == map key | key in entries :: Cleaned(key, valid, entries[key])
  {
    cleaned := map[];
    var left := entries.Keys;
    while left != {}
      invariant left <= entries.Keys && cleaned.Keys == entries.Keys - left
      invariant forall key :: key in cleaned ==> cleaned[key] == Cleaned(key, valid, entries[key])
      decreases |left|
    {
      var key :| key in left;
      var slots := entries[key];
      var a := new Slot[|slots|](i requires 0 <= i < |slots| => slots[i]);
      assert a[..] == slots;
      var len := CleanEntries(key, valid, a);
      cleaned := cleaned[key := a[..len]];
      left := left - {key};
    }
  }

  /** A cleaned list is complete: named, versioned and valid, so cleaning it again changes nothing. */
  lemma {:induction false} CleanedIsClean(key: string, valid: Entry -> bool, slots: seq<Slot>)
    ensures Cleaned(key, valid, Cleaned(key, valid, slots)) == Cleaned(key, valid, slots)
  {
    if slots != [] {
      CleanedIsClean(key, valid, slots[1..]);
      if Keeps(key, valid, slots[0]) {
        var x := Present(Defaulted(key, slots[0].entry));
        assert Defaulted(key, x.entry) == x.entry;
        assert ([x] + Cleaned(key, valid, slots[1..]))[1..] == Cleaned(key, valid, slots[1..]);
      } else {
        assert Cleaned(key, valid, slots) == Cleaned(key, valid, slots[1..]);
      }
    }
  }

  /** The order is kept: whatever stands before the slots of `t` is cleaned on its own and stays before them. */
  lemma {:induction false} CleanedInOrder(key: string, valid: Entry -> bool, s: seq<Slot>, t: seq<Slot>)
    ensures Cleaned(key, valid, s + t) == Cleaned(key, valid, s) + Cleaned(key, valid, t)
  {
    if s == [] {
      assert s + t == t;
    } else {
      assert (s + t)[1..] == s[1..] + t;
      CleanedInOrder(key, valid, s[1..], t);
      Associative(Kept(key, valid, s[0]), Cleaned(key, valid, s[1..]), Cleaned(key, valid, t));
    }
  }

  /** The entry with its name, or the key if it has none, with its API version, or v1, and with its version. */
  predicate Completes(key: string, e: Entry, d: Entry) {
    && (if e.name != "" then d.name == e.name else d.name == key)
    && (if e.apiVersion != "" then d.apiVersion == e.apiVersion else d.apiVersion == "v1")
    && d.version == e.version
  }

  /** Exactly the slots that validate once completed are left. */
  lemma {:induction false} CleanedMembers(key: string, valid: Entry -> bool, slots: seq<Slot>, x: Slot)
    ensures x in Cleaned(key, valid, slots) <==>
      && x.Present? && valid(x.entry)
      && exists i :: 0 <= i < |slots| && slots[i].Present? && Completes(key, slots[i].entry, x.entry)
  {
    if slots != [] {
      CleanedMembers(key, valid, slots[1..], x);
      assert forall i :: 1 <= i < |slots| ==> slots[i] == slots[1..][i-1];
    }
  }
}
