/**
 * The array operations the repository performs on a loaded collection, written
 * once for both record kinds: `findIndex` and `find` by id, the in-place field
 * overwrite of the first match, and the `filter` that drops an id. The key is
 * the parsed id argument; `None` (NaN) matches no record.
 */
module Collection {
  import opened Wrappers
  import opened Entities

  /** The record's id is strictly equal to the parsed key. */
  predicate HasId<F>(e: Entity<F>, key: Option<int>) {
    key == Some(e.id)
  }

  /** Some record of `s` has the id `key`. */
  predicate Contains<F>(s: seq<Entity<F>>, key: Option<int>) {
    exists i :: 0 <= i < |s| && HasId(s[i], key)
  }

  /** `findIndex`: the index of the first record with id `key`, if any. */
  function IndexOfFirst<F>(s: seq<Entity<F>>, key: Option<int>): (r: Option<nat>)
    ensures r.Some? ==> r.value < |s| && HasId(s[r.value], key)
    ensures r.Some? ==> forall j :: 0 <= j < r.value ==> !HasId(s[j], key)
    ensures r.None? <==> forall j :: 0 <= j < |s| ==> !HasId(s[j], key)
  {
    if s == [] then None
    else if HasId(s[0], key) then Some(0)
    else
      match IndexOfFirst(s[1..], key)
      case None => None
      case Some(i) => Some(i + 1)
  }

  /** `find`: the first record with id `key`, if any. */
  function FindFirst<F>(s: seq<Entity<F>>, key: Option<int>): (r: Option<Entity<F>>)
    ensures r.None? <==> !Contains(s, key)
    ensures r.Some? ==> HasId(r.value, key)
    ensures r.Some? ==> exists i :: 0 <= i < |s| && s[i] == r.value && forall j :: 0 <= j < i ==> !HasId(s[j], key)
  {
    match IndexOfFirst(s, key)
    case None => None
    case Some(i) => Some(s[i])
  }

  /**
   * The collection after overwriting the mutable fields of the first record
   * with id `key` by `f`; the collection itself when no record has that id.
   */
  function UpdateFirst<F>(s: seq<Entity<F>>, key: Option<int>, f: F): (r: seq<Entity<F>>)
    ensures |r| == |s|
    ensures forall j :: 0 <= j < |s| ==> r[j].id == s[j].id
    ensures !Contains(s, key) ==> r == s
    ensures IndexOfFirst(s, key).Some? ==>
      var i := IndexOfFirst(s, key).value;
      r[i].fields == f && forall j :: 0 <= j < |s| && j != i ==> r[j] == s[j]
  {
    match IndexOfFirst(s, key)
    case None => s
    case Some(i) => s[i := s[i].(fields := f)]
  }

  /** `filter` by `id !== key`: the records whose id differs from `key`. */
  function RemoveId<F>(s: seq<Entity<F>>, key: Option<int>): (r: seq<Entity<F>>)
    ensures |r| <= |s|
    ensures forall j :: 0 <= j < |r| ==> !HasId(r[j], key)
    ensures forall j :: 0 <= j < |r| ==> r[j] in s
    ensures forall j :: 0 <= j < |s| && !HasId(s[j], key) ==> s[j] in r
    ensures r == s <==> !Contains(s, key)
  {
    if s == [] then []
    else
      var tail := RemoveId(s[1..], key);
      assert forall j :: 1 <= j < |s| ==> s[j] == s[1..][j - 1];
      if HasId(s[0], key) then tail else [s[0]] + tail
  }

  /** Filtering a concatenation filters each part and keeps their order. */
  lemma {:induction false} RemoveIdAppend<F>(s: seq<Entity<F>>, t: seq<Entity<F>>, key: Option<int>)
    ensures RemoveId(s + t, key) == RemoveId(s, key) + RemoveId(t, key)
  {
    if s == [] {
      assert s + t == t;
    } else {
      assert (s + t)[1..] == s[1..] + t;
      RemoveIdAppend(s[1..], t, key);
    }
  }

  /** Deleting twice is deleting once. */
  lemma RemoveIdIdempotent<F>(s: seq<Entity<F>>, key: Option<int>)
    ensures RemoveId(RemoveId(s, key), key) == RemoveId(s, key)
  {
  }

  /** Deleting an id keeps ids unique. */
  lemma {:induction false} RemoveIdKeepsUniqueIds<F>(s: seq<Entity<F>>, key: Option<int>)
    requires UniqueIds(s)
    ensures UniqueIds(RemoveId(s, key))
  {
    if s != [] {
      RemoveIdKeepsUniqueIds(s[1..], key);
      var tail := RemoveId(s[1..], key);
      forall j | 0 <= j < |tail|
        ensures tail[j].id != s[0].id
      {
        var k :| 0 <= k < |s[1..]| && s[1..][k] == tail[j];
        assert s[k + 1] == tail[j];
      }
    }
  }

  /**
   * Appending a record whose id exceeds every id already present (a later
   * clock reading) keeps ids unique; without that premise the source gives no
   * such guarantee.
   */
  lemma AppendKeepsUniqueIds<F>(s: seq<Entity<F>>, e: Entity<F>)
    requires UniqueIds(s)
    requires forall j :: 0 <= j < |s| ==> s[j].id < e.id
    ensures UniqueIds(s + [e])
  {
  }

  /** Overwriting fields keeps ids unique, since every id stays where it was. */
  lemma UpdateKeepsUniqueIds<F>(s: seq<Entity<F>>, key: Option<int>, f: F)
    requires UniqueIds(s)
    ensures UniqueIds(UpdateFirst(s, key, f))
  {
  }

  /** Looking up after an append finds an earlier match first, else the new record. */
  lemma {:induction false} FindAfterAppend<F>(s: seq<Entity<F>>, e: Entity<F>, key: Option<int>)
    ensures FindFirst(s + [e], key) ==
      if Contains(s, key) then FindFirst(s, key)
      else if HasId(e, key) then Some(e) else None
  {
    var t := s + [e];
    assert forall j :: 0 <= j < |s| ==> t[j] == s[j];
    if Contains(s, key) {
      var i := IndexOfFirst(s, key).value;
      IndexOfFirstIs(t, key, i);
    } else if HasId(e, key) {
      IndexOfFirstIs(t, key, |s|);
    }
  }

  /** An index that matches with no earlier match is what `findIndex` returns. */
  lemma IndexOfFirstIs<F>(s: seq<Entity<F>>, key: Option<int>, i: nat)
    requires i < |s| && HasId(s[i], key)
    requires forall j :: 0 <= j < i ==> !HasId(s[j], key)
    ensures IndexOfFirst(s, key) == Some(i)
  {
  }

  /** After an update, lookup by the same id sees the first match with its new fields. */
  lemma FindAfterUpdate<F>(s: seq<Entity<F>>, key: Option<int>, f: F)
    ensures FindFirst(UpdateFirst(s, key, f), key) ==
      match FindFirst(s, key)
      case None => None
      case Some(e) => Some(e.(fields := f))
  {
    var t := UpdateFirst(s, key, f);
    if Contains(s, key) {
      var i := IndexOfFirst(s, key).value;
      forall j | 0 <= j < i ensures !HasId(t[j], key) {
        assert t[j].id == s[j].id;
      }
      IndexOfFirstIs(t, key, i);
    }
  }

  /** Deleting the id of the one record just appended to a collection without it restores the collection. */
  lemma RemoveAppended<F>(s: seq<Entity<F>>, e: Entity<F>)
    requires !Contains(s, Some(e.id))
    ensures RemoveId(s + [e], Some(e.id)) == s
  {
    RemoveIdAppend(s, [e], Some(e.id));
  }
}
