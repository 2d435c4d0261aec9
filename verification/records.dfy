/** The collection operations both the screens and the storage service perform
    on a sequence of records identified by a string `id`. */
module Records {
  import opened Wrappers
  import Lists

  /** No two records share an id. */
  predicate UniqueIds<T>(s: seq<T>, id: T -> string) {
    forall i, j :: 0 <= i < j < |s| ==> id(s[i]) != id(s[j])
  }

  predicate HasId<T>(s: seq<T>, key: string, id: T -> string) {
    exists i :: 0 <= i < |s| && id(s[i]) == key
  }

  /** `after` is `before` with every record carrying `updated`'s id replaced by
      it and every other record left in place. */
  predicate Replaced<T(==)>(before: seq<T>, after: seq<T>, updated: T, id: T -> string) {
    && |after| == |before|
    && (forall i :: 0 <= i < |before| && id(before[i]) == id(updated) ==> after[i] == updated)
    && (forall i :: 0 <= i < |before| && id(before[i]) != id(updated) ==> after[i] == before[i])
  }

  /** `prev.map(r => r.id === updated.id ? updated : r)`. */
  function ReplaceMatching<T>(s: seq<T>, updated: T, id: T -> string): (r: seq<T>)
    ensures Replaced(s, r, updated, id)
  {
    seq(|s|, i requires 0 <= i < |s| => if id(s[i]) == id(updated) then updated else s[i])
  }

  /** Updating with an id nobody has changes nothing. */
  lemma ReplaceAbsent<T>(s: seq<T>, updated: T, id: T -> string)
    requires !HasId(s, id(updated), id)
    ensures ReplaceMatching(s, updated, id) == s
  {
  }

  /** Applying the same update twice is applying it once. */
  lemma ReplaceIdempotent<T>(s: seq<T>, updated: T, id: T -> string)
    ensures ReplaceMatching(ReplaceMatching(s, updated, id), updated, id) == ReplaceMatching(s, updated, id)
  {
  }

  /** `after` holds exactly the records of `before` whose id is not `key`. */
  predicate Removed<T(==)>(before: seq<T>, after: seq<T>, key: string, id: T -> string) {
    && (forall i :: 0 <= i < |after| ==> after[i] in before && id(after[i]) != key)
    && (forall i :: 0 <= i < |before| && id(before[i]) != key ==> before[i] in after)
  }

  /** `prev.filter(r => r.id !== key)`. */
  function RemoveMatching<T(!new)>(s: seq<T>, key: string, id: T -> string): (r: seq<T>)
    ensures Removed(s, r, key, id)
    ensures !HasId(r, key, id)
    ensures |r| <= |s|
  {
    Lists.Filter(s, x => id(x) != key)
  }

  /** Removal keeps the others in their order: it splits over concatenation. */
  lemma RemoveConcat<T(!new)>(a: seq<T>, b: seq<T>, key: string, id: T -> string)
    ensures RemoveMatching(a + b, key, id) == RemoveMatching(a, key, id) + RemoveMatching(b, key, id)
  {
    Lists.FilterConcat(a, b, x => id(x) != key);
  }

  /** Removing an id nobody has changes nothing. */
  lemma RemoveAbsent<T(!new)>(s: seq<T>, key: string, id: T -> string)
    requires !HasId(s, key, id)
    ensures RemoveMatching(s, key, id) == s
  {
    Lists.FilterAll(s, x => id(x) != key);
  }

  /** `findIndex(r => r.id === key)`: the first position holding the id, or -1. */
  function FindIndex<T>(s: seq<T>, key: string, id: T -> string): (i: int)
    ensures -1 <= i < |s|
    ensures i == -1 <==> !HasId(s, key, id)
    ensures 0 <= i ==> id(s[i]) == key && forall k :: 0 <= k < i ==> id(s[k]) != key
  {
    if s == [] then -1
    else if id(s[0]) == key then 0
    else
      var j := FindIndex(s[1..], key, id);
      assert forall k :: 1 <= k < |s| ==> s[k] == s[1..][k - 1];
      if j == -1 then -1 else j + 1
  }

  /** The storage service's update: the first record with the id is replaced;
      without one the update fails and nothing is written. */
  function ReplaceFirst<T>(s: seq<T>, updated: T, id: T -> string): (r: Option<seq<T>>)
    ensures r.None? <==> !HasId(s, id(updated), id)
    ensures r.Some? ==> |r.value| == |s|
    ensures r.Some? ==>
      var i := FindIndex(s, id(updated), id);
      && r.value[i] == updated
      && (forall k :: 0 <= k < |s| && k != i ==> r.value[k] == s[k])
  {
    var i := FindIndex(s, id(updated), id);
    if i == -1 then None else Some(s[i := updated])
  }

  /** When ids are unique the service's first-match update and the screens'
      replace-all update agree. */
  lemma ReplaceFirstAgrees<T>(s: seq<T>, updated: T, id: T -> string)
    requires UniqueIds(s, id) && HasId(s, id(updated), id)
    ensures ReplaceFirst(s, updated, id) == Some(ReplaceMatching(s, updated, id))
  {
    var i := FindIndex(s, id(updated), id);
    var a, b := s[i := updated], ReplaceMatching(s, updated, id);
    forall k | 0 <= k < |s|
      ensures a[k] == b[k]
    {
      if k != i {
        assert id(s[k]) != id(updated) by {
          if k > i {
            assert id(s[i]) != id(s[k]);
          }
        }
      }
    }
    assert a == b;
  }

  /** With a duplicated id the two updates differ: the service replaces only
      the first copy. */
  lemma ReplaceFirstLeavesLaterCopies<T>(s: seq<T>, updated: T, id: T -> string, j: int)
    requires 0 <= j < |s| && id(s[j]) == id(updated) && s[j] != updated
    requires FindIndex(s, id(updated), id) < j
    ensures ReplaceFirst(s, updated, id).value[j] == s[j]
    ensures ReplaceMatching(s, updated, id)[j] == updated
  {
  }
}
