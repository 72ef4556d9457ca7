/** The values that services and repositories hand to each other. */
module Domain {

  /** An instant; wall-clock readings are parameters of the operations that take them. */
  type Time = int

  /** Pass status codes. The draft code is also the literal `status = 0` of the
      repository's queries, and the repository's own `Delete` writes the literal 1. */
  const StatusDraft: int := 0
  const StatusFormed: int := 1
  const StatusReject: int := 2
  const StatusCompleted: int := 3
  const StatusDeleted: int := 4

  /** A building as the catalogue returns it. */
  datatype Building = Building(id: string, name: string, description: string, imgUrl: string)

  /** One building of a pass, with the pass holder's comment. */
  datatype PassItem = PassItem(building: Building, comment: string)

  /** A pass as the repositories return it; each lookup fills only some fields and
      leaves the rest at their zero values. */
  datatype PassModel = PassModel(
    id: string,
    status: int,
    creatorId: string,
    items: seq<PassItem>,
    visitorName: string,
    dateVisit: Time)
}

/** Substring search on code-point strings, the meaning of both `strings.Contains`
    and `LIKE '%p%'` for a pattern without wildcard characters. */
module Strings {

  predicate IsPrefix(p: string, s: string) {
    |p| <= |s| && s[..|p|] == p
  }

  /** `sub` occurs somewhere in `s`. */
  predicate Contains(s: string, sub: string)
    decreases |s|
  {
    IsPrefix(sub, s) || (|s| > 0 && Contains(s[1..], sub))
  }

  /** `sub` is the slice of `s` that starts at offset `i`. */
  predicate OccursAt(s: string, sub: string, i: int) {
    0 <= i <= |s| - |sub| && s[i..i + |sub|] == sub
  }

  /** The recursive definition is the usual one: `sub` is the slice of `s` at some offset. */
  lemma {:induction false} ContainsAt(s: string, sub: string)
    ensures Contains(s, sub) <==> exists i :: OccursAt(s, sub, i)
    decreases |s|
  {
    if IsPrefix(sub, s) {
      assert OccursAt(s, sub, 0);
    } else if |s| == 0 {
      forall i ensures !OccursAt(s, sub, i) {
      }
    } else {
      ContainsAt(s[1..], sub);
      if Contains(s[1..], sub) {
        var i :| OccursAt(s[1..], sub, i);
        SliceOfTail(s, i, |sub|);
        assert OccursAt(s, sub, i + 1);
      } else {
        forall i ensures !OccursAt(s, sub, i) {
          if i == 0 && |sub| <= |s| {
            assert s[0..|sub|] == s[..|sub|];
          } else if 0 < i <= |s| - |sub| {
            SliceOfTail(s, i - 1, |sub|);
            assert !OccursAt(s[1..], sub, i - 1);
          }
        }
      }
    }
  }

  /** A slice of the tail is the slice of the string one place further on. */
  lemma SliceOfTail(s: string, i: nat, n: nat)
    requires |s| > 0 && i + n <= |s| - 1
    ensures s[1..][i..i + n] == s[i + 1..i + 1 + n]
  {
    var t := s[1..][i..i + n];
    assert forall k :: 0 <= k < n ==> t[k] == s[i + 1 + k];
  }

  /** Every string contains the empty string. */
  lemma ContainsEmpty(s: string)
    ensures Contains(s, "")
  {
    assert IsPrefix("", s);
  }
}
