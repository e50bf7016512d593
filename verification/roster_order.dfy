/** The ordering the member list applies to participants: typing first,
    then presence, then the participant's own order; plus the filtering and
    sorting of sequences that the list is built from. */
module RosterOrder {
  import opened Options

  /** What the comparator looks at for one participant: whether an input
      activity is known for it, the status of its user presence when it has
      one, and its position under the participant type's own `<`. */
  datatype SortKey = SortKey(typing: bool, status: Option<int>, order: int)

  /** The closure handed to `sorted(by:)`: true when `a` goes before `b`. */
  predicate Before(a: SortKey, b: SortKey)
  {
    if a.typing && !b.typing then true
    else if b.typing && !a.typing then false
    else if a.status.Some? && b.status.Some? then a.status.value > b.status.value
    else if a.status.Some? then true
    else if b.status.Some? then false
    else a.order < b.order
  }

  /** Reference ranking: typing ranks 0, otherwise 1; having a presence
      ranks 0, otherwise 1; then the negated status, or the own order when
      there is no presence to compare. */
  function Rank(k: SortKey): (int, int, int)
  {
    (if k.typing then 0 else 1,
     if k.status.Some? then 0 else 1,
     if k.status.Some? then -k.status.value else k.order)
  }

  /** Strict lexicographic order on triples. */
  predicate LexLess(x: (int, int, int), y: (int, int, int))
  {
    x.0 < y.0 || (x.0 == y.0 && (x.1 < y.1 || (x.1 == y.1 && x.2 < y.2)))
  }

  /** The comparator is exactly the lexicographic order of the ranks. */
  lemma BeforeIsLexicographic(a: SortKey, b: SortKey)
    ensures Before(a, b) <==> LexLess(Rank(a), Rank(b))
  {
  }

  /** The comparator is a strict weak ordering, which is what `sorted(by:)`
      demands of its argument: irreflexive, asymmetric, transitive, and its
      negation ("not after") is transitive too. */
  lemma BeforeIsStrictWeakOrder(a: SortKey, b: SortKey, c: SortKey)
    ensures !Before(a, a)
    ensures Before(a, b) ==> !Before(b, a)
    ensures Before(a, b) && Before(b, c) ==> Before(a, c)
    ensures !Before(b, a) && !Before(c, b) ==> !Before(c, a)
  {
    BeforeIsLexicographic(a, a);
    BeforeIsLexicographic(a, b);
    BeforeIsLexicographic(b, a);
    BeforeIsLexicographic(b, c);
    BeforeIsLexicographic(c, b);
    BeforeIsLexicographic(a, c);
    BeforeIsLexicographic(c, a);
  }

  /** No element of `s` goes before an element that precedes it. */
  predicate SortedBy<T>(s: seq<T>, key: T -> SortKey)
  {
    forall i, j | 0 <= i < j < |s| :: !Before(key(s[j]), key(s[i]))
  }

  /** `filter(keep)`: the elements that satisfy `keep`, in their order. */
  function Filter<T(!new)>(s: seq<T>, keep: T -> bool): (r: seq<T>)
    ensures forall x :: multiset(r)[x] == (if keep(x) then multiset(s)[x] else 0)
    ensures forall i | 0 <= i < |r| :: keep(r[i])
  {
    if |s| == 0 then []
    else
      assert s == [s[0]] + s[1..];
      (if keep(s[0]) then [s[0]] else []) + Filter(s[1..], keep)
  }

  /** Two filters whose conditions agree on every element keep the same
      elements. */
  lemma {:induction false} FilterCongruent<T(!new)>(s: seq<T>, keep1: T -> bool, keep2: T -> bool)
    requires forall x | x in s :: keep1(x) == keep2(x)
    ensures Filter(s, keep1) == Filter(s, keep2)
  {
    if |s| > 0 {
      FilterCongruent(s[1..], keep1, keep2);
    }
  }

  lemma SortedTail<T>(s: seq<T>, key: T -> SortKey)
    requires |s| > 0 && SortedBy(s, key)
    ensures SortedBy(s[1..], key)
  {
    forall i, j | 0 <= i < j < |s| - 1
      ensures !Before(key(s[1..][j]), key(s[1..][i]))
    {
      assert s[1..][j] == s[j + 1] && s[1..][i] == s[i + 1];
    }
  }

  /** Putting `x` in front of a sorted sequence whose head does not go
      before `x` keeps it sorted. */
  lemma InsertFrontSorted<T>(x: T, s: seq<T>, key: T -> SortKey)
    requires SortedBy(s, key)
    requires |s| > 0 ==> !Before(key(s[0]), key(x))
    ensures SortedBy([x] + s, key)
  {
    var r := [x] + s;
    forall i, j | 0 <= i < j < |r|
      ensures !Before(key(r[j]), key(r[i]))
    {
      if i == 0 {
        assert r[j] == s[j - 1];
        if j - 1 > 0 {
          assert !Before(key(s[j - 1]), key(s[0]));
        }
        BeforeIsStrictWeakOrder(key(x), key(s[0]), key(s[j - 1]));
      } else {
        assert r[i] == s[i - 1] && r[j] == s[j - 1];
      }
    }
  }

  /** Putting `h` in front of a sorted rearrangement of `tail` plus `x`,
      where `h` goes before `x` and before nothing in `tail` it should not,
      keeps the sequence sorted. */
  lemma InsertAfterHeadSorted<T>(h: T, x: T, tail: seq<T>, rest: seq<T>, key: T -> SortKey)
    requires SortedBy([h] + tail, key)
    requires Before(key(h), key(x))
    requires multiset(rest) == multiset(tail) + multiset{x}
    requires SortedBy(rest, key)
    ensures SortedBy([h] + rest, key)
  {
    var r := [h] + rest;
    forall i, j | 0 <= i < j < |r|
      ensures !Before(key(r[j]), key(r[i]))
    {
      if i == 0 {
        var y := rest[j - 1];
        assert r[j] == y;
        assert y in multiset(rest);
        if y == x {
          BeforeIsStrictWeakOrder(key(h), key(x), key(x));
        } else {
          assert y in multiset(tail);
          var k :| 0 <= k < |tail| && tail[k] == y;
          assert ([h] + tail)[k + 1] == y && ([h] + tail)[0] == h;
          assert !Before(key(([h] + tail)[k + 1]), key(([h] + tail)[0]));
        }
      } else {
        assert r[i] == rest[i - 1] && r[j] == rest[j - 1];
      }
    }
  }

  /** Inserts `x` into a sorted sequence after every element that goes
      before it and before all the others. */
  function Insert<T>(x: T, s: seq<T>, key: T -> SortKey): (r: seq<T>)
    requires SortedBy(s, key)
    ensures multiset(r) == multiset(s) + multiset{x}
    ensures SortedBy(r, key)
    decreases |s|
  {
    if |s| == 0 then [x]
    else if Before(key(s[0]), key(x)) then
      assert s == [s[0]] + s[1..];
      SortedTail(s, key);
      var rest := Insert(x, s[1..], key);
      InsertAfterHeadSorted(s[0], x, s[1..], rest, key);
      [s[0]] + rest
    else
      InsertFrontSorted(x, s, key);
      [x] + s
  }

  /** `sorted(by:)` with the comparator `Before` applied to the keys: a
      rearrangement of `s` in which no element goes before an earlier one. */
  function SortBy<T>(s: seq<T>, key: T -> SortKey): (r: seq<T>)
    ensures multiset(r) == multiset(s)
    ensures SortedBy(r, key)
  {
    if |s| == 0 then []
    else
      assert s == [s[0]] + s[1..];
      Insert(s[0], SortBy(s[1..], key), key)
  }

  /** What sortedness means for the three criteria, for any two positions
      `i < j` of a sorted sequence: a typing participant never follows a
      silent one; with equal typing, a participant with a presence never
      follows one without, and presences appear by non-increasing status;
      with equal typing and no presence on either side, own order is
      non-decreasing. */
  lemma SortedCriteria<T>(s: seq<T>, key: T -> SortKey, i: int, j: int)
    requires SortedBy(s, key)
    requires 0 <= i < j < |s|
    ensures key(s[j]).typing ==> key(s[i]).typing
    ensures key(s[i]).typing == key(s[j]).typing && key(s[j]).status.Some? ==>
              key(s[i]).status.Some? && key(s[i]).status.value >= key(s[j]).status.value
    ensures key(s[i]).typing == key(s[j]).typing && key(s[i]).status.None? && key(s[j]).status.None? ==>
              key(s[i]).order <= key(s[j]).order
  {
    assert !Before(key(s[j]), key(s[i]));
  }
}
