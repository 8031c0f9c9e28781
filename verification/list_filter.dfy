/**
 * The dashboard's filter effect: the list shown is the cached participants,
 * narrowed first by a case-insensitive substring search on name or serial
 * number, then by an exact position match; an empty criterion is skipped.
 * Case folding is modelled on ASCII letters only.
 */
module ListFilter {
  import opened Participants

  function LowerChar(c: char): char
  {
    if 'A' <= c <= 'Z' then (c as int + 32) as char else c
  }

  /** `toLowerCase`, restricted to ASCII. */
  function Lower(s: string): (r: string)
    ensures |r| == |s|
    ensures forall i :: 0 <= i < |r| ==> !('A' <= r[i] <= 'Z')
    ensures forall i :: 0 <= i < |s| && !('A' <= s[i] <= 'Z') ==> r[i] == s[i]
    ensures forall i :: 0 <= i < |s| && 'A' <= s[i] <= 'Z' ==> r[i] == (s[i] as int + 32) as char
  {
    seq(|s|, i requires 0 <= i < |s| => LowerChar(s[i]))
  }

  /** Lower-casing twice is lower-casing once. */
  lemma LowerIdempotent(s: string)
    ensures Lower(Lower(s)) == Lower(s)
  {
  }

  /** `hay.includes(needle)`: `needle` is a prefix of some suffix of `hay`. */
  predicate Contains(hay: string, needle: string)
    ensures needle == [] ==> Contains(hay, needle)
    ensures Contains(hay, needle) ==> |needle| <= |hay|
    decreases |hay|
  {
    needle <= hay || (hay != [] && Contains(hay[1..], needle))
  }

  /** A needle found at position `i` of the haystack is contained in it. */
  lemma {:induction false} ContainsAt(hay: string, needle: string, i: nat)
    requires i + |needle| <= |hay| && hay[i..i + |needle|] == needle
    ensures Contains(hay, needle)
    decreases i
  {
    if i == 0 {
      assert needle <= hay;
    } else {
      assert hay[1..][i - 1..i - 1 + |needle|] == needle;
      ContainsAt(hay[1..], needle, i - 1);
    }
  }

  /** A contained needle occurs at some position of the haystack. */
  lemma {:induction false} ContainsPosition(hay: string, needle: string) returns (i: nat)
    requires Contains(hay, needle)
    ensures i + |needle| <= |hay| && hay[i..i + |needle|] == needle
    decreases |hay|
  {
    if needle <= hay {
      i := 0;
    } else {
      var j := ContainsPosition(hay[1..], needle);
      i := j + 1;
      assert hay[i..i + |needle|] == hay[1..][j..j + |needle|];
    }
  }

  /** The search predicate: name or serial number contains the term, ignoring case. */
  predicate MatchesSearch(p: Participant, term: string)
    ensures term == "" ==> MatchesSearch(p, term)
    ensures MatchesSearch(p, term) ==> |term| <= |p.name| || |term| <= |p.serialNumber|
  {
    Contains(Lower(p.name), Lower(term)) || Contains(Lower(p.serialNumber), Lower(term))
  }

  /** The search ignores the case of the term. */
  lemma SearchIgnoresTermCase(p: Participant, term: string)
    ensures MatchesSearch(p, Lower(term)) == MatchesSearch(p, term)
  {
    LowerIdempotent(term);
  }

  /** Order-preserving subsequence: `xs` is `ys` with some elements dropped. */
  predicate IsSubsequence<T(==)>(xs: seq<T>, ys: seq<T>)
    decreases |ys|
  {
    xs == [] ||
    (ys != [] &&
     ((xs[0] == ys[0] && IsSubsequence(xs[1..], ys[1..])) || IsSubsequence(xs, ys[1..])))
  }

  /** `Array.prototype.filter`: the elements that pass `keep`, in their original order. */
  function Keep(ps: seq<Participant>, keep: Participant -> bool): (r: seq<Participant>)
    ensures |r| <= |ps|
    ensures IsSubsequence(r, ps)
    ensures forall x :: x in r <==> x in ps && keep(x)
    ensures forall x :: multiset(r)[x] == if keep(x) then multiset(ps)[x] else 0
  {
    if ps == [] then []
    else
      assert ps == [ps[0]] + ps[1..];
      if keep(ps[0]) then [ps[0]] + Keep(ps[1..], keep)
      else Keep(ps[1..], keep)
  }

  /** What the filter admits: both criteria, each one vacuous when its string is empty. */
  predicate Admits(p: Participant, searchTerm: string, filterPosition: string)
    ensures searchTerm == "" && filterPosition == "" ==> Admits(p, searchTerm, filterPosition)
    ensures Admits(p, searchTerm, filterPosition) && searchTerm != "" ==> MatchesSearch(p, searchTerm)
    ensures Admits(p, searchTerm, filterPosition) && filterPosition != "" ==> p.position == filterPosition
  {
    (searchTerm == "" || MatchesSearch(p, searchTerm)) &&
    (filterPosition == "" || p.position == filterPosition)
  }

  /** The two chained `filter` calls of the effect, each applied only when its criterion is set. */
  function Filter(participants: seq<Participant>, searchTerm: string, filterPosition: string): (r: seq<Participant>)
    ensures |r| <= |participants|
    ensures forall x :: x in r ==> x in participants && Admits(x, searchTerm, filterPosition)
  {
    var bySearch :=
      if searchTerm != "" then Keep(participants, p => MatchesSearch(p, searchTerm))
      else participants;
    if filterPosition != "" then Keep(bySearch, (p: Participant) => p.position == filterPosition)
    else bySearch
  }

  // ---------------------------------------------------------------------------
  // Properties of Keep
  // ---------------------------------------------------------------------------

  lemma {:induction false} KeepCongruent(ps: seq<Participant>, a: Participant -> bool, b: Participant -> bool)
    requires forall x :: a(x) == b(x)
    ensures Keep(ps, a) == Keep(ps, b)
  {
    if ps != [] {
      KeepCongruent(ps[1..], a, b);
    }
  }

  lemma {:induction false} KeepAll(ps: seq<Participant>, keep: Participant -> bool)
    requires forall x :: keep(x)
    ensures Keep(ps, keep) == ps
  {
    if ps != [] {
      KeepAll(ps[1..], keep);
      assert ps == [ps[0]] + ps[1..];
    }
  }

  /** Filtering by `a` and then by `b` is one filter by their conjunction. */
  lemma {:induction false} KeepKeep(ps: seq<Participant>, a: Participant -> bool, b: Participant -> bool, both: Participant -> bool)
    requires forall x :: both(x) == (a(x) && b(x))
    ensures Keep(Keep(ps, a), b) == Keep(ps, both)
  {
    if ps != [] {
      KeepKeep(ps[1..], a, b, both);
      if a(ps[0]) {
        assert Keep(ps, a) == [ps[0]] + Keep(ps[1..], a);
        assert (Keep(ps, a))[1..] == Keep(ps[1..], a);
      }
    }
  }

  // ---------------------------------------------------------------------------
  // Properties of the filter
  // ---------------------------------------------------------------------------

  /** The two chained filters are a single pass keeping exactly the admitted records. */
  lemma FilterSinglePass(ps: seq<Participant>, searchTerm: string, filterPosition: string)
    ensures Filter(ps, searchTerm, filterPosition) == Keep(ps, p => Admits(p, searchTerm, filterPosition))
  {
    var admits := p => Admits(p, searchTerm, filterPosition);
    var search := p => MatchesSearch(p, searchTerm);
    var position := (p: Participant) => p.position == filterPosition;
    if searchTerm != "" && filterPosition != "" {
      KeepKeep(ps, search, position, admits);
    } else if searchTerm != "" {
      KeepCongruent(ps, search, admits);
    } else if filterPosition != "" {
      KeepCongruent(ps, position, admits);
    } else {
      KeepAll(ps, admits);
    }
  }

  /** The shown list is an order-preserving subsequence of the cached list. */
  lemma FilterSubsequence(ps: seq<Participant>, searchTerm: string, filterPosition: string)
    ensures IsSubsequence(Filter(ps, searchTerm, filterPosition), ps)
  {
    FilterSinglePass(ps, searchTerm, filterPosition);
  }

  /**
   * Every shown record meets both criteria, and every cached record that
   * meets them is shown, as many times as it is cached.
   */
  lemma FilterExact(ps: seq<Participant>, searchTerm: string, filterPosition: string)
    ensures forall x :: x in Filter(ps, searchTerm, filterPosition) <==>
                        x in ps && Admits(x, searchTerm, filterPosition)
    ensures forall x :: multiset(Filter(ps, searchTerm, filterPosition))[x] ==
                        if Admits(x, searchTerm, filterPosition) then multiset(ps)[x] else 0
  {
    FilterSinglePass(ps, searchTerm, filterPosition);
  }

  /** With no search term and no position, the whole cached list is shown. */
  lemma FilterNoCriteria(ps: seq<Participant>)
    ensures Filter(ps, "", "") == ps
  {
  }

  /** Recomputing the filter over its own output changes nothing. */
  lemma FilterIdempotent(ps: seq<Participant>, searchTerm: string, filterPosition: string)
    ensures Filter(Filter(ps, searchTerm, filterPosition), searchTerm, filterPosition) ==
            Filter(ps, searchTerm, filterPosition)
  {
    var admits := p => Admits(p, searchTerm, filterPosition);
    var once := Filter(ps, searchTerm, filterPosition);
    FilterSinglePass(ps, searchTerm, filterPosition);
    FilterSinglePass(once, searchTerm, filterPosition);
    KeepKeep(ps, admits, admits, admits);
  }
}
