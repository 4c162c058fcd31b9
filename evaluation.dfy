// Five-card scoring, hand comparison and the best-hand search of the Eight Cards Poker engine.

module Evaluation {
  import opened Cards
  import opened Options

  /** A hand's score: its category (0 high card, 1 pair, 2 two pair, 3 three of a kind,
      4 straight, 5 flush, 6 full house, 7 four of a kind, 8 straight flush) and a
      category-specific tiebreak. */
  datatype Score = Score(rank: int, value: int)

  /** The score reported when there is no hand to evaluate; every real hand beats it. */
  const NO_HAND: Score := Score(0, 0)

  // ---------------------------------------------------------------------------
  // Sorting rank values

  predicate Descending(s: seq<int>) {
    forall i, j :: 0 <= i < j < |s| ==> s[i] >= s[j]
  }

  predicate StrictlyDescending(s: seq<int>) {
    forall i, j :: 0 <= i < j < |s| ==> s[i] > s[j]
  }

  /** Every entry of r is at most b when r holds the entries of t and x, all at most b. */
  lemma BoundedBy(r: seq<int>, t: seq<int>, x: int, b: int)
    requires multiset(r) == multiset(t) + multiset{x}
    requires x <= b && forall i :: 0 <= i < |t| ==> t[i] <= b
    ensures forall i :: 0 <= i < |r| ==> r[i] <= b
  {
    forall i | 0 <= i < |r| ensures r[i] <= b {
      assert r[i] in multiset(r);
      if r[i] != x {
        assert r[i] in multiset(t);
        var j :| 0 <= j < |t| && t[j] == r[i];
      }
    }
  }

  /** A value at least every entry of a descending sequence can go in front of it. */
  lemma ConsDescending(h: int, t: seq<int>)
    requires Descending(t) && forall i :: 0 <= i < |t| ==> t[i] <= h
    ensures Descending([h] + t)
  {
    forall i, j | 0 <= i < j < |[h] + t| ensures ([h] + t)[i] >= ([h] + t)[j] {
      if i > 0 {
        assert ([h] + t)[i] == t[i - 1];
      }
    }
  }

  function InsertDescending(x: int, s: seq<int>): (r: seq<int>)
    requires Descending(s)
    ensures |r| == |s| + 1
    ensures Descending(r) && multiset(r) == multiset(s) + multiset{x}
  {
    if s == [] || x >= s[0] then
      ConsDescending(x, s);
      [x] + s
    else
      var rest := InsertDescending(x, s[1..]);
      BoundedBy(rest, s[1..], x, s[0]);
      ConsDescending(s[0], rest);
      assert s == [s[0]] + s[1..];
      [s[0]] + rest
  }

  /** The values in descending order, as `sorted(values, reverse=True)` gives them. */
  function SortDescending(s: seq<int>): (r: seq<int>)
    ensures |r| == |s|
    ensures Descending(r) && multiset(r) == multiset(s)
  {
    if s == [] then []
    else
      assert s == [s[0]] + s[1..];
      InsertDescending(s[0], SortDescending(s[1..]))
  }

  /** The distinct values of a descending sequence, still descending. */
  function Uniq(s: seq<int>): (r: seq<int>)
    requires Descending(s)
    ensures StrictlyDescending(r)
    ensures forall v :: v in r <==> v in s
    ensures |r| <= |s| && (|s| > 0 ==> |r| > 0)
  {
    if |s| <= 1 then s
    else if s[0] == s[1] then
      assert forall v :: v in s <==> v in s[1..] by {
        assert s == [s[0]] + s[1..];
      }
      Uniq(s[1..])
    else
      var rest := Uniq(s[1..]);
      assert forall v :: v in s <==> v == s[0] || v in s[1..] by {
        assert s == [s[0]] + s[1..];
      }
      assert forall k :: 0 <= k < |rest| ==> rest[k] < s[0] by {
        forall k | 0 <= k < |rest| ensures rest[k] < s[0] {
          assert rest[k] in s[1..];
        }
      }
      [s[0]] + rest
  }

  /** How many times v occurs in vs. */
  function Count(vs: seq<int>, v: int): nat {
    multiset(vs)[v]
  }

  /** Two different values together occur at most |vs| times. */
  lemma {:induction false} CountTwo(vs: seq<int>, v: int, w: int)
    requires v != w
    ensures Count(vs, v) + Count(vs, w) <= |vs|
  {
    if vs != [] {
      assert vs == [vs[0]] + vs[1..];
      CountTwo(vs[1..], v, w);
    }
  }

  /** Three different values together occur at most |vs| times. */
  lemma {:induction false} CountThree(vs: seq<int>, u: int, v: int, w: int)
    requires u != v && v != w && u != w
    ensures Count(vs, u) + Count(vs, v) + Count(vs, w) <= |vs|
  {
    if vs != [] {
      assert vs == [vs[0]] + vs[1..];
      CountThree(vs[1..], u, v, w);
    }
  }

  // ---------------------------------------------------------------------------
  // Rank groups: (count, value) pairs sorted in descending order

  /** A group is a pair (how many cards, rank value). */
  type Group = (int, int)

  /** Strict descending order on groups: by count, then by value. */
  predicate GroupAbove(a: Group, b: Group) {
    a.0 > b.0 || (a.0 == b.0 && a.1 > b.1)
  }

  predicate GroupsDescending(g: seq<Group>) {
    forall i, j :: 0 <= i < j < |g| ==> GroupAbove(g[i], g[j])
  }

  /** Every entry of r lies below the group b when r holds the entries of t and x, all below b. */
  lemma GroupsBelow(r: seq<Group>, t: seq<Group>, x: Group, b: Group)
    requires multiset(r) == multiset(t) + multiset{x}
    requires GroupAbove(b, x) && forall i :: 0 <= i < |t| ==> GroupAbove(b, t[i])
    ensures forall i :: 0 <= i < |r| ==> GroupAbove(b, r[i])
  {
    forall i | 0 <= i < |r| ensures GroupAbove(b, r[i]) {
      assert r[i] in multiset(r);
      if r[i] != x {
        assert r[i] in multiset(t);
        var j :| 0 <= j < |t| && t[j] == r[i];
      }
    }
  }

  function InsertGroup(x: Group, g: seq<Group>): (r: seq<Group>)
    requires GroupsDescending(g) && x !in g
    ensures GroupsDescending(r) && multiset(r) == multiset(g) + multiset{x}
  {
    if g == [] || GroupAbove(x, g[0]) then [x] + g
    else
      assert g == [g[0]] + g[1..];
      var rest := InsertGroup(x, g[1..]);
      GroupsBelow(rest, g[1..], x, g[0]);
      [g[0]] + rest
  }

  /** Sorts distinct groups in descending order, as `sorted(..., reverse=True)` does. */
  function SortGroups(g: seq<Group>): (r: seq<Group>)
    requires forall i, j :: 0 <= i < j < |g| ==> g[i] != g[j]
    ensures GroupsDescending(r) && multiset(r) == multiset(g)
  {
    if g == [] then []
    else
      var rest := SortGroups(g[1..]);
      assert g == [g[0]] + g[1..];
      assert g[0] !in g[1..];
      assert g[0] !in multiset(rest);
      InsertGroup(g[0], rest)
  }

  /** One group per distinct value of `unique`, counting its occurrences in `vs`. */
  function CountGroups(unique: seq<int>, vs: seq<int>): (r: seq<Group>)
    ensures |r| == |unique|
    ensures forall i :: 0 <= i < |unique| ==> r[i] == (Count(vs, unique[i]), unique[i])
  {
    seq(|unique|, i requires 0 <= i < |unique| => (Count(vs, unique[i]), unique[i]))
  }

  /** The engine's `groups`: each distinct value with its count, largest count first,
      larger value first among equal counts. */
  function Groups(values: seq<int>): seq<Group> {
    var unique := Uniq(SortDescending(values));
    SortGroups(CountGroups(unique, values))
  }

  /** Groups lists every value of `values` once, with its count, in descending order. */
  lemma GroupsFacts(values: seq<int>)
    ensures GroupsDescending(Groups(values))
    ensures forall k :: 0 <= k < |Groups(values)| ==>
      Groups(values)[k].1 in values && Groups(values)[k].0 == Count(values, Groups(values)[k].1)
    ensures forall v :: v in values ==> (Count(values, v), v) in Groups(values)
  {
    var sorted := SortDescending(values);
    assert forall v :: v in sorted <==> v in values by {
      forall v ensures v in sorted <==> v in values {
        assert v in sorted <==> v in multiset(sorted);
      }
    }
    var unique := Uniq(sorted);
    var cg := CountGroups(unique, values);
    var g := Groups(values);
    assert multiset(g) == multiset(cg);
    forall k | 0 <= k < |g|
      ensures g[k].1 in values && g[k].0 == Count(values, g[k].1)
    {
      assert g[k] in multiset(cg);
    }
    forall v | v in values
      ensures (Count(values, v), v) in g
    {
      var i :| 0 <= i < |unique| && unique[i] == v;
      assert cg[i] in multiset(g);
    }
  }

  // ---------------------------------------------------------------------------
  // Straights

  /** The set of values in vs. */
  function ValueSet(vs: seq<int>): set<int> {
    set v | v in vs
  }

  /** The five consecutive values lo .. lo+4. */
  function Span(lo: int): set<int> {
    {lo, lo + 1, lo + 2, lo + 3, lo + 4}
  }

  /** The ace-low straight A-2-3-4-5. */
  const WHEEL: set<int> := {14, 5, 4, 3, 2}

  /** The engine's straight test: at least five distinct values, and either the wheel or
      five distinct values in a row spanning exactly four. */
  function CheckStraight(values: seq<int>): bool {
    var unique := Uniq(SortDescending(values));
    if |unique| < 5 then false
    else if ValueSet(values) == WHEEL then true
    else exists i :: 0 <= i < |unique| - 4 && unique[i] - unique[i + 4] == 4
  }

  /** A strictly descending sequence has as many distinct values as entries. */
  lemma {:induction false} StrictValueSetSize(u: seq<int>)
    requires StrictlyDescending(u)
    ensures |ValueSet(u)| == |u|
  {
    if u != [] {
      StrictValueSetSize(u[1..]);
      assert ValueSet(u) == {u[0]} + ValueSet(u[1..]) by {
        assert u == [u[0]] + u[1..];
      }
      assert u[0] !in ValueSet(u[1..]);
    }
  }

  /** Sorting and removing duplicates keep the set of values. */
  lemma UniqueValues(values: seq<int>)
    ensures ValueSet(Uniq(SortDescending(values))) == ValueSet(values)
    ensures |Uniq(SortDescending(values))| == |ValueSet(values)|
  {
    var sorted := SortDescending(values);
    SortedMembers(values);
    var u := Uniq(sorted);
    assert ValueSet(u) == ValueSet(values) by {
      forall v ensures v in ValueSet(u) <==> v in ValueSet(values) {
        assert v in u <==> v in sorted;
      }
    }
    StrictValueSetSize(u);
  }

  /** Sorting keeps the members. */
  lemma SortedMembers(values: seq<int>)
    ensures forall v :: v in SortDescending(values) <==> v in values
  {
    var sorted := SortDescending(values);
    forall v ensures v in sorted <==> v in values {
      assert v in sorted <==> v in multiset(sorted);
      assert v in values <==> v in multiset(values);
    }
  }

  /** Five strictly descending values span four exactly when they are five in a row. */
  lemma FiveInARow(u: seq<int>)
    requires |u| == 5 && StrictlyDescending(u)
    ensures u[0] - u[4] == 4 <==> exists lo :: ValueSet(u) == Span(lo)
  {
    if u[0] - u[4] == 4 {
      RunIsSpan(u);
    }
    if exists lo :: ValueSet(u) == Span(lo) {
      var lo :| ValueSet(u) == Span(lo);
      SpanIsRun(u, lo);
    }
  }

  lemma RunIsSpan(u: seq<int>)
    requires |u| == 5 && StrictlyDescending(u) && u[0] - u[4] == 4
    ensures ValueSet(u) == Span(u[4])
  {
    assert u[0] > u[1] > u[2] > u[3] > u[4];
    var lo := u[4];
    assert u == [lo + 4, lo + 3, lo + 2, lo + 1, lo];
  }

  lemma SpanIsRun(u: seq<int>, lo: int)
    requires |u| == 5 && StrictlyDescending(u) && ValueSet(u) == Span(lo)
    ensures u[0] - u[4] == 4
  {
    assert lo + 4 in ValueSet(u) && lo in ValueSet(u);
    assert u[0] in ValueSet(u) && u[4] in ValueSet(u);
    var hi :| 0 <= hi < 5 && u[hi] == lo + 4;
    var bottom :| 0 <= bottom < 5 && u[bottom] == lo;
    assert u[0] >= u[hi] && u[bottom] >= u[4];
  }

  /** A sequence takes at most as many values as it has entries. */
  lemma {:induction false} ValueSetBound(vs: seq<int>)
    ensures |ValueSet(vs)| <= |vs|
  {
    if vs != [] {
      ValueSetBound(vs[1..]);
      assert ValueSet(vs) == {vs[0]} + ValueSet(vs[1..]) by {
        assert vs == [vs[0]] + vs[1..];
      }
    }
  }

  /** The wheel and every run of five hold five values. */
  lemma WheelSpanSize()
    ensures |WHEEL| == 5
    ensures forall lo :: |Span(lo)| == 5
  {
  }

  /** Five values form a straight exactly when they are five consecutive values or the wheel. */
  lemma StraightCharacterization(values: seq<int>)
    requires |values| == 5
    ensures CheckStraight(values) <==> (exists lo :: ValueSet(values) == Span(lo)) || ValueSet(values) == WHEEL
  {
    var u := Uniq(SortDescending(values));
    UniqueValues(values);
    ValueSetBound(values);
    if |u| == 5 {
      FiveInARow(u);
      assert CheckStraight(values) <==> ValueSet(values) == WHEEL || u[0] - u[4] == 4;
    } else {
      assert !CheckStraight(values);
      WheelSpanSize();
    }
  }

  // ---------------------------------------------------------------------------
  // Scoring five cards

  /** The rank values of the cards, in the cards' order. */
  function Values(cards: seq<Card>): (vs: seq<int>)
    ensures |vs| == |cards|
    ensures forall i :: 0 <= i < |cards| ==> vs[i] == RankValue(cards[i])
  {
    seq(|cards|, i requires 0 <= i < |cards| => RankValue(cards[i]))
  }

  /** All cards share one suit (`len(set(suits)) == 1`). */
  predicate SameSuit(cards: seq<Card>) {
    |cards| > 0 && forall i :: 0 <= i < |cards| ==> cards[i].suit == cards[0].suit
  }

  /** Five descending values packed as decimal digits of decreasing weight. */
  function Packed(v: seq<int>): int
    requires |v| == 5
  {
    v[0] * 10000 + v[1] * 1000 + v[2] * 100 + v[3] * 10 + v[4]
  }

  /** The engine's five-card evaluation; any other number of cards scores (0, 0). */
  function EvalFive(cards: seq<Card>): (s: Score)
    ensures 0 <= s.rank <= 8
  {
    if |cards| != 5 then NO_HAND
    else
      var values := SortDescending(Values(cards));
      var groups := Groups(values);
      var flush := SameSuit(cards);
      var straight := CheckStraight(values);
      GroupsNonEmpty(values);
      if flush && straight then Score(8, values[0])
      else if groups[0].0 == 4 then Score(7, groups[0].1 * 100)
      else if groups[0].0 == 3 && |groups| >= 2 && groups[1].0 == 2 then Score(6, groups[0].1 * 100 + groups[1].1)
      else if flush then Score(5, Packed(values))
      else if straight then Score(4, values[0])
      else if groups[0].0 == 3 then Score(3, groups[0].1 * 100)
      else if groups[0].0 == 2 && |groups| >= 2 && groups[1].0 == 2 then Score(2, groups[0].1 * 100 + groups[1].1)
      else if groups[0].0 == 2 then Score(1, groups[0].1 * 100)
      else Score(0, Packed(values))
  }

  lemma GroupsNonEmpty(values: seq<int>)
    requires |values| > 0
    ensures |Groups(values)| > 0
  {
    GroupsFacts(values);
    assert (Count(values, values[0]), values[0]) in Groups(values);
  }

  // ---------------------------------------------------------------------------
  // A reference classification by rank counts

  /** Some value occurs exactly n times. */
  ghost predicate HasCount(vs: seq<int>, n: int) {
    exists v :: v in vs && Count(vs, v) == n
  }

  /** Two different values each occur exactly twice. */
  ghost predicate HasTwoPairs(vs: seq<int>) {
    exists v, w :: v in vs && w in vs && v != w && Count(vs, v) == 2 && Count(vs, w) == 2
  }

  /** The poker category of five cards, read off the rank counts, the suits and the straight test. */
  ghost function Category(vs: seq<int>, flush: bool, straight: bool): int {
    if flush && straight then 8
    else if HasCount(vs, 4) then 7
    else if HasCount(vs, 3) && HasCount(vs, 2) then 6
    else if flush then 5
    else if straight then 4
    else if HasCount(vs, 3) then 3
    else if HasTwoPairs(vs) then 2
    else if HasCount(vs, 2) then 1
    else 0
  }

  /** What the engine reads from the groups: the first group has the largest count, and
      the second, when there is one, the largest count among the other values. */
  ghost predicate TopTwo(vs: seq<int>, g: seq<Group>) {
    && |g| > 0
    && g[0].1 in vs && g[0].0 == Count(vs, g[0].1)
    && (forall v :: v in vs ==> Count(vs, v) <= g[0].0)
    && (forall v :: v in vs && v != g[0].1 ==> |g| >= 2)
    && (|g| >= 2 ==>
          && g[1].1 in vs && g[1].0 == Count(vs, g[1].1) && g[1].1 != g[0].1
          && GroupAbove(g[0], g[1])
          && forall v :: v in vs && v != g[0].1 ==> Count(vs, v) <= g[1].0)
  }

  lemma GroupsTopTwo(values: seq<int>)
    requires |values| > 0
    ensures TopTwo(values, Groups(values))
  {
    var g := Groups(values);
    GroupsFacts(values);
    GroupsNonEmpty(values);
    forall v | v in values ensures Count(values, v) <= g[0].0 && (v != g[0].1 ==> |g| >= 2) {
      var k :| 0 <= k < |g| && g[k] == (Count(values, v), v);
      if k != 0 { assert GroupAbove(g[0], g[k]); }
    }
    if |g| >= 2 {
      assert GroupAbove(g[0], g[1]);
      forall v | v in values && v != g[0].1 ensures Count(values, v) <= g[1].0 {
        var k :| 0 <= k < |g| && g[k] == (Count(values, v), v);
        if k != 1 { assert GroupAbove(g[1], g[k]); }
      }
    }
  }

  /** Four of a kind and three of a kind show in the first group. */
  lemma TopTwoKinds(vs: seq<int>, g: seq<Group>)
    requires |vs| == 5 && TopTwo(vs, g)
    ensures g[0].0 == 4 <==> HasCount(vs, 4)
    ensures g[0].0 == 3 <==> HasCount(vs, 3)
    ensures forall v :: v in vs && Count(vs, v) >= 3 ==> v == g[0].1
  {
    forall v | v in vs && Count(vs, v) >= 3 ensures v == g[0].1 {
      if v != g[0].1 { CountTwo(vs, v, g[0].1); }
    }
  }

  /** A full house shows in the first two groups. */
  lemma TopTwoFullHouse(vs: seq<int>, g: seq<Group>)
    requires |vs| == 5 && TopTwo(vs, g)
    ensures g[0].0 == 3 && |g| >= 2 && g[1].0 == 2 <==> HasCount(vs, 3) && HasCount(vs, 2)
    ensures g[0].0 == 3 ==> forall p :: p in vs && Count(vs, p) == 2 ==> |g| >= 2 && p == g[1].1
  {
    TopTwoKinds(vs, g);
    if g[0].0 == 3 {
      forall p | p in vs && Count(vs, p) == 2 ensures |g| >= 2 && p == g[1].1 {
        if p != g[1].1 { CountThree(vs, p, g[0].1, g[1].1); }
      }
    }
  }

  /** Two pairs show in the first two groups. */
  lemma TopTwoPairs(vs: seq<int>, g: seq<Group>)
    requires |vs| == 5 && TopTwo(vs, g)
    ensures g[0].0 == 2 && |g| >= 2 && g[1].0 == 2 <==> HasTwoPairs(vs)
    ensures g[0].0 == 2 && |g| >= 2 && g[1].0 == 2 ==> g[0].1 > g[1].1
    ensures g[0].0 == 2 ==> forall p :: p in vs && Count(vs, p) == 2 ==> p == g[0].1 || (|g| >= 2 && p == g[1].1)
  {
    if HasTwoPairs(vs) {
      var v, w :| v in vs && w in vs && v != w && Count(vs, v) == 2 && Count(vs, w) == 2;
      if g[0].0 > 2 && g[0].1 != v && g[0].1 != w { CountThree(vs, g[0].1, v, w); }
    }
    if g[0].0 == 2 {
      forall p | p in vs && Count(vs, p) == 2 ensures p == g[0].1 || (|g| >= 2 && p == g[1].1) {
        if p != g[0].1 && p != g[1].1 { CountThree(vs, p, g[0].1, g[1].1); }
      }
    }
  }

  /** Without three or four of a kind, a pair shows in the first group. */
  lemma TopTwoPair(vs: seq<int>, g: seq<Group>)
    requires |vs| == 5 && TopTwo(vs, g)
    ensures !HasCount(vs, 3) && !HasCount(vs, 4) ==> (g[0].0 == 2 <==> HasCount(vs, 2))
  {
    TopTwoKinds(vs, g);
    if !HasCount(vs, 3) && !HasCount(vs, 4) && HasCount(vs, 2) {
      var v :| v in vs && Count(vs, v) == 2;
      if g[0].0 > 3 { CountTwo(vs, v, g[0].1); }
    }
  }

  /** The engine's category is the reference category of the cards' rank counts. */
  lemma EvalFiveCategory(cards: seq<Card>)
    requires |cards| == 5
    ensures EvalFive(cards).rank ==
      Category(Values(cards), SameSuit(cards), CheckStraight(SortDescending(Values(cards))))
  {
    var vs := Values(cards);
    var values := SortDescending(vs);
    var g := Groups(values);
    CountsAgree(vs, values);
    GroupsTopTwo(values);
    TopTwoKinds(values, g);
    TopTwoFullHouse(values, g);
    TopTwoPairs(values, g);
    TopTwoPair(values, g);
  }

  /** Sorting does not change counts or what the reference predicates say. */
  lemma CountsAgree(vs: seq<int>, values: seq<int>)
    requires multiset(vs) == multiset(values)
    ensures forall v :: Count(vs, v) == Count(values, v)
    ensures forall v :: v in vs <==> v in values
    ensures forall n :: HasCount(vs, n) <==> HasCount(values, n)
    ensures HasTwoPairs(vs) <==> HasTwoPairs(values)
  {
    assert forall v :: v in vs <==> v in multiset(vs);
    assert forall v :: v in values <==> v in multiset(values);
  }

  /** Straights are ranked by their highest value; four of a kind, three of a kind and one
      pair by the value that occurs most often. */
  lemma EvalFiveTiebreakHigh(cards: seq<Card>)
    requires |cards| == 5
    ensures var s := EvalFive(cards); var vs := Values(cards);
      && (s.rank == 8 || s.rank == 4 ==> s.value in vs && forall v :: v in vs ==> v <= s.value)
      && (s.rank == 7 ==> forall v :: v in vs && Count(vs, v) == 4 ==> s.value == 100 * v)
      && (s.rank == 3 ==> forall t :: t in vs && Count(vs, t) == 3 ==> s.value == 100 * t)
      && (s.rank == 1 ==> forall p :: p in vs && Count(vs, p) == 2 ==> s.value == 100 * p)
  {
    var vs := Values(cards);
    var values := SortDescending(vs);
    var g := Groups(values);
    CountsAgree(vs, values);
    GroupsTopTwo(values);
    TopTwoKinds(values, g);
    TopTwoPairs(values, g);
    TopTwoPair(values, g);
    EvalFiveCategory(cards);
    assert values[0] in values;
    forall v | v in values ensures v <= values[0] {
      var k :| 0 <= k < 5 && values[k] == v;
    }
  }

  /** A full house is ranked by its triple, then its pair; two pair by the higher pair,
      then the lower; a flush and a high card by all five values in descending order. */
  lemma EvalFiveTiebreakCombined(cards: seq<Card>)
    requires |cards| == 5
    ensures var s := EvalFive(cards); var vs := Values(cards);
      && (s.rank == 6 ==> forall t, p :: t in vs && p in vs && Count(vs, t) == 3 && Count(vs, p) == 2 ==> s.value == 100 * t + p)
      && (s.rank == 2 ==> forall hi, lo :: hi in vs && lo in vs && hi > lo && Count(vs, hi) == 2 && Count(vs, lo) == 2 ==> s.value == 100 * hi + lo)
      && (s.rank == 5 || s.rank == 0 ==> s.value == Packed(SortDescending(vs)))
  {
    var vs := Values(cards);
    var values := SortDescending(vs);
    var g := Groups(values);
    CountsAgree(vs, values);
    GroupsTopTwo(values);
    TopTwoKinds(values, g);
    TopTwoFullHouse(values, g);
    TopTwoPairs(values, g);
    EvalFiveCategory(cards);
  }

  // ---------------------------------------------------------------------------
  // Comparing two scores

  /** Score a beats score b: a higher category, or the same category and a higher tiebreak. */
  predicate Beats(a: Score, b: Score) {
    a.rank > b.rank || (a.rank == b.rank && a.value > b.value)
  }

  /** The engine's hand comparison: 1 when the first hand wins, 2 when the second does, 0 on a tie. */
  function Compare(a: Score, b: Score): (w: int)
    ensures w == 1 <==> Beats(a, b)
    ensures w == 2 <==> Beats(b, a)
    ensures w == 0 <==> a == b
    ensures w in {0, 1, 2}
  {
    if a.rank > b.rank then 1
    else if b.rank > a.rank then 2
    else if a.value > b.value then 1
    else if b.value > a.value then 2
    else 0
  }

  /** Swapping the two hands swaps the winner. */
  lemma CompareSwap(a: Score, b: Score)
    ensures Compare(b, a) == (if Compare(a, b) == 0 then 0 else 3 - Compare(a, b))
  {
  }

  /** Beats is a strict total order on scores. */
  lemma BeatsOrder(a: Score, b: Score, c: Score)
    ensures !Beats(a, a)
    ensures Beats(a, b) ==> !Beats(b, a)
    ensures Beats(a, b) && Beats(b, c) ==> Beats(a, c)
    ensures a == b || Beats(a, b) || Beats(b, a)
  {
  }

  // ---------------------------------------------------------------------------
  // The hands a player may form

  /** `h` prefixed to each sequence of `tails`. */
  function PrependAll<T>(h: T, tails: seq<seq<T>>): (r: seq<seq<T>>)
    ensures |r| == |tails|
    ensures forall i :: 0 <= i < |tails| ==> r[i] == [h] + tails[i]
  {
    seq(|tails|, i requires 0 <= i < |tails| => [h] + tails[i])
  }

  /** The k-element selections of s in the order `itertools.combinations` yields them. */
  function Choose<T>(s: seq<T>, k: nat): seq<seq<T>>
  {
    if k == 0 then [[]]
    else if |s| < k then []
    else PrependAll(s[0], Choose(s[1..], k - 1)) + Choose(s[1..], k)
  }

  /** t can be obtained from s by deleting entries. */
  predicate IsSubsequence<T(==)>(t: seq<T>, s: seq<T>) {
    if t == [] then true
    else if s == [] then false
    else (t[0] == s[0] && IsSubsequence(t[1..], s[1..])) || IsSubsequence(t, s[1..])
  }

  /** A subsequence uses only entries of s, no more often than s has them. */
  lemma {:induction false} SubsequenceIncluded<T>(t: seq<T>, s: seq<T>)
    requires IsSubsequence(t, s)
    ensures multiset(t) <= multiset(s)
  {
    if t != [] {
      assert s == [s[0]] + s[1..];
      if t[0] == s[0] && IsSubsequence(t[1..], s[1..]) {
        SubsequenceIncluded(t[1..], s[1..]);
        assert t == [t[0]] + t[1..];
      } else {
        SubsequenceIncluded(t, s[1..]);
      }
    }
  }

  /** Each selection has k entries and is a subsequence of s. */
  lemma {:induction false} ChooseSound<T>(s: seq<T>, k: nat)
    ensures forall t :: t in Choose(s, k) ==> |t| == k && IsSubsequence(t, s)
  {
    if k > 0 && |s| >= k {
      ChooseSound(s[1..], k - 1);
      ChooseSound(s[1..], k);
      var tails, without := Choose(s[1..], k - 1), Choose(s[1..], k);
      var with := PrependAll(s[0], tails);
      assert Choose(s, k) == with + without;
      forall t | t in Choose(s, k) ensures |t| == k && IsSubsequence(t, s) {
        if t in with {
          var i :| 0 <= i < |with| && with[i] == t;
          var u := tails[i];
          assert u in tails && t == [s[0]] + u;
          SubsequencePrepend(s, u);
        } else {
          assert t in without;
          SubsequenceSkip(s, t);
        }
      }
    }
  }

  /** The first entry in front of a subsequence of the rest is a subsequence. */
  lemma SubsequencePrepend<T>(s: seq<T>, u: seq<T>)
    requires s != [] && IsSubsequence(u, s[1..])
    ensures IsSubsequence([s[0]] + u, s)
  {
    assert ([s[0]] + u)[1..] == u;
  }

  /** A subsequence of the rest is a subsequence. */
  lemma SubsequenceSkip<T>(s: seq<T>, t: seq<T>)
    requires s != [] && IsSubsequence(t, s[1..])
    ensures IsSubsequence(t, s)
  {
  }

  /** The binomial coefficient n over k. */
  function Binomial(n: nat, k: nat): nat {
    if k == 0 then 1
    else if n < k then 0
    else Binomial(n - 1, k - 1) + Binomial(n - 1, k)
  }

  /** There are n-over-k selections. */
  lemma {:induction false} ChooseCount<T>(s: seq<T>, k: nat)
    ensures |Choose(s, k)| == Binomial(|s|, k)
  {
    if k > 0 && |s| >= k {
      ChooseCount(s[1..], k - 1);
      ChooseCount(s[1..], k);
      assert |Choose(s, k)| == |Choose(s[1..], k - 1)| + |Choose(s[1..], k)|;
    }
  }

  /** Every k-entry subsequence of s is one of the selections. */
  lemma {:induction false} ChooseComplete<T>(s: seq<T>, t: seq<T>)
    requires IsSubsequence(t, s)
    ensures t in Choose(s, |t|)
  {
    if t != [] {
      if t[0] == s[0] && IsSubsequence(t[1..], s[1..]) {
        ChooseComplete(s[1..], t[1..]);
        ChooseFirst(s, t[1..]);
        assert t == [s[0]] + t[1..];
      } else {
        ChooseComplete(s[1..], t);
        ChooseSkip(s, t);
      }
    }
  }

  /** A selection from the rest with the first entry in front is a selection. */
  lemma ChooseFirst<T>(s: seq<T>, u: seq<T>)
    requires s != [] && u in Choose(s[1..], |u|)
    ensures [s[0]] + u in Choose(s, |u| + 1)
  {
    var tails := Choose(s[1..], |u|);
    var i :| 0 <= i < |tails| && tails[i] == u;
    assert PrependAll(s[0], tails)[i] == [s[0]] + u;
  }

  /** A selection from the rest is a selection. */
  lemma ChooseSkip<T>(s: seq<T>, t: seq<T>)
    requires s != [] && t in Choose(s[1..], |t|)
    ensures t in Choose(s, |t|)
  {
  }

  /** A subsequence is no longer than the sequence. */
  lemma {:induction false} SubsequenceLength<T>(t: seq<T>, s: seq<T>)
    requires IsSubsequence(t, s)
    ensures |t| <= |s|
  {
    if t != [] {
      if t[0] == s[0] && IsSubsequence(t[1..], s[1..]) {
        SubsequenceLength(t[1..], s[1..]);
      } else {
        SubsequenceLength(t, s[1..]);
      }
    }
  }

  /** `h` joined with each of `cs`, in order. */
  function JoinAll<T>(h: seq<T>, cs: seq<seq<T>>): (r: seq<seq<T>>)
    ensures |r| == |cs|
    ensures forall j :: 0 <= j < |cs| ==> r[j] == h + cs[j]
  {
    seq(|cs|, j requires 0 <= j < |cs| => h + cs[j])
  }

  /** Every hs[i] joined with every cs[j], hs outermost, as two nested loops visit them. */
  function Product<T>(hs: seq<seq<T>>, cs: seq<seq<T>>): seq<seq<T>>
  {
    if hs == [] then []
    else Product(hs[..|hs| - 1], cs) + JoinAll(hs[|hs| - 1], cs)
  }

  /** The product holds one hand per pair of an hs entry and a cs entry. */
  lemma {:induction false} ProductSize<T>(hs: seq<seq<T>>, cs: seq<seq<T>>)
    ensures |Product(hs, cs)| == |hs| * |cs|
  {
    if hs != [] {
      ProductSize(hs[..|hs| - 1], cs);
      assert (|hs| - 1) * |cs| + |cs| == |hs| * |cs|;
    }
  }

  /** When every hs entry has m cards, the members of the product are exactly the hands
      whose first m cards are one of hs and whose rest is one of cs. */
  lemma {:induction false} ProductMembers<T>(hs: seq<seq<T>>, cs: seq<seq<T>>, m: nat)
    requires forall h :: h in hs ==> |h| == m
    ensures forall t :: t in Product(hs, cs) <==> |t| >= m && t[..m] in hs && t[m..] in cs
  {
    if hs != [] {
      var front, last := hs[..|hs| - 1], hs[|hs| - 1];
      assert hs == front + [last];
      ProductMembers(front, cs, m);
      var joined := JoinAll(last, cs);
      assert Product(hs, cs) == Product(front, cs) + joined;
      forall t ensures t in Product(hs, cs) <==> |t| >= m && t[..m] in hs && t[m..] in cs {
        assert t in Product(hs, cs) <==> t in Product(front, cs) || t in joined;
        if t in joined {
          var j :| 0 <= j < |cs| && joined[j] == t;
          assert t[..m] == last && t[m..] == cs[j];
        }
        if |t| >= m && t[..m] == last && t[m..] in cs {
          var j :| 0 <= j < |cs| && cs[j] == t[m..];
          assert t == last + cs[j];
          assert joined[j] == t;
        }
      }
    }
  }

  /** The five-card hands the engine scores: two hole cards with three community cards
      under Pot Limit Omaha rules, any five of all the cards otherwise. */
  function Candidates(hole: seq<Card>, community: seq<Card>, plo: bool): seq<seq<Card>> {
    if plo then Product(Choose(hole, 2), Choose(community, 3))
    else Choose(hole + community, 5)
  }

  /** Under Omaha rules each hand is two hole cards followed by three community cards. */
  lemma OmahaCandidates(hole: seq<Card>, community: seq<Card>)
    ensures forall t :: t in Candidates(hole, community, true) <==>
      |t| == 5 && IsSubsequence(t[..2], hole) && IsSubsequence(t[2..], community)
    ensures |Candidates(hole, community, true)| == Binomial(|hole|, 2) * Binomial(|community|, 3)
  {
    var hs, cs := Choose(hole, 2), Choose(community, 3);
    ChooseSound(hole, 2);
    ChooseSound(community, 3);
    ChooseCount(hole, 2);
    ChooseCount(community, 3);
    ProductSize(hs, cs);
    ProductMembers(hs, cs, 2);
    forall t: seq<Card> | |t| == 5 && IsSubsequence(t[..2], hole) && IsSubsequence(t[2..], community)
      ensures t[..2] in hs && t[2..] in cs
    {
      ChooseComplete(hole, t[..2]);
      ChooseComplete(community, t[2..]);
    }
  }

  /** Otherwise each hand is five of the hole and community cards, in their order. */
  lemma HoldemCandidates(hole: seq<Card>, community: seq<Card>)
    ensures forall t :: t in Candidates(hole, community, false) <==>
      |t| == 5 && IsSubsequence(t, hole + community)
    ensures |Candidates(hole, community, false)| == Binomial(|hole| + |community|, 5)
  {
    ChooseSound(hole + community, 5);
    ChooseCount(hole + community, 5);
    forall t | |t| == 5 && IsSubsequence(t, hole + community)
      ensures t in Candidates(hole, community, false)
    {
      ChooseComplete(hole + community, t);
    }
  }

  // ---------------------------------------------------------------------------
  // The best hand

  /** The running best after one more hand: replaced only when the new score beats it. */
  function Improve(best: Option<Score>, e: Score): Option<Score> {
    if best.None? || Beats(e, best.value) then Some(e) else best
  }

  /** The best of the scores, scanning them in order; None when there are none. */
  function Best(scores: seq<Score>): Option<Score> {
    if scores == [] then None
    else Improve(Best(scores[..|scores| - 1]), scores[|scores| - 1])
  }

  /** The score `score` gives each hand, in order. */
  function ScoresOf(score: seq<Card> -> Score, cands: seq<seq<Card>>): seq<Score> {
    if cands == [] then []
    else ScoresOf(score, cands[..|cands| - 1]) + [score(cands[|cands| - 1])]
  }

  /** Entry k of the scores is the score of hand k. */
  lemma {:induction false} ScoresOfAt(score: seq<Card> -> Score, cands: seq<seq<Card>>)
    ensures |ScoresOf(score, cands)| == |cands|
    ensures forall k :: 0 <= k < |cands| ==> ScoresOf(score, cands)[k] == score(cands[k])
  {
    if cands != [] {
      var front := cands[..|cands| - 1];
      ScoresOfAt(score, front);
      forall k | 0 <= k < |cands| ensures ScoresOf(score, cands)[k] == score(cands[k]) {
        if k < |front| {
          assert cands[k] == front[k];
        }
      }
    }
  }

  /** Scoring one more hand improves the running best with that hand's score. */
  lemma BestStep(score: seq<Card> -> Score, done: seq<seq<Card>>, hand: seq<Card>)
    ensures Best(ScoresOf(score, done + [hand])) == Improve(Best(ScoresOf(score, done)), score(hand))
  {
    assert (done + [hand])[..|done|] == done;
  }

  /** Scoring the hand at position k extends the best of the first k hands. */
  lemma BestPrefixStep(score: seq<Card> -> Score, cands: seq<seq<Card>>, k: nat)
    requires k < |cands|
    ensures Best(ScoresOf(score, cands[..k + 1])) == Improve(Best(ScoresOf(score, cands[..k])), score(cands[k]))
  {
    assert cands[..k + 1] == cands[..k] + [cands[k]];
    BestStep(score, cands[..k], cands[k]);
  }

  lemma BestAppendStep(score: seq<Card> -> Score, front: seq<seq<Card>>, mid: seq<seq<Card>>, next: seq<seq<Card>>, hand: seq<Card>)
    requires next == mid + [hand]
    ensures Best(ScoresOf(score, front + next)) == Improve(Best(ScoresOf(score, front + mid)), score(hand))
  {
    assert front + next == (front + mid) + [hand];
    BestStep(score, front + mid, hand);
  }

  lemma JoinAllStep<T>(h: seq<T>, cs: seq<seq<T>>, j: nat)
    requires j < |cs|
    ensures JoinAll(h, cs[..j + 1]) == JoinAll(h, cs[..j]) + [h + cs[j]]
  {
  }

  /** One more step of the inner Omaha loop. */
  lemma BestProductStep(score: seq<Card> -> Score, hs: seq<seq<Card>>, cs: seq<seq<Card>>, i: nat, j: nat)
    requires i < |hs| && j < |cs|
    ensures Best(ScoresOf(score, Product(hs[..i], cs) + JoinAll(hs[i], cs[..j + 1]))) ==
      Improve(Best(ScoresOf(score, Product(hs[..i], cs) + JoinAll(hs[i], cs[..j]))), score(hs[i] + cs[j]))
  {
    JoinAllStep(hs[i], cs, j);
    BestAppendStep(score, Product(hs[..i], cs), JoinAll(hs[i], cs[..j]), JoinAll(hs[i], cs[..j + 1]), hs[i] + cs[j]);
  }

  /** The inner Omaha loop starts from a whole number of rows of the product ... */
  lemma ProductRowStart<T>(hs: seq<seq<T>>, cs: seq<seq<T>>, i: nat)
    requires i < |hs|
    ensures Product(hs[..i], cs) + JoinAll(hs[i], cs[..0]) == Product(hs[..i], cs)
  {
    assert JoinAll(hs[i], cs[..0]) == [];
  }

  /** ... and ends with one more row. */
  lemma ProductRowEnd<T>(hs: seq<seq<T>>, cs: seq<seq<T>>, i: nat)
    requires i < |hs|
    ensures Product(hs[..i], cs) + JoinAll(hs[i], cs[..|cs|]) == Product(hs[..i + 1], cs)
  {
    assert cs[..|cs|] == cs;
    ProductPrefix(hs, cs, i);
  }

  /** The product of the first i + 1 rows is that of the first i rows and one more row. */
  lemma ProductPrefix<T>(hs: seq<seq<T>>, cs: seq<seq<T>>, i: nat)
    requires i < |hs|
    ensures Product(hs[..i + 1], cs) == Product(hs[..i], cs) + JoinAll(hs[i], cs)
  {
    var rows := hs[..i + 1];
    assert rows[..|rows| - 1] == hs[..i];
    assert rows[|rows| - 1] == hs[i];
  }


  /** The best is one of the scores, and no score beats it. */
  lemma {:induction false} BestIsBest(scores: seq<Score>)
    ensures Best(scores).None? <==> scores == []
    ensures Best(scores).Some? ==>
      Best(scores).value in scores && forall k :: 0 <= k < |scores| ==> !Beats(scores[k], Best(scores).value)
  {
    if scores != [] {
      var front, last := scores[..|scores| - 1], scores[|scores| - 1];
      BestIsBest(front);
      var b := Best(scores).value;
      if b != last {
        var i :| 0 <= i < |front| && front[i] == b;
        assert scores[i] == b;
      }
      forall k | 0 <= k < |scores| ensures !Beats(scores[k], b) {
        if k < |front| {
          assert scores[k] == front[k];
          BeatsOrder(scores[k], Best(front).value, b);
        }
      }
    }
  }

  /** The engine's best-hand score: (0, 0) without hole or community cards, or when no
      hand can be formed. */
  function BestScore(hole: seq<Card>, community: seq<Card>, plo: bool): Score {
    if hole == [] || community == [] then NO_HAND
    else
      match Best(ScoresOf(EvalFive, Candidates(hole, community, plo)))
      case None => NO_HAND
      case Some(s) => s
  }

  /** The Omaha search: every pair of hole cards with every triple of community cards,
      keeping the first best score. */
  method BestOfProduct(hs: seq<seq<Card>>, cs: seq<seq<Card>>) returns (best: Option<Score>)
    ensures best == Best(ScoresOf(EvalFive, Product(hs, cs)))
  {
    best := None;
    for i := 0 to |hs|
      invariant best == Best(ScoresOf(EvalFive, Product(hs[..i], cs)))
    {
      ProductRowStart(hs, cs, i);
      for j := 0 to |cs|
        invariant best == Best(ScoresOf(EvalFive, Product(hs[..i], cs) + JoinAll(hs[i], cs[..j])))
      {
        var e := EvalFive(hs[i] + cs[j]);
        BestProductStep(EvalFive, hs, cs, i, j);
        if best.None? || Beats(e, best.value) {
          best := Some(e);
        }
      }
      ProductRowEnd(hs, cs, i);
    }
    assert hs[..|hs|] == hs;
  }

  /** The hold'em search: every five-card selection in turn, keeping the first best score. */
  method BestOfAll(combos: seq<seq<Card>>) returns (best: Option<Score>)
    ensures best == Best(ScoresOf(EvalFive, combos))
  {
    best := None;
    for k := 0 to |combos|
      invariant best == Best(ScoresOf(EvalFive, combos[..k]))
    {
      var e := EvalFive(combos[k]);
      BestPrefixStep(EvalFive, combos, k);
      if best.None? || Beats(e, best.value) {
        best := Some(e);
      }
    }
    assert combos[..|combos|] == combos;
  }

  /** Scores a player's best hand on a board as the engine does. */
  method BestHand(hole: seq<Card>, community: seq<Card>, plo: bool) returns (r: Score)
    ensures r == BestScore(hole, community, plo)
  {
    if hole == [] || community == [] {
      return NO_HAND;
    }
    var best: Option<Score>;
    if plo {
      best := BestOfProduct(Choose(hole, 2), Choose(community, 3));
    } else {
      best := BestOfAll(Choose(hole + community, 5));
    }
    r := if best.Some? then best.value else NO_HAND;
  }

  /** Five values of at least 2 pack to a positive number. */
  lemma PackedPositive(values: seq<int>)
    requires |values| == 5 && forall k :: 0 <= k < 5 ==> values[k] >= 2
    ensures Packed(values) > 0
  {
  }

  /** Every sorted rank value lies between 2 and 14. */
  lemma SortedValuesInRange(cards: seq<Card>)
    ensures forall k :: 0 <= k < |cards| ==> 2 <= SortDescending(Values(cards))[k] <= 14
  {
    var vs := Values(cards);
    var values := SortDescending(vs);
    forall k | 0 <= k < |cards| ensures 2 <= values[k] <= 14 {
      assert values[k] in multiset(vs);
    }
  }

  /** Every five-card hand beats the no-hand score, so the placeholder never outranks a real hand. */
  lemma RealHandBeatsNoHand(cards: seq<Card>)
    requires |cards| == 5
    ensures Beats(EvalFive(cards), NO_HAND)
  {
    SortedValuesInRange(cards);
    PackedPositive(SortDescending(Values(cards)));
    EvalFiveTiebreakCombined(cards);
  }

  /** The best score is the score of one of the hands and no hand beats it. */
  lemma BestScoreIsBest(hole: seq<Card>, community: seq<Card>, plo: bool)
    requires hole != [] && community != []
    ensures var cands := Candidates(hole, community, plo); var s := BestScore(hole, community, plo);
      && (cands == [] ==> s == NO_HAND)
      && (cands != [] ==> exists k :: 0 <= k < |cands| && EvalFive(cands[k]) == s)
      && forall k :: 0 <= k < |cands| ==> !Beats(EvalFive(cands[k]), s)
  {
    var cands := Candidates(hole, community, plo);
    ScoresOfAt(EvalFive, cands);
    BestIsBest(ScoresOf(EvalFive, cands));
    var s := BestScore(hole, community, plo);
    if cands != [] {
      var k :| 0 <= k < |cands| && ScoresOf(EvalFive, cands)[k] == s;
      assert EvalFive(cands[k]) == s;
    }
  }
}
