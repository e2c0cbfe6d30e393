/** The metrics collector: counters, and sorted sets that are trimmed after every insertion. A
    sorted set is a sequence in the order of score and member; percentiles are taken over exact
    numbers. */
module Metrics {
  import opened Text

  /** A member of a sorted set with its score. */
  datatype Entry = Entry(score: real, member: string)

  // ---------- the order of a sorted set ----------

  predicate LexLess(a: string, b: string)
  {
    b != "" && (a == "" || a[0] < b[0] || (a[0] == b[0] && LexLess(a[1..], b[1..])))
  }

  predicate Less(a: Entry, b: Entry)
  {
    a.score < b.score || (a.score == b.score && LexLess(a.member, b.member))
  }

  lemma {:induction false} LexTotal(a: string, b: string)
    ensures a == b || LexLess(a, b) || LexLess(b, a)
    ensures !LexLess(a, a)
  {
    if a != "" {
      LexTotal(a[1..], if b == "" then "" else b[1..]);
      assert a == [a[0]] + a[1..];
      if b != "" { assert b == [b[0]] + b[1..]; }
    }
  }

  lemma {:induction false} LexTransitive(a: string, b: string, c: string)
    requires LexLess(a, b) && LexLess(b, c)
    ensures LexLess(a, c)
  {
    if a != "" && a[0] == b[0] == c[0] {
      LexTransitive(a[1..], b[1..], c[1..]);
    }
  }

  lemma LessTotal(a: Entry, b: Entry)
    ensures a == b || Less(a, b) || Less(b, a)
    ensures !Less(a, a)
  {
    LexTotal(a.member, b.member);
  }

  lemma LessTransitive(a: Entry, b: Entry, c: Entry)
    requires Less(a, b) && Less(b, c)
    ensures Less(a, c)
  {
    if a.score == b.score == c.score { LexTransitive(a.member, b.member, c.member); }
  }

  // ---------- sorted sets ----------

  ghost predicate Sorted(z: seq<Entry>)
  {
    forall i, j :: 0 <= i < j < |z| ==> Less(z[i], z[j])
  }

  function Without(z: seq<Entry>, member: string): seq<Entry>
  {
    if z == [] then []
    else (if z[0].member == member then [] else [z[0]]) + Without(z[1..], member)
  }

  function Insert(e: Entry, z: seq<Entry>): seq<Entry>
  {
    if z == [] || Less(e, z[0]) then [e] + z
    else if e == z[0] then z
    else [z[0]] + Insert(e, z[1..])
  }

  /** `zadd`: a member keeps one score, the latest. */
  function ZAdd(z: seq<Entry>, e: Entry): seq<Entry>
  {
    Insert(e, Without(z, e.member))
  }

  /** `zremrangebyrank(0, -max - 1)`: all but the `max` last entries go. */
  function Trim(z: seq<Entry>, max: nat): seq<Entry>
  {
    if |z| > max then z[|z| - max..] else z
  }

  lemma SortedCons(e: Entry, z: seq<Entry>)
    requires Sorted(z) && (z == [] || Less(e, z[0]))
    ensures Sorted([e] + z)
  {
    forall j | 0 <= j < |z| ensures Less(e, z[j]) {
      if j > 0 { LessTransitive(e, z[0], z[j]); }
    }
  }

  lemma {:induction false} InsertSorts(e: Entry, z: seq<Entry>)
    requires Sorted(z)
    ensures Sorted(Insert(e, z)) && forall x :: x in Insert(e, z) <==> x == e || x in z
  {
    hide Sorted, Less;
    if z == [] || Less(e, z[0]) {
      SortedCons(e, z);
    } else if e != z[0] {
      SortedRest(z);
      InsertSorts(e, z[1..]);
      LessTotal(e, z[0]);
      HeadOfInsert(e, z[1..]);
      SortedCons(z[0], Insert(e, z[1..]));
      assert z == [z[0]] + z[1..];
    }
  }

  lemma SortedRest(z: seq<Entry>)
    requires Sorted(z)
    ensures z != [] ==> Sorted(z[1..])
    ensures |z| > 1 ==> Less(z[0], z[1])
  {
  }

  lemma HeadOfInsert(e: Entry, z: seq<Entry>)
    ensures Insert(e, z) != [] && Insert(e, z)[0] == (if z == [] || Less(e, z[0]) then e else z[0])
  {
  }

  /** The member determines the score. */
  ghost predicate Consistent(e: Entry, z: seq<Entry>)
  {
    forall i :: 0 <= i < |z| ==> z[i].member == e.member ==> z[i] == e
  }

  lemma {:induction false} WithoutNothing(z: seq<Entry>, member: string)
    requires forall i :: 0 <= i < |z| ==> z[i].member != member
    ensures Without(z, member) == z
  {
    if z != [] {
      WithoutNothing(z[1..], member);
    }
  }

  /** When the member determines the score, `zadd` adds to the set. */
  lemma {:induction false} ZAddIsInsert(z: seq<Entry>, e: Entry)
    requires Sorted(z) && Consistent(e, z)
    ensures ZAdd(z, e) == Insert(e, z)
  {
    hide Less;
    if z != [] {
      SortedRest(z);
      if z[0] == e {
        LessTotal(e, e);
        WithoutNothing(z[1..], e.member);
        assert Without(z, e.member) == [] + z[1..] == z[1..];
        assert z == [e] + z[1..];
      } else if Less(e, z[0]) {
        NotAbove(e, z);
        WithoutNothing(z, e.member);
      } else {
        ZAddIsInsert(z[1..], e);
        assert Without(z, e.member) == [z[0]] + Without(z[1..], e.member);
        assert ([z[0]] + Without(z[1..], e.member))[1..] == Without(z[1..], e.member);
      }
    }
  }

  lemma NotAbove(e: Entry, z: seq<Entry>)
    requires Sorted(z) && Consistent(e, z) && z != [] && Less(e, z[0])
    ensures forall i :: 0 <= i < |z| ==> z[i].member != e.member
  {
    LessTotal(e, e);
    forall i | 0 <= i < |z| ensures Less(e, z[i]) {
      if i > 0 { LessTransitive(e, z[0], z[i]); }
    }
  }

  // ---------- trimming as one goes ----------

  lemma {:induction false} InsertBelow(e: Entry, a: seq<Entry>, b: seq<Entry>)
    requires b != [] && Less(e, b[0])
    ensures Insert(e, a + b) == Insert(e, a) + b
  {
    hide Less;
    if a == [] {
      assert a + b == b;
    } else {
      assert (a + b)[1..] == a[1..] + b;
      InsertBelow(e, a[1..], b);
    }
  }

  lemma {:induction false} InsertAbove(e: Entry, a: seq<Entry>, b: seq<Entry>)
    requires b != [] && !Less(e, b[0]) && Sorted(a + b)
    ensures Insert(e, a + b) == a + Insert(e, b)
  {
    hide Less;
    if a == [] {
      assert a + b == b && a + Insert(e, b) == Insert(e, b);
    } else {
      assert (a + b)[1..] == a[1..] + b;
      assert (a + b)[|a|] == b[0] && Less((a + b)[0], (a + b)[|a|]);
      NotBelow(e, a[0], b[0]);
      InsertAbove(e, a[1..], b);
    }
  }

  lemma NotBelow(e: Entry, x: Entry, y: Entry)
    requires Less(x, y) && !Less(e, y)
    ensures !Less(e, x) && e != x
  {
    if Less(e, x) { LessTransitive(e, x, y); }
  }

  lemma {:induction false} InsertLength(e: Entry, z: seq<Entry>)
    ensures |z| <= |Insert(e, z)| <= |z| + 1
  {
    if z != [] && !Less(e, z[0]) && e != z[0] {
      InsertLength(e, z[1..]);
    }
  }

  lemma TrimBelow(e: Entry, a: seq<Entry>, b: seq<Entry>)
    requires b != [] && Less(e, b[0])
    ensures Trim(Insert(e, a + b), |b|) == b == Trim(Insert(e, b), |b|)
  {
    hide Less;
    InsertBelow(e, a, b);
    InsertLength(e, a);
    assert Insert(e, b) == [e] + b;
  }

  lemma TrimAbove(e: Entry, a: seq<Entry>, b: seq<Entry>)
    requires b != [] && !Less(e, b[0]) && Sorted(a + b)
    ensures Trim(Insert(e, a + b), |b|) == Trim(Insert(e, b), |b|)
  {
    hide Less, Sorted, Insert;
    InsertAbove(e, a, b);
    InsertLength(e, b);
    var r := Insert(e, b);
    var n := |r| - |b|;
    assert (a + r)[|a| + n..] == r[n..];
  }

  /** What an earlier trim removed would be removed by the later one. */
  lemma TrimCommutes(e: Entry, z: seq<Entry>, max: nat)
    requires Sorted(z) && max > 0
    ensures Trim(Insert(e, Trim(z, max)), max) == Trim(Insert(e, z), max)
  {
    hide Less, Insert;
    if |z| > max {
      var a, b := z[..|z| - max], z[|z| - max..];
      assert z == a + b;
      if Less(e, b[0]) {
        TrimBelow(e, a, b);
      } else {
        TrimAbove(e, a, b);
      }
    }
  }

  function InsertAll(z: seq<Entry>, es: seq<Entry>): seq<Entry>
    decreases es
  {
    if es == [] then z else InsertAll(Insert(es[0], z), es[1..])
  }

  /** Recording with a trim after every insertion. */
  function RecordAll(z: seq<Entry>, es: seq<Entry>, max: nat): seq<Entry>
    decreases es
  {
    if es == [] then z else RecordAll(Trim(ZAdd(z, es[0]), max), es[1..], max)
  }

  ghost predicate SameScores(es: seq<Entry>, z: seq<Entry>)
  {
    forall i :: 0 <= i < |es| ==> Consistent(es[i], es) && Consistent(es[i], z)
  }

  lemma {:induction false} TrimAsOneGoes(z: seq<Entry>, es: seq<Entry>, max: nat)
    requires Sorted(z) && SameScores(es, z) && max > 0
    ensures RecordAll(Trim(z, max), es, max) == Trim(InsertAll(z, es), max)
    decreases es
  {
    hide Sorted, Less;
    if es != [] {
      var e, t := es[0], Trim(z, max);
      TrimSorted(z, max, e);
      ZAddIsInsert(t, e);
      TrimCommutes(e, z, max);
      InsertSorts(e, z);
      ScoresAfter(es, z);
      TrimAsOneGoes(Insert(e, z), es[1..], max);
    }
  }

  lemma TrimSorted(z: seq<Entry>, max: nat, e: Entry)
    requires Sorted(z) && Consistent(e, z)
    ensures Sorted(Trim(z, max)) && Consistent(e, Trim(z, max))
  {
  }

  lemma ScoresAfter(es: seq<Entry>, z: seq<Entry>)
    requires SameScores(es, z) && es != []
    requires forall x :: x in Insert(es[0], z) <==> x == es[0] || x in z
    ensures SameScores(es[1..], Insert(es[0], z))
  {
    var next := Insert(es[0], z);
    forall i | 0 <= i < |es[1..]| ensures Consistent(es[1..][i], es[1..]) && Consistent(es[1..][i], next) {
      assert es[1..][i] == es[i + 1];
      assert Consistent(es[i + 1], es) && Consistent(es[i + 1], z);
      forall j | 0 <= j < |next| && next[j].member == es[i + 1].member ensures next[j] == es[i + 1] {
        assert next[j] in next;
        if next[j] == es[0] { assert es[0].member == es[i + 1].member; }
      }
    }
  }

  lemma {:induction false} InsertAllHolds(z: seq<Entry>, es: seq<Entry>)
    requires Sorted(z)
    ensures Sorted(InsertAll(z, es)) && forall x :: x in InsertAll(z, es) <==> x in z || x in es
    decreases es
  {
    hide Sorted, Less;
    if es != [] {
      InsertSorts(es[0], z);
      InsertAllHolds(Insert(es[0], z), es[1..]);
      assert es == [es[0]] + es[1..];
    }
  }

  /** `kept` holds the largest of the entries: at most `max`, all of them if they are fewer, and every
      entry it does not hold is below every entry it holds. */
  ghost predicate TopOf(kept: seq<Entry>, es: seq<Entry>, max: nat)
  {
    && Sorted(kept) && |kept| <= max
    && (forall x :: x in kept ==> x in es)
    && (forall x, y :: x in es && x !in kept && y in kept ==> Less(x, y))
    && (|kept| < max ==> forall x :: x in es ==> x in kept)
  }

  /** After any recordings the set holds the largest of everything recorded. */
  lemma LargestAreKept(es: seq<Entry>, max: nat)
    requires SameScores(es, []) && max > 0
    ensures TopOf(RecordAll([], es, max), es, max)
  {
    hide Less;
    var all := InsertAll([], es);
    TrimAsOneGoes([], es, max);
    InsertAllHolds([], es);
    var kept := Trim(all, max);
    assert RecordAll([], es, max) == kept;
    TrimSplits(all, max);
  }

  lemma TrimSplits(all: seq<Entry>, max: nat)
    requires Sorted(all)
    ensures var kept := Trim(all, max);
      && Sorted(kept) && |kept| <= max && (forall x :: x in kept ==> x in all)
      && (forall x, y :: x in all && x !in kept && y in kept ==> Less(x, y))
      && (|kept| < max ==> kept == all)
  {
    hide Less;
    var kept := Trim(all, max);
    var n := |all| - |kept|;
    assert kept == all[n..];
    forall i | n <= i < |all| ensures all[i] in kept {
      assert kept[i - n] == all[i];
    }
    forall x, y | x in all && x !in kept && y in kept ensures Less(x, y) {
      var i :| 0 <= i < |all| && all[i] == x;
      var j :| 0 <= j < |kept| && kept[j] == y;
      assert all[n + j] == y;
    }
  }

  // ---------- the latest and the largest ----------

  function ToSet(es: seq<Entry>): set<Entry>
  {
    set x | x in es
  }

  ghost predicate Distinct(es: seq<Entry>)
  {
    forall i, j :: 0 <= i < j < |es| ==> es[i] != es[j]
  }

  lemma {:induction false} Sizes(es: seq<Entry>)
    ensures |ToSet(es)| <= |es| && (Distinct(es) ==> |ToSet(es)| == |es|)
  {
    if es == [] {
      assert ToSet(es) == {};
    } else {
      Sizes(es[1..]);
      assert es == [es[0]] + es[1..];
      assert ToSet(es) == {es[0]} + ToSet(es[1..]);
      if Distinct(es) { assert es[0] !in es[1..]; }
    }
  }

  lemma Within(a: set<Entry>, b: set<Entry>)
    requires a <= b
    ensures |a| <= |b| && (|a| == |b| ==> a == b)
  {
    assert b == a + (b - a);
  }

  lemma SortedIsDistinct(z: seq<Entry>)
    requires Sorted(z)
    ensures Distinct(z)
  {
    forall i, j | 0 <= i < j < |z| ensures z[i] != z[j] {
      LessTotal(z[i], z[j]);
    }
  }

  /** A top of at least `max` distinct entries is full. */
  lemma TopIsFull(kept: seq<Entry>, es: seq<Entry>, max: nat)
    requires TopOf(kept, es, max) && Distinct(es) && |es| >= max
    ensures |ToSet(kept)| == |kept| == max
  {
    SortedIsDistinct(kept);
    Sizes(kept);
    Sizes(es);
    if |kept| < max {
      Within(ToSet(es), ToSet(kept));
    }
  }

  /** Every earlier entry is below every one of the last `max`. */
  ghost predicate LastAreLargest(es: seq<Entry>, max: nat)
  {
    forall i, j :: 0 <= i < |es| - max <= j < |es| ==> Less(es[i], es[j])
  }

  /** Exact condition: of distinct recordings, at least `max` in number, the set holds exactly the last
      `max` if and only if every earlier one is below every one of them. */
  lemma LatestAreKeptIff(es: seq<Entry>, max: nat)
    requires SameScores(es, []) && Distinct(es) && 0 < max <= |es|
    ensures ToSet(RecordAll([], es, max)) == ToSet(es[|es| - max..]) <==> LastAreLargest(es, max)
  {
    hide Less, RecordAll, SameScores;
    var kept, last := RecordAll([], es, max), es[|es| - max..];
    LargestAreKept(es, max);
    TopIsFull(kept, es, max);
    Sizes(last);
    forall j | 0 <= j < max ensures last[j] == es[|es| - max + j] {
    }
    if LastAreLargest(es, max) {
      forall y | y in last ensures y in kept {
        LastIsKept(es, kept, max, y);
      }
      Within(ToSet(last), ToSet(kept));
    }
    if ToSet(kept) == ToSet(last) {
      forall i, j | 0 <= i < |es| - max <= j < |es| ensures Less(es[i], es[j]) {
        assert last[j - (|es| - max)] == es[j] && es[j] in ToSet(last);
        assert es[i] !in last;
        assert es[i] !in ToSet(kept);
      }
    }
  }

  /** Under the condition each of the last `max` is kept: otherwise every kept entry is another of them. */
  lemma LastIsKept(es: seq<Entry>, kept: seq<Entry>, max: nat, y: Entry)
    requires TopOf(kept, es, max) && Distinct(es) && 0 < max <= |es| && LastAreLargest(es, max)
    requires y in es[|es| - max..]
    ensures y in kept
  {
    hide Less;
    var last := es[|es| - max..];
    TopIsFull(kept, es, max);
    Sizes(last);
    if y !in kept {
      assert y in es;
      forall k | k in kept ensures k in last && k != y {
        NotEarlier(es, max, y, k);
      }
      Within(ToSet(kept), ToSet(last) - {y});
    }
  }

  lemma NotEarlier(es: seq<Entry>, max: nat, y: Entry, k: Entry)
    requires max <= |es| && LastAreLargest(es, max) && y in es[|es| - max..] && k in es && Less(y, k)
    ensures k in es[|es| - max..]
  {
    hide Less;
    var last := es[|es| - max..];
    var i :| 0 <= i < |es| && es[i] == k;
    var j :| 0 <= j < |last| && last[j] == y;
    if i < |es| - max {
      assert Less(es[i], es[|es| - max + j]);
      LessTransitive(y, k, y);
      LessTotal(y, y);
    } else {
      assert last[i - (|es| - max)] == k;
    }
  }

  // ---------- percentiles ----------

  function InsertValue(v: real, vs: seq<real>): seq<real>
  {
    if vs == [] || v <= vs[0] then [v] + vs else [vs[0]] + InsertValue(v, vs[1..])
  }

  function SortValues(vs: seq<real>): seq<real>
  {
    if vs == [] then [] else InsertValue(vs[0], SortValues(vs[1..]))
  }

  ghost predicate Ascending(vs: seq<real>)
  {
    forall i, j :: 0 <= i < j < |vs| ==> vs[i] <= vs[j]
  }

  lemma {:induction false} InsertValueKeeps(v: real, vs: seq<real>)
    ensures multiset(InsertValue(v, vs)) == multiset(vs) + multiset{v}
    ensures |InsertValue(v, vs)| == |vs| + 1
  {
    if vs != [] && v > vs[0] {
      InsertValueKeeps(v, vs[1..]);
      assert vs == [vs[0]] + vs[1..];
    }
  }

  ghost predicate Above(lo: real, vs: seq<real>)
  {
    forall i :: 0 <= i < |vs| ==> lo <= vs[i]
  }

  lemma {:induction false} InsertValueAbove(lo: real, v: real, vs: seq<real>)
    requires lo <= v && Above(lo, vs)
    ensures Above(lo, InsertValue(v, vs))
  {
    if vs != [] && v > vs[0] {
      InsertValueAbove(lo, v, vs[1..]);
    }
  }

  lemma AscendingCons(v: real, vs: seq<real>)
    requires Ascending(vs) && Above(v, vs)
    ensures Ascending([v] + vs)
  {
  }

  lemma AscendingParts(v: real, vs: seq<real>)
    requires Ascending(vs)
    ensures vs != [] ==> Ascending(vs[1..]) && Above(vs[0], vs[1..]) && (v <= vs[0] ==> Above(v, vs))
    ensures vs == [] ==> Above(v, vs)
  {
  }

  lemma {:induction false} InsertValueSorts(v: real, vs: seq<real>)
    requires Ascending(vs)
    ensures Ascending(InsertValue(v, vs))
  {
    hide Ascending, Above;
    AscendingParts(v, vs);
    if vs == [] || v <= vs[0] {
      AscendingCons(v, vs);
    } else {
      InsertValueSorts(v, vs[1..]);
      InsertValueAbove(vs[0], v, vs[1..]);
      AscendingCons(vs[0], InsertValue(v, vs[1..]));
    }
  }

  lemma {:induction false} SortValuesSorts(vs: seq<real>)
    ensures Ascending(SortValues(vs)) && multiset(SortValues(vs)) == multiset(vs) && |SortValues(vs)| == |vs|
  {
    if vs != [] {
      SortValuesSorts(vs[1..]);
      InsertValueSorts(vs[0], SortValues(vs[1..]));
      InsertValueKeeps(vs[0], SortValues(vs[1..]));
      assert vs == [vs[0]] + vs[1..];
    }
  }

  /** The rank with the product taken exactly. */
  function Rank(n: nat, percentile: nat): nat
    requires n > 0
  {
    var index := n * percentile / 100;
    if index <= n - 1 then index else n - 1
  }

  function Percentile(values: seq<real>, percentile: nat): real
  {
    if values == [] then 0.0
    else
      SortValuesSorts(values);
      SortValues(values)[Rank(|values|, percentile)]
  }

  /** The number of samples at most `v`. */
  function AtMost(vs: seq<real>, v: real): nat
  {
    if vs == [] then 0 else (if vs[0] <= v then 1 else 0) + AtMost(vs[1..], v)
  }

  lemma {:induction false} AtMostSorted(vs: seq<real>, k: nat)
    requires Ascending(vs) && k < |vs|
    ensures AtMost(vs, vs[k]) >= k + 1
    ensures forall v :: v < vs[k] ==> AtMost(vs, v) <= k
  {
    if k > 0 {
      AtMostSorted(vs[1..], k - 1);
      assert vs[1..][k - 1] == vs[k];
    } else {
      forall v | v < vs[0] ensures AtMost(vs, v) == 0 {
        NoneAtMost(vs, v);
      }
    }
  }

  lemma {:induction false} NoneAtMost(vs: seq<real>, v: real)
    requires forall i :: 0 <= i < |vs| ==> v < vs[i]
    ensures AtMost(vs, v) == 0
  {
    if vs != [] {
      NoneAtMost(vs[1..], v);
    }
  }

  lemma {:induction false} AtMostInsert(v: real, vs: seq<real>, w: real)
    ensures AtMost(InsertValue(v, vs), w) == AtMost([v] + vs, w)
  {
    assert ([v] + vs)[1..] == vs;
    if vs != [] && v > vs[0] {
      AtMostInsert(v, vs[1..], w);
      assert ([v] + vs[1..])[1..] == vs[1..];
      assert ([vs[0]] + InsertValue(v, vs[1..]))[1..] == InsertValue(v, vs[1..]);
    }
  }

  lemma {:induction false} AtMostSortValues(vs: seq<real>, w: real)
    ensures AtMost(SortValues(vs), w) == AtMost(vs, w)
  {
    if vs != [] {
      AtMostSortValues(vs[1..], w);
      AtMostInsert(vs[0], SortValues(vs[1..]), w);
      assert ([vs[0]] + SortValues(vs[1..]))[1..] == SortValues(vs[1..]);
    }
  }

  /** A percentile is a sample; more samples than its rank are at most it, and at most its rank many are
      at most any smaller value. */
  lemma PercentileRank(values: seq<real>, percentile: nat)
    requires values != []
    ensures var v, k := Percentile(values, percentile), Rank(|values|, percentile);
      && v in values && AtMost(values, v) > k && forall w :: w < v ==> AtMost(values, w) <= k
  {
    SortValuesSorts(values);
    var sorted, k := SortValues(values), Rank(|values|, percentile);
    assert sorted[k] in multiset(sorted);
    AtMostSorted(sorted, k);
    AtMostSortValues(values, sorted[k]);
    forall w | w < sorted[k] ensures AtMost(values, w) <= k {
      AtMostSortValues(values, w);
    }
  }

  /** A percentile is a sample below which at most that share of the samples lie, and up to which more than
      that share do, unless it is the largest. */
  lemma PercentileShare(values: seq<real>, percentile: nat)
    requires values != []
    ensures var v, share := Percentile(values, percentile), |values| * percentile;
      && v in values && (100 * AtMost(values, v) > share || AtMost(values, v) >= |values|)
      && forall w :: w < v ==> 100 * AtMost(values, w) <= share
  {
    PercentileRank(values, percentile);
    var k, share := Rank(|values|, percentile), |values| * percentile;
    Hundredths(share);
  }

  lemma Hundredths(share: nat)
    ensures 100 * (share / 100) <= share < 100 * (share / 100 + 1)
  {
  }

  /** Percentiles grow with the percentage: p50 <= p95 <= p99. */
  lemma PercentilesGrow(values: seq<real>, p: nat, q: nat)
    requires p <= q
    ensures Percentile(values, p) <= Percentile(values, q)
  {
    if values != [] {
      SortValuesSorts(values);
      RanksGrow(|values|, p, q);
    }
  }

  lemma RanksGrow(n: nat, p: nat, q: nat)
    requires p <= q && n > 0
    ensures Rank(n, p) <= Rank(n, q)
  {
    ProductsGrow(n, p, q);
    DividedGrow(n * p, n * q);
  }

  lemma DividedGrow(x: nat, y: nat)
    requires x <= y
    ensures x / 100 <= y / 100
  {
  }

  lemma {:induction false} ProductsGrow(n: nat, p: nat, q: nat)
    requires p <= q
    ensures n * p <= n * q
  {
    if n > 0 {
      ProductsGrow(n - 1, p, q);
      assert n * p == (n - 1) * p + p && n * q == (n - 1) * q + q;
    }
  }

  // ---------- the collector ----------

  const MAX_ZSET_SIZE := 10000

  const TIERS := {"A", "B", "C"}

  /** How numbers are written into the members. */
  datatype Format = Format(show: real -> string, showCount: int -> string)
  {
    /** Of these numbers, different ones are written differently, and all without a colon. */
    ghost predicate Telling(nums: set<real>)
    {
      && (forall x :: x in nums ==> ':' !in show(x))
      && (forall x, y {:trigger show(x), show(y)} :: x in nums && y in nums && show(x) == show(y) ==> x == y)
    }

    /** `{timestamp}:{latency}`, scored by the latency. */
    function WindowEntry(latency: real, timestamp: real): Entry
    {
      Entry(latency, show(timestamp) + [':'] + show(latency))
    }

    /** `{timestamp}:{duration}:{count}`, scored by the timestamp. */
    function WriteEntry(count: int, duration: real, timestamp: real): Entry
    {
      Entry(timestamp, show(timestamp) + [':'] + (show(duration) + [':'] + showCount(count)))
    }
  }

  /** One call of the collector. */
  datatype Call =
    | Window(tier: string, latency: real, timestamp: real)
    | Write(count: int, duration: real, timestamp: real)

  /** The keys in Redis; a counter or set that was never written is absent. */
  datatype Store = Store(tierCount: map<string, nat>, latencies: map<string, seq<Entry>>, dbWritesTotal: nat,
                         dbWriteOps: nat, dbWriteDurations: seq<Entry>, firstWindowTime: Option<real>)
  {
    function Count(tier: string): nat
    {
      if tier in tierCount then tierCount[tier] else 0
    }

    function Latencies(tier: string): seq<Entry>
    {
      if tier in latencies then latencies[tier] else []
    }

    function Step(format: Format, call: Call): Store
    {
      match call
      case Window(tier, latency, timestamp) =>
        if tier !in TIERS then this
        else
          this.(tierCount := tierCount[tier := Count(tier) + 1],
                latencies := latencies[tier := Trim(ZAdd(Latencies(tier), format.WindowEntry(latency, timestamp)),
                    MAX_ZSET_SIZE)],
                firstWindowTime := if firstWindowTime.Some? then firstWindowTime else Some(timestamp))
      case Write(count, duration, timestamp) =>
        if count < 0 || duration < 0.0 then this
        else
          this.(dbWritesTotal := dbWritesTotal + count, dbWriteOps := dbWriteOps + 1,
                dbWriteDurations := Trim(ZAdd(dbWriteDurations, format.WriteEntry(count, duration, timestamp)),
                    MAX_ZSET_SIZE))
    }

    function Run(format: Format, calls: seq<Call>): Store
      decreases calls
    {
      if calls == [] then this else Step(format, calls[0]).Run(format, calls[1..])
    }
  }

  const EMPTY := Store(map[], map[], 0, 0, [], None)

  class MetricsCollector {
    const format: Format
    var tierCount: map<string, nat>
    var latencies: map<string, seq<Entry>>
    var dbWritesTotal: nat
    var dbWriteOps: nat
    var dbWriteDurations: seq<Entry>
    var firstWindowTime: Option<real>

    function Keys(): Store
      reads this
    {
      Store(tierCount, latencies, dbWritesTotal, dbWriteOps, dbWriteDurations, firstWindowTime)
    }

    constructor (format: Format)
      ensures this.format == format && Keys() == EMPTY
    {
      this.format := format;
      tierCount, latencies := map[], map[];
      dbWritesTotal, dbWriteOps, dbWriteDurations, firstWindowTime := 0, 0, [], None;
    }

    /** Counts the window and records its latency in the set of its tier; an unknown tier is refused
        before anything changes. */
    method RecordWindowProcessed(tier: string, latency: real, timestamp: real) returns (ok: bool)
      modifies this
      ensures ok <==> tier in TIERS
      ensures Keys() == old(Keys()).Step(format, Window(tier, latency, timestamp))
    {
      hide ZAdd, Trim;
      if tier !in TIERS { return false; }
      tierCount := tierCount[tier := Keys().Count(tier) + 1];
      latencies := latencies[tier := ZAdd(Keys().Latencies(tier), format.WindowEntry(latency, timestamp))];
      latencies := latencies[tier := Trim(latencies[tier], MAX_ZSET_SIZE)];
      if firstWindowTime.None? {
        firstWindowTime := Some(timestamp);
      }
      ok := true;
    }

    /** Counts the write and records it in the set of writes; a negative count or duration is refused
        before anything changes. */
    method RecordDbWrite(count: int, duration: real, timestamp: real) returns (ok: bool)
      modifies this
      ensures ok <==> count >= 0 && duration >= 0.0
      ensures Keys() == old(Keys()).Step(format, Write(count, duration, timestamp))
    {
      if count < 0 || duration < 0.0 { return false; }
      dbWritesTotal := dbWritesTotal + count;
      dbWriteOps := dbWriteOps + 1;
      dbWriteDurations := ZAdd(dbWriteDurations, format.WriteEntry(count, duration, timestamp));
      dbWriteDurations := Trim(dbWriteDurations, MAX_ZSET_SIZE);
      ok := true;
    }
  }

  // ---------- any list of recordings ----------

  /** The latencies of the windows and the timestamps of all calls. */
  function Numbers(calls: seq<Call>): set<real>
  {
    if calls == [] then {}
    else {calls[0].timestamp} + (if calls[0].Window? then {calls[0].latency} else {}) + Numbers(calls[1..])
  }

  /** A number written as its place among those of the calls. */
  function Place(calls: seq<Call>, x: real): string
  {
    if calls == [] || x == calls[0].timestamp then ""
    else if calls[0].Window? && x == calls[0].latency then "|"
    else "||" + Place(calls[1..], x)
  }

  lemma {:induction false} PlacesTell(calls: seq<Call>, x: real, y: real)
    ensures ':' !in Place(calls, x)
    ensures x in Numbers(calls) && y in Numbers(calls) && Place(calls, x) == Place(calls, y) ==> x == y
  {
    if calls != [] {
      var rest := calls[1..];
      PlacesTell(rest, x, y);
      assert ("||" + Place(rest, x))[2..] == Place(rest, x) && ("||" + Place(rest, y))[2..] == Place(rest, y);
    }
  }

  /** The numbers of every list of calls can be written so that they are told apart. */
  lemma SomeFormatTells(calls: seq<Call>)
    ensures exists format: Format :: format.Telling(Numbers(calls))
  {
    var format := Format(x => Place(calls, x), _ => "");
    forall x, y { PlacesTell(calls, x, y); }
    assert format.Telling(Numbers(calls));
  }

  /** The entries of the windows of one tier, in order. */
  function WindowEntries(format: Format, calls: seq<Call>, tier: string): seq<Entry>
  {
    if calls == [] then []
    else
      (if calls[0].Window? && calls[0].tier == tier then [format.WindowEntry(calls[0].latency, calls[0].timestamp)]
          else [])
      + WindowEntries(format, calls[1..], tier)
  }

  /** The entries of the accepted writes, in order. */
  function WriteEntries(format: Format, calls: seq<Call>): seq<Entry>
  {
    if calls == [] then []
    else
      (if calls[0].Write? && calls[0].count >= 0 && calls[0].duration >= 0.0
       then [format.WriteEntry(calls[0].count, calls[0].duration, calls[0].timestamp)] else [])
      + WriteEntries(format, calls[1..])
  }

  lemma NothingRecorded(z: seq<Entry>)
    ensures RecordAll(z, [], MAX_ZSET_SIZE) == z
  {
  }

  lemma RecordFirst(z: seq<Entry>, e: Entry, es: seq<Entry>)
    ensures RecordAll(z, [e] + es, MAX_ZSET_SIZE) == RecordAll(Trim(ZAdd(z, e), MAX_ZSET_SIZE), es, MAX_ZSET_SIZE)
  {
    assert ([e] + es)[1..] == es;
  }

  lemma {:induction false} RunRecords(st: Store, format: Format, calls: seq<Call>, tier: string)
    requires tier in TIERS
    ensures var end, es, ws := st.Run(format, calls), WindowEntries(format, calls, tier), WriteEntries(format, calls);
      && end.Latencies(tier) == RecordAll(st.Latencies(tier), es, MAX_ZSET_SIZE)
      && end.Count(tier) == st.Count(tier) + |es|
      && end.dbWriteDurations == RecordAll(st.dbWriteDurations, ws, MAX_ZSET_SIZE)
      && end.dbWriteOps == st.dbWriteOps + |ws|
    decreases calls
  {
    hide ZAdd, Trim, RecordAll;
    NothingRecorded(st.Latencies(tier));
    NothingRecorded(st.dbWriteDurations);
    if calls != [] {
      var next := st.Step(format, calls[0]);
      RunRecords(next, format, calls[1..], tier);
      assert [] + WindowEntries(format, calls[1..], tier) == WindowEntries(format, calls[1..], tier);
      assert [] + WriteEntries(format, calls[1..]) == WriteEntries(format, calls[1..]);
      match calls[0] {
        case Window(t, latency, timestamp) =>
          RecordFirst(st.Latencies(tier), format.WindowEntry(latency, timestamp),
              WindowEntries(format, calls[1..], tier));
        case Write(count, duration, timestamp) =>
          RecordFirst(st.dbWriteDurations, format.WriteEntry(count, duration, timestamp),
              WriteEntries(format, calls[1..]));
      }
    }
  }

  lemma MembersTell(format: Format, nums: set<real>, t: real, u: real, a: string, b: string)
    requires format.Telling(nums) && t in nums && u in nums
    ensures format.show(t) + [':'] + a == format.show(u) + [':'] + b ==> t == u && a == b
  {
    var s, r := format.show(t), format.show(u);
    if s + [':'] + a == r + [':'] + b {
      IndexOfPrefix(':', s, [':'] + a);
      IndexOfPrefix(':', r, [':'] + b);
      assert s + ([':'] + a) == s + [':'] + a && r + ([':'] + b) == r + [':'] + b;
      assert |s| == |r|;
      assert (s + [':'] + a)[..|s|] == s && (r + [':'] + b)[..|r|] == r;
      assert (s + [':'] + a)[|s| + 1..] == a && (r + [':'] + b)[|r| + 1..] == b;
    }
  }

  lemma {:induction false} EntriesTell(format: Format, calls: seq<Call>, tier: string, e: Entry)
    ensures e in WindowEntries(format, calls, tier) ==>
      e.score in Numbers(calls) && exists t :: t in Numbers(calls) && e == format.WindowEntry(e.score, t)
    ensures e in WriteEntries(format, calls) ==>
      e.score in Numbers(calls) && exists c, d :: e == format.WriteEntry(c, d, e.score)
  {
    if calls != [] {
      EntriesTell(format, calls[1..], tier, e);
    }
  }

  /** In either kind of set a member has one score. */
  lemma ScoresAgree(format: Format, calls: seq<Call>, tier: string)
    requires format.Telling(Numbers(calls))
    ensures SameScores(WindowEntries(format, calls, tier), [])
    ensures SameScores(WriteEntries(format, calls), [])
  {
    var es, ws := WindowEntries(format, calls, tier), WriteEntries(format, calls);
    forall i, j | 0 <= i < |es| && 0 <= j < |es| && es[j].member == es[i].member ensures es[j] == es[i] {
      EntriesTell(format, calls, tier, es[i]);
      EntriesTell(format, calls, tier, es[j]);
      var nums := Numbers(calls);
      var t :| t in nums && es[i] == format.WindowEntry(es[i].score, t);
      var u :| u in nums && es[j] == format.WindowEntry(es[j].score, u);
      MembersTell(format, nums, t, u, format.show(es[i].score), format.show(es[j].score));
    }
    forall i, j | 0 <= i < |ws| && 0 <= j < |ws| && ws[j].member == ws[i].member ensures ws[j] == ws[i] {
      EntriesTell(format, calls, tier, ws[i]);
      EntriesTell(format, calls, tier, ws[j]);
      var c, d :| ws[i] == format.WriteEntry(c, d, ws[i].score);
      var k, l :| ws[j] == format.WriteEntry(k, l, ws[j].score);
      MembersTell(format, Numbers(calls), ws[i].score, ws[j].score,
                  format.show(d) + [':'] + format.showCount(c), format.show(l) + [':'] + format.showCount(k));
    }
  }

  /** After any list of calls of either kind, each of the collector's sets is the top `MAX_ZSET_SIZE` of
      everything recorded in it, and its counters count what was recorded. */
  lemma CollectorKeepsTheLargest(format: Format, calls: seq<Call>, tier: string)
    requires format.Telling(Numbers(calls)) && tier in TIERS
    ensures var end, es, ws := EMPTY.Run(format, calls), WindowEntries(format, calls, tier),
      WriteEntries(format, calls);
      && TopOf(end.Latencies(tier), es, MAX_ZSET_SIZE) && end.Count(tier) == |es|
      && TopOf(end.dbWriteDurations, ws, MAX_ZSET_SIZE) && end.dbWriteOps == |ws|
  {
    hide TopOf, RecordAll;
    RunRecords(EMPTY, format, calls, tier);
    ScoresAgree(format, calls, tier);
    LargestAreKept(WindowEntries(format, calls, tier), MAX_ZSET_SIZE);
    LargestAreKept(WriteEntries(format, calls), MAX_ZSET_SIZE);
  }

  /** The counts of the accepted writes, added up. */
  function Written(calls: seq<Call>): nat
  {
    if calls == [] then 0
    else
      (if calls[0].Write? && calls[0].count >= 0 && calls[0].duration >= 0.0 then calls[0].count else 0)
      + Written(calls[1..])
  }

  /** The time of the first window of a known tier. */
  function FirstTime(calls: seq<Call>): Option<real>
  {
    if calls == [] then None
    else if calls[0].Window? && calls[0].tier in {"A", "B", "C"} then Some(calls[0].timestamp)
    else FirstTime(calls[1..])
  }

  /** The collector's total is the sum of the counts of all accepted writes, and its first time that of the
      first window, which later ones do not change. */
  lemma {:induction false} TotalsAndFirstTime(st: Store, format: Format, calls: seq<Call>)
    ensures var end := st.Run(format, calls);
      && end.dbWritesTotal == st.dbWritesTotal + Written(calls)
      && end.firstWindowTime == if st.firstWindowTime.Some? then st.firstWindowTime else FirstTime(calls)
    decreases calls
  {
    if calls != [] {
      TotalsAndFirstTime(st.Step(format, calls[0]), format, calls[1..]);
    }
  }

  /** The collector's latencies of a tier are the latest `MAX_ZSET_SIZE` if and only if every earlier one
      is below every one of them. */
  lemma CollectorKeepsTheLatestIff(format: Format, calls: seq<Call>, tier: string)
    requires format.Telling(Numbers(calls)) && tier in TIERS
    requires var es := WindowEntries(format, calls, tier); Distinct(es) && |es| >= MAX_ZSET_SIZE
    ensures var es := WindowEntries(format, calls, tier);
      ToSet(EMPTY.Run(format, calls).Latencies(tier)) == ToSet(es[|es| - MAX_ZSET_SIZE..])
      <==> LastAreLargest(es, MAX_ZSET_SIZE)
  {
    hide RecordAll, LastAreLargest, SameScores, Numbers, WriteEntries, Distinct;
    RunRecords(EMPTY, format, calls, tier);
    ScoresAgree(format, calls, tier);
    LatestAreKeptIff(WindowEntries(format, calls, tier), MAX_ZSET_SIZE);
  }

  /** Writes are scored by time, so with a clock that moves forward the latest are the ones kept. */
  lemma LatestWritesAreKept(format: Format, calls: seq<Call>)
    requires format.Telling(Numbers(calls))
    requires var ws := WriteEntries(format, calls); forall i, j :: 0 <= i < j < |ws| ==> ws[i].score < ws[j].score
    requires |WriteEntries(format, calls)| >= MAX_ZSET_SIZE
    ensures var ws := WriteEntries(format, calls);
      ToSet(EMPTY.Run(format, calls).dbWriteDurations) == ToSet(ws[|ws| - MAX_ZSET_SIZE..])
  {
    hide RecordAll, WriteEntries;
    RunRecords(EMPTY, format, calls, "A");
    ScoresAgree(format, calls, "A");
    LatestAreKeptIff(WriteEntries(format, calls), MAX_ZSET_SIZE);
  }

  // ---------- ever faster windows ----------

  /** `n` windows of tier A, one a second, with latencies n, n - 1, ..., 1. */
  function Falling(n: nat, at: real): seq<Call>
  {
    if n == 0 then [] else [Window("A", n as real, at)] + Falling(n - 1, at + 1.0)
  }

  lemma {:induction false} FallingEntries(format: Format, n: nat, at: real)
    ensures var es := WindowEntries(format, Falling(n, at), "A");
      |es| == n && forall i :: 0 <= i < n ==> es[i].score == (n - i) as real
    decreases n
  {
    if n > 0 {
      FallingEntries(format, n - 1, at + 1.0);
      assert Falling(n, at)[1..] == Falling(n - 1, at + 1.0);
    }
  }

  /** Then the oldest latency is kept and the latest is lost, for every number of windows over the limit. */
  lemma LargestNotLatest(format: Format, n: nat, at: real)
    requires format.Telling(Numbers(Falling(n, at))) && n > MAX_ZSET_SIZE
    ensures var es, kept := WindowEntries(format, Falling(n, at), "A"),
      EMPTY.Run(format, Falling(n, at)).Latencies("A");
      |es| == n && es[0] in kept && es[n - 1] !in kept
  {
    hide Falling, WindowEntries, Sorted;
    var es, kept := WindowEntries(format, Falling(n, at), "A"), EMPTY.Run(format, Falling(n, at)).Latencies("A");
    FallingEntries(format, n, at);
    CollectorKeepsTheLargest(format, Falling(n, at), "A");
    TopOfFalling(es, kept, MAX_ZSET_SIZE);
  }

  /** So at every number of windows over the limit a collector, with some way to write its numbers, keeps
      the oldest latency and loses the latest. */
  lemma SomeCollectorLosesTheLatest(n: nat, at: real)
    requires n > MAX_ZSET_SIZE
    ensures exists format: Format ::
      var es, kept := WindowEntries(format, Falling(n, at), "A"), EMPTY.Run(format, Falling(n, at)).Latencies("A");
      |es| == n && es[0] in kept && es[n - 1] !in kept
  {
    SomeFormatTells(Falling(n, at));
    var format: Format :| format.Telling(Numbers(Falling(n, at)));
    LargestNotLatest(format, n, at);
  }

  lemma TopOfFalling(es: seq<Entry>, kept: seq<Entry>, max: nat)
    requires TopOf(kept, es, max) && 0 < max < |es|
    requires forall i :: 0 <= i < |es| ==> es[i].score == (|es| - i) as real
    ensures es[0] in kept && es[|es| - 1] !in kept
  {
    var n := |es|;
    TopIsFull(kept, es, max);
    Sizes(es);
    assert kept[0] in kept;
    forall x | x in kept ensures !Less(es[0], x) {
      var i :| 0 <= i < n && es[i] == x;
      LessTotal(x, x);
    }
    forall x | x in es ensures !Less(x, es[n - 1]) {
      var i :| 0 <= i < n && es[i] == x;
      LessTotal(x, x);
    }
    var x := SomeDropped(es, kept);
  }

  lemma SomeDropped(es: seq<Entry>, kept: seq<Entry>) returns (x: Entry)
    requires |ToSet(es)| > |ToSet(kept)|
    ensures x in es && x !in kept
  {
    if ToSet(es) <= ToSet(kept) {
      Within(ToSet(es), ToSet(kept));
    }
    x :| x in ToSet(es) && x !in ToSet(kept);
  }
}
