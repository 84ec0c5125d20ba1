// The Mann-Whitney test of compare.js: midranks over the sorted pooled samples, U from the rank sum.

module MannWhitney {
  import opened Reals

  // One observation, and whether it is of the first sample.
  datatype Obs = Obs(v: real, first: bool)

  function Tag(s: seq<real>, first: bool): (t: seq<Obs>)
    ensures |t| == |s| && forall i :: 0 <= i < |s| ==> t[i] == Obs(s[i], first)
  {
    seq(|s|, i requires 0 <= i < |s| => Obs(s[i], first))
  }

  function Pooled(x: seq<real>, y: seq<real>): seq<Obs> {
    Tag(x, true) + Tag(y, false)
  }

  predicate Sorted(all: seq<Obs>) {
    forall i, j :: 0 <= i < j < |all| ==> all[i].v <= all[j].v
  }

  // Any order the sort may leave: ascending values, equal values in any order.
  predicate Arranges(all: seq<Obs>, x: seq<real>, y: seq<real>) {
    Sorted(all) && multiset(all) == multiset(Pooled(x, y))
  }

  // ------------------------------------------------------------------ definitions

  // How often one value beats another: once, or half when they tie.
  function Win(a: real, b: real): real {
    if a > b then 1.0 else if a == b then 0.5 else 0.0
  }

  function Sum<T>(f: T -> real, s: seq<T>): real {
    if s == [] then 0.0 else f(s[0]) + Sum(f, s[1..])
  }

  function Wins(v: real, all: seq<Obs>): real {
    Sum((o: Obs) => Win(v, o.v), all)
  }

  // The midrank: one more than the values below, plus half the other values that tie.
  function MidRank(all: seq<Obs>, k: nat): real
    requires k < |all|
  {
    0.5 + Wins(all[k].v, all)
  }

  function FirstRank(all: seq<Obs>, o: Obs): real {
    if o.first then 0.5 + Wins(o.v, all) else 0.0
  }

  // Pairs with the first value above the second, and pairs that tie.
  function CountAbove(a: real, y: seq<real>): nat {
    if y == [] then 0 else (if a > y[0] then 1 else 0) + CountAbove(a, y[1..])
  }

  function CountTies(a: real, y: seq<real>): nat {
    if y == [] then 0 else (if a == y[0] then 1 else 0) + CountTies(a, y[1..])
  }

  function PairsAbove(x: seq<real>, y: seq<real>): nat {
    if x == [] then 0 else CountAbove(x[0], y) + PairsAbove(x[1..], y)
  }

  function PairsTied(x: seq<real>, y: seq<real>): nat {
    if x == [] then 0 else CountTies(x[0], y) + PairsTied(x[1..], y)
  }

  // U by counting pairs.
  function PairU(x: seq<real>, y: seq<real>): real {
    PairsAbove(x, y) as real + PairsTied(x, y) as real / 2.0
  }

  // U from the rank sum of the first sample.
  function RankU(all: seq<Obs>, n1: nat): real {
    Sum((o: Obs) => FirstRank(all, o), all) - (n1 * (n1 + 1)) as real / 2.0
  }

  // ------------------------------------------------------------------ sums

  lemma {:induction false} SumAppend<T>(f: T -> real, a: seq<T>, b: seq<T>)
    ensures Sum(f, a + b) == Sum(f, a) + Sum(f, b)
  {
    if a == [] {
      assert a + b == b;
    } else {
      assert (a + b)[1..] == a[1..] + b;
      SumAppend(f, a[1..], b);
    }
  }

  lemma {:induction false} WithoutOne<T>(b: seq<T>, k: nat)
    requires k < |b|
    ensures multiset(b[..k] + b[k + 1..]) == multiset(b) - multiset{b[k]}
  {
    assert b == b[..k] + [b[k]] + b[k + 1..];
  }

  lemma {:induction false} SumWithoutOne<T>(f: T -> real, b: seq<T>, k: nat)
    requires k < |b|
    ensures Sum(f, b) == f(b[k]) + Sum(f, b[..k] + b[k + 1..])
  {
    var c := b[k..];
    assert b == b[..k] + c && c[1..] == b[k + 1..];
    SumAppend(f, b[..k], c);
    SumAppend(f, b[..k], b[k + 1..]);
  }

  // Equal multisets agree on one element and on the rest.
  lemma {:induction false} MatchFirst<T>(a: seq<T>, b: seq<T>) returns (k: nat)
    requires multiset(a) == multiset(b) && a != []
    ensures k < |b| && b[k] == a[0] && multiset(a[1..]) == multiset(b[..k] + b[k + 1..])
  {
    assert a[0] in multiset(b);
    k :| 0 <= k < |b| && b[k] == a[0];
    WithoutOne(b, k);
    assert a == [a[0]] + a[1..];
    assert multiset(a[1..]) == multiset(a) - multiset{a[0]};
  }

  lemma {:induction false} SumPermutes<T>(f: T -> real, a: seq<T>, b: seq<T>)
    requires multiset(a) == multiset(b)
    ensures Sum(f, a) == Sum(f, b)
    decreases |a|
  {
    if a == [] {
      assert |multiset(b)| == 0;
    } else {
      var k := MatchFirst(a, b);
      SumPermutes(f, a[1..], b[..k] + b[k + 1..]);
      SumWithoutOne(f, b, k);
    }
  }

  lemma {:induction false} SumSame<T>(f: T -> real, g: T -> real, s: seq<T>)
    requires forall i :: 0 <= i < |s| ==> f(s[i]) == g(s[i])
    ensures Sum(f, s) == Sum(g, s)
  {
    if s != [] {
      SumSame(f, g, s[1..]);
    }
  }

  // ------------------------------------------------------------------ midranks

  lemma {:induction false} WinsConstant(v: real, s: seq<Obs>, w: real)
    requires forall i :: 0 <= i < |s| ==> Win(v, s[i].v) == w
    ensures Wins(v, s) == |s| as real * w
  {
    var f := (o: Obs) => Win(v, o.v);
    if s != [] {
      assert Sum(f, s) == f(s[0]) + Sum(f, s[1..]);
      WinsConstant(v, s[1..], w);
    }
  }

  lemma {:induction false} WinsAppend(v: real, a: seq<Obs>, b: seq<Obs>)
    ensures Wins(v, a + b) == Wins(v, a) + Wins(v, b)
  {
    SumAppend((o: Obs) => Win(v, o.v), a, b);
  }

  lemma {:induction false} ThreeGroups(v: real, a: seq<Obs>, b: seq<Obs>, c: seq<Obs>)
    requires forall m :: 0 <= m < |a| ==> a[m].v < v
    requires forall m :: 0 <= m < |b| ==> b[m].v == v
    requires forall m :: 0 <= m < |c| ==> v < c[m].v
    ensures Wins(v, a + (b + c)) == |a| as real + |b| as real / 2.0
  {
    hide Wins;
    WinsAppend(v, a, b + c);
    WinsAppend(v, b, c);
    WinsConstant(v, a, 1.0);
    WinsConstant(v, b, 0.5);
    WinsConstant(v, c, 0.0);
  }

  lemma {:induction false} GroupBounds(all: seq<Obs>, i: nat, j: nat, m: nat)
    requires Sorted(all) && i <= j < |all| && m < |all|
    requires i > 0 ==> all[i - 1].v < all[i].v
    requires j + 1 < |all| ==> all[i].v < all[j + 1].v
    ensures m < i ==> all[m].v < all[i].v
    ensures m > j ==> all[i].v < all[m].v
  {
    assert m < i - 1 ==> all[m].v <= all[i - 1].v;
    assert j + 1 < m ==> all[j + 1].v <= all[m].v;
  }

  // A maximal group of ties from i to j shares the rank (i + j) / 2 + 1.
  lemma {:induction false} GroupRank(all: seq<Obs>, i: nat, j: nat, k: nat)
    requires Sorted(all) && i <= k <= j < |all|
    requires forall m :: i <= m <= j ==> all[m].v == all[i].v
    requires i > 0 ==> all[i - 1].v < all[i].v
    requires j + 1 < |all| ==> all[i].v < all[j + 1].v
    ensures MidRank(all, k) == (i + j) as real / 2.0 + 1.0
  {
    hide Wins, Sorted;
    var v, a, b, c := all[i].v, all[..i], all[i..j + 1], all[j + 1..];
    forall m | 0 <= m < |a| ensures a[m].v < v {
      GroupBounds(all, i, j, m);
    }
    forall m | 0 <= m < |c| ensures v < c[m].v {
      GroupBounds(all, i, j, j + 1 + m);
    }
    ThreeGroups(v, a, b, c);
    assert all == a + (b + c);
    GroupMiddle(i, j);
  }

  lemma {:induction false} GroupMiddle(i: nat, j: nat)
    requires i <= j
    ensures 0.5 + (i as real + (j + 1 - i) as real / 2.0) == (i + j) as real / 2.0 + 1.0
  {
  }

  // The rank loops.
  method Ranks(all: seq<Obs>) returns (ranks: array<real>)
    requires Sorted(all)
    ensures ranks.Length == |all| && forall k :: 0 <= k < |all| ==> ranks[k] == MidRank(all, k)
  {
    ranks := new real[|all|];
    var i := 0;
    while i < |all|
      invariant 0 <= i <= |all|
      invariant 0 < i < |all| ==> all[i - 1].v < all[i].v
      invariant forall k :: 0 <= k < i ==> ranks[k] == MidRank(all, k)
    {
      var j := i;
      while j + 1 < |all| && all[j + 1].v == all[i].v
        invariant i <= j < |all|
        invariant forall m :: i <= m <= j ==> all[m].v == all[i].v
      {
        j := j + 1;
      }
      for k := i to j + 1
        invariant forall m :: 0 <= m < k ==> ranks[m] == MidRank(all, m)
      {
        GroupRank(all, i, j, k);
        ranks[k] := (i + j) as real / 2.0 + 1.0;
      }
      i := j + 1;
    }
  }

  // ------------------------------------------------------------------ pairs

  lemma {:induction false} WinsCount(a: real, y: seq<real>, first: bool)
    ensures Wins(a, Tag(y, first)) == CountAbove(a, y) as real + CountTies(a, y) as real / 2.0
  {
    if y != [] {
      assert Tag(y, first)[1..] == Tag(y[1..], first);
      WinsCount(a, y[1..], first);
    }
  }

  lemma {:induction false} CountsOpposite(a: real, y: seq<real>)
    ensures PairsAbove(y, [a]) + CountAbove(a, y) + CountTies(a, y) == |y|
    ensures PairsTied(y, [a]) == CountTies(a, y)
  {
    if y != [] {
      CountsOpposite(a, y[1..]);
      assert [a][1..] == [];
      assert CountAbove(y[0], [a]) == (if y[0] > a then 1 else 0) + CountAbove(y[0], []);
      assert CountTies(y[0], [a]) == (if y[0] == a then 1 else 0) + CountTies(y[0], []);
    }
  }

  lemma {:induction false} PairsByColumn(x: seq<real>, y: seq<real>)
    requires y != []
    ensures PairsAbove(x, y) == PairsAbove(x, y[..1]) + PairsAbove(x, y[1..])
    ensures PairsTied(x, y) == PairsTied(x, y[..1]) + PairsTied(x, y[1..])
  {
    if x != [] {
      PairsByColumn(x[1..], y);
      var a, col := x[0], y[..1];
      assert col[1..] == [] && col[0] == y[0];
      assert CountAbove(a, col) == (if a > y[0] then 1 else 0) + CountAbove(a, []);
      assert CountTies(a, col) == (if a == y[0] then 1 else 0) + CountTies(a, []);
    }
  }

  lemma {:induction false} NoPairs(x: seq<real>)
    ensures PairsAbove(x, []) == 0 && PairsTied(x, []) == 0
  {
    if x != [] {
      NoPairs(x[1..]);
    }
  }

  lemma {:induction false} PairsPartition(x: seq<real>, y: seq<real>)
    ensures PairsAbove(x, y) + PairsAbove(y, x) + PairsTied(x, y) == |x| * |y|
    ensures PairsTied(x, y) == PairsTied(y, x)
  {
    if x == [] {
      NoPairs(y);
    } else {
      PairsPartition(x[1..], y);
      PairsByColumn(y, x);
      CountsOpposite(x[0], y);
      assert x[..1] == [x[0]];
      MulStep(|x| - 1, |y|);
    }
  }

  lemma {:induction false} MulStep(n: nat, k: nat)
    ensures (n + 1) * k == n * k + k
  {
  }

  // Every pair is counted once between the two orders: U1 + U2 = n1 n2.
  lemma {:induction false} PairsOpposite(x: seq<real>, y: seq<real>)
    ensures PairU(x, y) + PairU(y, x) == (|x| * |y|) as real
  {
    PairsPartition(x, y);
  }

  // The rank sum of the values xs of the first sample, against everything pooled.
  lemma {:induction false} RankSumOf(xs: seq<real>, x: seq<real>, y: seq<real>)
    ensures Sum((o: Obs) => FirstRank(Pooled(x, y), o), Tag(xs, true)) ==
      |xs| as real / 2.0 + PairU(xs, x) + PairU(xs, y)
  {
    var all := Pooled(x, y);
    var f := (o: Obs) => FirstRank(all, o);
    if xs != [] {
      assert Tag(xs, true)[1..] == Tag(xs[1..], true);
      RankSumOf(xs[1..], x, y);
      SumAppend((o: Obs) => Win(xs[0], o.v), Tag(x, true), Tag(y, false));
      WinsCount(xs[0], x, true);
      WinsCount(xs[0], y, false);
      assert f(Tag(xs, true)[0]) == 0.5 + Wins(xs[0], Tag(x, true)) + Wins(xs[0], Tag(y, false));
      assert Sum(f, Tag(xs, true)) == f(Tag(xs, true)[0]) + Sum(f, Tag(xs[1..], true));
    }
  }

  lemma {:induction false} SecondRanksDoNotCount(ys: seq<real>, all: seq<Obs>)
    ensures Sum((o: Obs) => FirstRank(all, o), Tag(ys, false)) == 0.0
  {
    var f := (o: Obs) => FirstRank(all, o);
    if ys != [] {
      assert Tag(ys, false)[1..] == Tag(ys[1..], false);
      SecondRanksDoNotCount(ys[1..], all);
      assert Sum(f, Tag(ys, false)) == f(Tag(ys, false)[0]) + Sum(f, Tag(ys[1..], false));
    }
  }

  // U from midranks is U by counting pairs, for all samples, ties and orders the sort may leave.
  lemma {:induction false} RankUCountsPairs(all: seq<Obs>, x: seq<real>, y: seq<real>)
    requires Arranges(all, x, y)
    ensures RankU(all, |x|) == PairU(x, y)
  {
    var pool := Pooled(x, y);
    var f, g := (o: Obs) => FirstRank(all, o), (o: Obs) => FirstRank(pool, o);
    forall o: Obs ensures f(o) == g(o) {
      SumPermutes((q: Obs) => Win(o.v, q.v), all, pool);
    }
    SumSame(f, g, all);
    SumPermutes(g, all, pool);
    SumAppend(g, Tag(x, true), Tag(y, false));
    RankSumOf(x, x, y);
    SecondRanksDoNotCount(y, pool);
    PairsOpposite(x, x);
    assert (|x| * (|x| + 1)) as real == (|x| * |x|) as real + |x| as real;
  }

  // The ranks of the pooled samples sum to N(N+1)/2.
  lemma {:induction false} RanksSum(all: seq<Obs>, x: seq<real>, y: seq<real>)
    requires Arranges(all, x, y)
    ensures Sum((o: Obs) => 0.5 + Wins(o.v, all), all) == (|all| * (|all| + 1)) as real / 2.0
  {
    var vs := seq(|all|, i requires 0 <= i < |all| => all[i].v);
    var t := Tag(vs, true);
    var f, g := (o: Obs) => 0.5 + Wins(o.v, all), (o: Obs) => FirstRank(t, o);
    assert Pooled(vs, []) == t;
    RankSumOf(vs, vs, []);
    NoPairs(vs);
    PairsOpposite(vs, vs);
    SameSums(f, all, g, t) by {
      forall i | 0 <= i < |all| ensures f(all[i]) == g(t[i]) {
        SameSums((o: Obs) => Win(all[i].v, o.v), all, (o: Obs) => Win(all[i].v, o.v), t);
      }
    }
    assert (|vs| * (|vs| + 1)) as real == (|vs| * |vs|) as real + |vs| as real;
  }

  lemma {:induction false} SameSums(f: Obs -> real, a: seq<Obs>, g: Obs -> real, b: seq<Obs>)
    requires |a| == |b| && forall i :: 0 <= i < |a| ==> f(a[i]) == g(b[i])
    ensures Sum(f, a) == Sum(g, b)
  {
    if a != [] {
      SameSums(f, a[1..], g, b[1..]);
    }
  }

  // ------------------------------------------------------------------ the test

  // n1 n2 (n1 + n2 + 1), twelve times the variance of U.
  function Spread(n1: nat, n2: nat): nat {
    n1 * n2 * (n1 + n2 + 1)
  }

  // The p-value: some function of how far U is from its mean and of its variance.
  function PValue(u: real, n1: nat, n2: nat, tail: (real, real) -> real): real {
    tail(Abs(u - (n1 * n2) as real / 2.0), Spread(n1, n2) as real / 12.0)
  }

  // Insertion of one observation after those that are not above it.
  function Insert(o: Obs, s: seq<Obs>): seq<Obs> {
    if s == [] || o.v < s[0].v then [o] + s else [s[0]] + Insert(o, s[1..])
  }

  // A stable sort; the theorems hold for any order of equal values.
  function Sort(s: seq<Obs>): seq<Obs> {
    if s == [] then [] else Insert(s[|s| - 1], Sort(s[..|s| - 1]))
  }

  lemma {:induction false} InsertKeepsAll(o: Obs, s: seq<Obs>)
    ensures multiset(Insert(o, s)) == multiset(s) + multiset{o}
  {
    if !(s == [] || o.v < s[0].v) {
      InsertKeepsAll(o, s[1..]);
      assert s == [s[0]] + s[1..];
    }
  }

  lemma {:induction false} InsertSorts(o: Obs, s: seq<Obs>)
    requires Sorted(s)
    ensures Sorted(Insert(o, s))
    ensures Insert(o, s) != [] && (Insert(o, s)[0] == o || (s != [] && Insert(o, s)[0] == s[0]))
  {
    if !(s == [] || o.v < s[0].v) {
      InsertSorts(o, s[1..]);
      var rest := Insert(o, s[1..]);
      assert s[0].v <= rest[0].v;
      forall i, j | 0 <= i < j < |rest| + 1 ensures ([s[0]] + rest)[i].v <= ([s[0]] + rest)[j].v {
        assert i > 0 ==> rest[i - 1].v <= rest[j - 1].v;
        assert j > 1 ==> rest[0].v <= rest[j - 1].v;
      }
    }
  }

  lemma {:induction false} SortSorts(s: seq<Obs>)
    ensures Sorted(Sort(s))
    decreases |s|
  {
    hide Insert;
    if s != [] {
      SortSorts(s[..|s| - 1]);
      InsertSorts(s[|s| - 1], Sort(s[..|s| - 1]));
    }
  }

  lemma {:induction false} SortArranges(s: seq<Obs>)
    ensures Sorted(Sort(s)) && multiset(Sort(s)) == multiset(s)
    decreases |s|
  {
    hide Insert, Sorted;
    SortSorts(s);
    if s != [] {
      var o, rest := s[|s| - 1], s[..|s| - 1];
      SortArranges(rest);
      InsertKeepsAll(o, Sort(rest));
      assert s == rest + [o];
    }
  }

  method MannWhitneyP(x: seq<real>, y: seq<real>, tail: (real, real) -> real) returns (p: real)
    ensures p == PValue(PairU(x, y), |x|, |y|, tail)
  {
    var all := Sort(Pooled(x, y));
    SortArranges(Pooled(x, y));
    var ranks := Ranks(all);
    var R1 := 0.0;
    ghost var f := (o: Obs) => FirstRank(all, o);
    for i := 0 to |all|
      invariant R1 + Sum(f, all[i..]) == Sum(f, all)
    {
      assert all[i..][1..] == all[i + 1..];
      R1 := R1 + if all[i].first then ranks[i] else 0.0;
    }
    var n1, n2 := |x|, |y|;
    var U := R1 - (n1 * (n1 + 1)) as real / 2.0;
    RankUCountsPairs(all, x, y);
    p := tail(Abs(U - (n1 * n2) as real / 2.0), Spread(n1, n2) as real / 12.0);
  }

  // Swapping the samples changes nothing but the sign of U - mean.
  lemma {:induction false} SwapKeepsP(x: seq<real>, y: seq<real>, tail: (real, real) -> real)
    ensures PairU(y, x) == (|x| * |y|) as real - PairU(x, y)
    ensures PValue(PairU(x, y), |x|, |y|, tail) == PValue(PairU(y, x), |y|, |x|, tail)
  {
    PairsOpposite(x, y);
    assert |x| * |y| == |y| * |x|;
    assert Spread(|x|, |y|) == Spread(|y|, |x|);
  }
}
