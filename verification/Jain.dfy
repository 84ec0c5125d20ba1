// fairness() of dq6-load.js: Jain's index over per-organisation mean latencies, before rounding.

module Jain {
  import opened Options

  type Org = string

  // A row of a load run; rows without a latency are passed over.
  datatype Row = Row(org: Org, lat: Option<real>)

  // ------------------------------------------------------------------ grouping

  function LatsOf(rows: seq<Row>, org: Org): seq<real> {
    if rows == [] then []
    else
      var r := rows[|rows| - 1];
      LatsOf(rows[..|rows| - 1], org) + if r.org == org && r.lat.Some? then [r.lat.value] else []
  }

  // The organisations with a latency, in the order in which the Map meets them.
  function Orgs(rows: seq<Row>): seq<Org> {
    if rows == [] then []
    else
      var r, before := rows[|rows| - 1], Orgs(rows[..|rows| - 1]);
      if r.lat.Some? && r.org !in before then before + [r.org] else before
  }

  predicate Heard(rows: seq<Row>, org: Org) {
    LatsOf(rows, org) != []
  }

  predicate NoRepeat(orgs: seq<Org>) {
    forall i, j :: 0 <= i < j < |orgs| ==> orgs[i] != orgs[j]
  }

  lemma {:induction false} OrgsDoNotRepeat(rows: seq<Row>)
    ensures NoRepeat(Orgs(rows))
    decreases |rows|
  {
    if rows != [] {
      OrgsDoNotRepeat(rows[..|rows| - 1]);
    }
  }

  lemma {:induction false} OrgsHeard(rows: seq<Row>, org: Org)
    ensures org in Orgs(rows) <==> Heard(rows, org)
    decreases |rows|
  {
    if rows != [] {
      OrgsHeard(rows[..|rows| - 1], org);
    }
  }

  function Sum(xs: seq<real>): real {
    if xs == [] then 0.0 else Sum(xs[..|xs| - 1]) + xs[|xs| - 1]
  }

  function Square(x: real): (s: real)
    ensures s >= 0.0
    ensures s == 0.0 <==> x == 0.0
  {
    var s := x * x;
    if x == 0.0 then s else SquareSign(x, s); s
  }

  lemma {:induction false} SquareSign(x: real, s: real)
    requires x != 0.0 && s == x * x
    ensures s > 0.0
  {
    var y := if x > 0.0 then x else -x;
    calc {
      s;
    == y * y;
    >  { PositiveSquare(y); }
      0.0;
    }
  }

  lemma {:induction false} PositiveSquare(y: real)
    requires y > 0.0
    ensures y * y > 0.0
  {
  }

  function Squares(xs: seq<real>): real {
    if xs == [] then 0.0 else Squares(xs[..|xs| - 1]) + Square(xs[|xs| - 1])
  }

  // The mean of an empty list does not occur: an organisation is listed with its first latency.
  function Mean(xs: seq<real>): real {
    if xs == [] then 0.0 else Sum(xs) / |xs| as real
  }

  function Means(rows: seq<Row>): (m: seq<real>)
    ensures |m| == |Orgs(rows)|
  {
    var orgs := Orgs(rows);
    seq(|orgs|, i requires 0 <= i < |orgs| => Mean(LatsOf(rows, orgs[i])))
  }

  // No organisation: null. All means zero: 0/0, which is not a number.
  datatype Index = Null | NotANumber | Jain(value: real)

  function IndexOf(means: seq<real>): Index {
    if means == [] then Null
    else if Squares(means) == 0.0 then NotANumber
    else Jain(Square(Sum(means)) / (|means| as real * Squares(means)))
  }

  method SumOf(xs: seq<real>) returns (s: real)
    ensures s == Sum(xs)
  {
    s := 0.0;
    for i := 0 to |xs|
      invariant s == Sum(xs[..i])
    {
      assert xs[..i + 1][..i] == xs[..i];
      s := s + xs[i];
    }
    assert xs[..|xs|] == xs;
  }

  method Group(rows: seq<Row>) returns (orgs: seq<Org>, lats: map<Org, seq<real>>)
    ensures orgs == Orgs(rows) && forall g :: g in orgs <==> g in lats
    ensures forall g :: g in lats ==> lats[g] == LatsOf(rows, g) != []
  {
    orgs, lats := [], map[];
    for i := 0 to |rows|
      invariant orgs == Orgs(rows[..i]) && forall g :: g in orgs <==> g in lats
      invariant forall g :: g in lats ==> lats[g] == LatsOf(rows[..i], g) != []
    {
      assert rows[..i + 1][..i] == rows[..i];
      var r := rows[i];
      OrgsHeard(rows[..i], r.org);
      if r.lat.Some? {
        if r.org !in lats {
          orgs := orgs + [r.org];
          lats := lats[r.org := []];
        }
        lats := lats[r.org := lats[r.org] + [r.lat.value]];
      }
    }
    assert rows[..|rows|] == rows;
  }

  method Fairness(rows: seq<Row>) returns (index: Index)
    ensures index == IndexOf(Means(rows))
  {
    hide Orgs, LatsOf, Sum, Squares;
    var orgs, lats := Group(rows);
    var means: seq<real> := [];
    for i := 0 to |orgs|
      invariant means == Means(rows)[..i]
    {
      var g := orgs[i];
      assert g in orgs;
      var total := SumOf(lats[g]);
      means := means + [total / |lats[g]| as real];
    }
    assert Means(rows)[..|orgs|] == Means(rows);
    if means == [] {
      return Null;
    }
    var sum := SumOf(means);
    var sq := SquaresOf(means);
    if sq == 0.0 {
      assert IndexOf(means) == NotANumber;
      return NotANumber;
    }
    index := Jain(sum * sum / (|means| as real * sq));
    assert index == IndexOf(means);
  }

  method SquaresOf(xs: seq<real>) returns (s: real)
    ensures s == Squares(xs)
  {
    s := 0.0;
    for i := 0 to |xs|
      invariant s == Squares(xs[..i])
    {
      assert xs[..i + 1][..i] == xs[..i];
      s := s + xs[i] * xs[i];
    }
    assert xs[..|xs|] == xs;
  }

  // ------------------------------------------------------------------ the bounds

  predicate AllEqual(xs: seq<real>) {
    forall i :: 0 <= i < |xs| ==> xs[i] == xs[0]
  }

  predicate NonNegative(xs: seq<real>) {
    forall i :: 0 <= i < |xs| ==> xs[i] >= 0.0
  }

  // At most one of the numbers is not zero.
  predicate Alone(xs: seq<real>) {
    forall i, j :: 0 <= i < j < |xs| ==> xs[i] == 0.0 || xs[j] == 0.0
  }

  // The squared distances of all numbers to y, and of all pairs of numbers.
  function Distances(xs: seq<real>, y: real): (d: real)
    ensures d >= 0.0
    ensures d == 0.0 <==> forall i :: 0 <= i < |xs| ==> xs[i] == y
  {
    if xs == [] then 0.0
    else
      var x := xs[|xs| - 1];
      Distances(xs[..|xs| - 1], y) + Square(x - y)
  }

  function Spread(xs: seq<real>): (d: real)
    ensures d >= 0.0
    ensures d == 0.0 <==> AllEqual(xs)
  {
    if xs == [] then 0.0
    else Spread(xs[..|xs| - 1]) + Distances(xs[..|xs| - 1], xs[|xs| - 1])
  }

  lemma {:induction false} DistanceStep(n: real, s: real, q: real, x: real, y: real)
    ensures q - 2.0 * y * s + n * (y * y) + Square(x - y) ==
            (q + Square(x)) - 2.0 * y * (s + x) + (n + 1.0) * (y * y)
  {
    assert (x - y) * (x - y) == x * x - 2.0 * y * x + y * y;
    assert 2.0 * y * (s + x) == 2.0 * y * s + 2.0 * y * x;
    assert (n + 1.0) * (y * y) == n * (y * y) + y * y;
  }

  lemma {:induction false} DistancesExpand(xs: seq<real>, y: real)
    ensures Distances(xs, y) == Squares(xs) - 2.0 * y * Sum(xs) + |xs| as real * (y * y)
    decreases |xs|
  {
    hide Square;
    if xs == [] {
      assert 2.0 * y * 0.0 == 0.0 && 0.0 * (y * y) == 0.0;
    } else {
      var init, x := xs[..|xs| - 1], xs[|xs| - 1];
      DistancesExpand(init, y);
      assert |xs| as real == |init| as real + 1.0;
      DistanceStep(|init| as real, Sum(init), Squares(init), x, y);
    }
  }

  lemma {:induction false} LagrangeStep(n: real, s: real, q: real, y: real)
    ensures (n + 1.0) * (q + Square(y)) ==
            (n * q - Square(s)) + Square(s + y) + (q - 2.0 * y * s + n * (y * y))
  {
    assert (n + 1.0) * (q + y * y) == n * q + n * (y * y) + q + y * y;
    assert (s + y) * (s + y) == s * s + 2.0 * y * s + y * y;
  }

  // n times the sum of squares exceeds the square of the sum by the squared distances of the pairs.
  lemma {:induction false} Lagrange(xs: seq<real>)
    ensures |xs| as real * Squares(xs) == Square(Sum(xs)) + Spread(xs)
    decreases |xs|
  {
    hide Distances, AllEqual, Square;
    if xs == [] {
      assert 0.0 * Squares(xs) == 0.0;
    } else {
      var init, y := xs[..|xs| - 1], xs[|xs| - 1];
      Lagrange(init);
      DistancesExpand(init, y);
      var n, s, q := |init| as real, Sum(init), Squares(init);
      assert |xs| as real == n + 1.0;
      LagrangeStep(n, s, q, y);
      assert Squares(xs) == q + Square(y) && Sum(xs) == s + y;
    }
  }

  lemma {:induction false} SumSign(xs: seq<real>)
    requires NonNegative(xs)
    ensures Sum(xs) >= 0.0
    ensures Sum(xs) == 0.0 <==> forall i :: 0 <= i < |xs| ==> xs[i] == 0.0
    decreases |xs|
  {
    if xs != [] {
      SumSign(xs[..|xs| - 1]);
    }
  }

  lemma {:induction false} SquaresSign(xs: seq<real>)
    ensures Squares(xs) >= 0.0
    ensures Squares(xs) == 0.0 <==> forall i :: 0 <= i < |xs| ==> xs[i] == 0.0
    decreases |xs|
  {
    if xs != [] {
      SquaresSign(xs[..|xs| - 1]);
    }
  }

  lemma {:induction false} ProductSign(x: real, y: real)
    requires x >= 0.0 && y >= 0.0
    ensures x * y >= 0.0 && (x * y == 0.0 <==> x == 0.0 || y == 0.0)
  {
    if x > 0.0 && y > 0.0 {
      assert x * y > 0.0;
    }
  }

  lemma {:induction false} SquareOfPair(s: real, y: real)
    ensures Square(s + y) == Square(s) + 2.0 * (s * y) + Square(y)
  {
    assert (s + y) * (s + y) == s * s + 2.0 * (s * y) + y * y;
  }

  // The square of a sum of non-negative numbers is at least the sum of the squares.
  lemma {:induction false} SquareOfSum(xs: seq<real>)
    requires NonNegative(xs)
    ensures Square(Sum(xs)) >= Squares(xs)
    ensures Square(Sum(xs)) == Squares(xs) <==> Alone(xs)
    decreases |xs|
  {
    hide Square, Alone;
    if xs == [] {
      AloneEmpty();
      assert Square(0.0) == 0.0;
    } else {
      var init, y := xs[..|xs| - 1], xs[|xs| - 1];
      SquareOfSum(init);
      SumSign(init);
      SquareOfPair(Sum(init), y);
      ProductSign(Sum(init), y);
      AloneStep(init, y);
      assert xs == init + [y];
    }
  }

  lemma {:induction false} AloneEmpty()
    ensures Alone([])
  {
  }

  lemma {:induction false} AloneStep(init: seq<real>, y: real)
    ensures Alone(init + [y]) <==> Alone(init) && (y == 0.0 || forall i :: 0 <= i < |init| ==> init[i] == 0.0)
  {
    var xs := init + [y];
    assert xs[|init|] == y;
    forall i | 0 <= i < |init|
      ensures xs[i] == init[i]
    {
    }
  }

  lemma {:induction false} QuotientBounds(a: real, b: real)
    requires b > 0.0
    ensures a / b <= 1.0 <==> a <= b
    ensures a / b == 1.0 <==> a == b
  {
    assert a / b * b == a;
  }

  lemma {:induction false} InverseBound(a: real, n: real, q: real)
    requires n > 0.0 && q > 0.0
    ensures a / (n * q) >= 1.0 / n <==> a >= q
    ensures a / (n * q) == 1.0 / n <==> a == q
  {
    ProductSign(n, q);
    var x, y := a / (n * q), 1.0 / n;
    assert x * (n * q) == a;
    assert y * n == 1.0 && y * (n * q) == (y * n) * q;
    if x >= y {
      assert (x - y) * (n * q) >= 0.0;
    } else {
      assert (y - x) * (n * q) > 0.0;
    }
  }

  // Jain's index of any means not all zero is at most 1, and is 1 exactly when they are all equal; of
  // non-negative means it is at least 1/n, and is 1/n exactly when one organisation alone has waited.
  lemma {:induction false} IndexBounds(means: seq<real>)
    requires means != []
    ensures IndexOf(means).NotANumber? <==> forall i :: 0 <= i < |means| ==> means[i] == 0.0
    ensures IndexOf(means).Jain? ==>
              && IndexOf(means).value <= 1.0
              && (IndexOf(means).value == 1.0 <==> AllEqual(means))
    ensures IndexOf(means).Jain? && NonNegative(means) ==>
              && IndexOf(means).value >= 1.0 / |means| as real
              && (IndexOf(means).value == 1.0 / |means| as real <==> Alone(means))
  {
    hide Sum, Squares, Square, Spread, AllEqual, Alone, NonNegative;
    SquaresSign(means);
    if IndexOf(means).Jain? {
      var n, q, a := |means| as real, Squares(means), Square(Sum(means));
      Lagrange(means);
      ProductSign(n, q);
      QuotientBounds(a, n * q);
      if NonNegative(means) {
        SquareOfSum(means);
        InverseBound(a, n, q);
      }
    }
  }

  // ------------------------------------------------------------------ rows

  lemma {:induction false} LatsAreRows(rows: seq<Row>, org: Org, x: real)
    ensures x in LatsOf(rows, org) <==> Row(org, Some(x)) in rows
    decreases |rows|
  {
    if rows != [] {
      LatsAreRows(rows[..|rows| - 1], org, x);
      assert rows == rows[..|rows| - 1] + [rows[|rows| - 1]];
    }
  }

  lemma {:induction false} MeanSign(xs: seq<real>)
    requires xs != [] && NonNegative(xs)
    ensures Mean(xs) >= 0.0
    ensures Mean(xs) == 0.0 <==> forall i :: 0 <= i < |xs| ==> xs[i] == 0.0
  {
    SumSign(xs);
    assert Mean(xs) * |xs| as real == Sum(xs);
  }

  predicate Waited(rows: seq<Row>) {
    forall r :: r in rows && r.lat.Some? ==> r.lat.value >= 0.0
  }

  // A mean is not negative, and is zero exactly when all latencies of its organisation are.
  lemma {:induction false} MeansSigns(rows: seq<Row>, i: nat)
    requires Waited(rows) && i < |Orgs(rows)|
    ensures Means(rows)[i] >= 0.0
    ensures Means(rows)[i] == 0.0 <==> forall x :: x in LatsOf(rows, Orgs(rows)[i]) ==> x == 0.0
  {
    hide Orgs, LatsOf, Mean, Sum;
    var g := Orgs(rows)[i];
    assert g in Orgs(rows);
    OrgsHeard(rows, g);
    assert LatsOf(rows, g) != [] by { assert Heard(rows, g); }
    var xs := LatsOf(rows, g);
    forall i | 0 <= i < |xs| ensures xs[i] >= 0.0 { LatsAreRows(rows, g, xs[i]); }
    MeanSign(xs);
    assert forall i :: 0 <= i < |xs| ==> xs[i] in xs;
  }

  predicate AllZero(rows: seq<Row>) {
    forall r :: r in rows ==> r.lat == None || r.lat == Some(0.0)
  }

  lemma {:induction false} ZeroMeansZeroRows(rows: seq<Row>)
    requires Waited(rows)
    ensures AllZero(rows) <==> forall i :: 0 <= i < |Orgs(rows)| ==> Means(rows)[i] == 0.0
  {
    hide Orgs, LatsOf, Means;
    var orgs := Orgs(rows);
    forall i | 0 <= i < |orgs| && AllZero(rows)
      ensures Means(rows)[i] == 0.0
    {
      MeansSigns(rows, i);
      forall x | x in LatsOf(rows, orgs[i]) ensures x == 0.0 {
        LatsAreRows(rows, orgs[i], x);
        assert Row(orgs[i], Some(x)).lat == Some(x);
      }
    }
    if forall i :: 0 <= i < |orgs| ==> Means(rows)[i] == 0.0 {
      forall r | r in rows && r.lat.Some?
        ensures r.lat.value == 0.0
      {
        RowIsHeard(rows, r);
        var i :| 0 <= i < |orgs| && orgs[i] == r.org;
        MeansSigns(rows, i);
      }
    }
  }

  lemma {:induction false} RowIsHeard(rows: seq<Row>, r: Row)
    requires r in rows && r.lat.Some?
    ensures r.org in Orgs(rows) && r.lat.value in LatsOf(rows, r.org)
  {
    LatsAreRows(rows, r.org, r.lat.value);
    OrgsHeard(rows, r.org);
  }

  // An organisation in the list has a row with a latency.
  lemma {:induction false} HeardOf(rows: seq<Row>)
    requires Orgs(rows) != []
    ensures exists r :: r in rows && r.lat.Some?
  {
    var g := Orgs(rows)[0];
    OrgsHeard(rows, g);
    var x := LatsOf(rows, g)[0];
    LatsAreRows(rows, g, x);
    assert Row(g, Some(x)) in rows;
  }

  // For latencies that are not negative, the index is null exactly when no row has a latency, is not a number
  // exactly when some do and all of them are zero, and otherwise lies between 1/n and 1, n being the number of
  // organisations heard of.
  lemma {:induction false} FairnessBounds(rows: seq<Row>)
    requires Waited(rows)
    ensures var index := IndexOf(Means(rows));
            && (index.Null? <==> forall r :: r in rows ==> r.lat.None?)
            && (!index.Jain? <==> AllZero(rows))
            && (index.Jain? ==> 1.0 / |Orgs(rows)| as real <= index.value <= 1.0)
  {
    hide Orgs, LatsOf, Mean, Sum, Squares, AllEqual, Alone;
    var means := Means(rows);
    forall i | 0 <= i < |means|
      ensures means[i] >= 0.0
    {
      MeansSigns(rows, i);
    }
    ZeroMeansZeroRows(rows);
    if means == [] {
      forall r | r in rows ensures r.lat.None? {
        if r.lat.Some? { RowIsHeard(rows, r); }
      }
    } else {
      HeardOf(rows);
      IndexBounds(means);
    }
  }

  // ------------------------------------------------------------------ the order of rows does not matter

  function Without(rows: seq<Row>, j: nat): seq<Row>
    requires j < |rows|
  {
    rows[..j] + rows[j + 1..]
  }

  function One(r: Row, org: Org): seq<real> {
    if r.org == org && r.lat.Some? then [r.lat.value] else []
  }

  lemma {:induction false} WithoutRow(rows: seq<Row>, j: nat, org: Org)
    requires j < |rows|
    ensures |LatsOf(rows, org)| == |LatsOf(Without(rows, j), org)| + |One(rows[j], org)|
    ensures Sum(LatsOf(rows, org)) == Sum(LatsOf(Without(rows, j), org)) + Sum(One(rows[j], org))
    decreases |rows|
  {
    var n := |rows| - 1;
    var last, init := One(rows[n], org), rows[..n];
    assert LatsOf(rows, org) == LatsOf(init, org) + last;
    SumAppend(LatsOf(init, org), last);
    if j == n {
      assert Without(rows, j) == init;
    } else {
      WithoutRow(init, j, org);
      var w := Without(rows, j);
      assert w[..n - 1] == Without(init, j) && w[n - 1] == rows[n];
      assert LatsOf(w, org) == LatsOf(Without(init, j), org) + last;
      SumAppend(LatsOf(Without(init, j), org), last);
    }
  }

  lemma {:induction false} SumAppend(a: seq<real>, b: seq<real>)
    ensures Sum(a + b) == Sum(a) + Sum(b)
    decreases |b|
  {
    if b == [] {
      assert a + b == a;
    } else {
      assert (a + b)[..|a + b| - 1] == a + b[..|b| - 1];
      SumAppend(a, b[..|b| - 1]);
    }
  }

  lemma {:induction false} SameRowsSameLats(a: seq<Row>, b: seq<Row>, org: Org)
    requires multiset(a) == multiset(b)
    ensures |LatsOf(a, org)| == |LatsOf(b, org)| && Sum(LatsOf(a, org)) == Sum(LatsOf(b, org))
    decreases |a|
  {
    assert |multiset(a)| == |a| && |multiset(b)| == |b|;
    if a != [] {
      var n := |a| - 1;
      assert a[n] in multiset(a);
      var j :| 0 <= j < |b| && b[j] == a[n];
      Removed(a, n);
      Removed(b, j);
      assert Without(a, n) == a[..n];
      WithoutRow(a, n, org);
      WithoutRow(b, j, org);
      SameRowsSameLats(a[..n], Without(b, j), org);
    }
  }

  lemma {:induction false} Removed(rows: seq<Row>, j: nat)
    requires j < |rows|
    ensures multiset(Without(rows, j)) == multiset(rows) - multiset{rows[j]}
  {
    assert rows == rows[..j] + [rows[j]] + rows[j + 1..];
  }

  lemma {:induction false} InWithout(b: seq<Org>, j: nat, g: Org)
    requires j < |b| && NoRepeat(b)
    ensures g in b[..j] + b[j + 1..] <==> g in b && g != b[j]
    ensures NoRepeat(b[..j] + b[j + 1..])
  {
    var rest := b[..j] + b[j + 1..];
    if g in b && g != b[j] {
      var k :| 0 <= k < |b| && b[k] == g;
      assert rest[if k < j then k else k - 1] == g;
    }
  }

  lemma {:induction false} HasMember(b: seq<Org>)
    requires b != []
    ensures exists g :: g in b
  {
    assert b[0] in b;
  }

  // Sums over the same organisations in two orders.
  lemma {:induction false} SameOrgsSameSums(f: map<Org, real>, a: seq<Org>, b: seq<Org>)
    requires forall g :: g in a ==> g in f
    requires forall g :: g in a <==> g in b
    requires NoRepeat(a) && NoRepeat(b)
    ensures |a| == |b|
    ensures Sum(Image(f, a)) == Sum(Image(f, b)) && Squares(Image(f, a)) == Squares(Image(f, b))
    decreases |a|
  {
    hide NoRepeat;
    if a == [] {
      if b != [] {
        HasMember(b);
      }
    } else {
      var n := |a| - 1;
      assert a[n] in a;
      var j :| 0 <= j < |b| && b[j] == a[n];
      var init, rest := a[..n], b[..j] + b[j + 1..];
      assert init == a[..n] + a[n + 1..];
      forall g
        ensures g in init <==> g in rest
      {
        InWithout(a, n, g);
        InWithout(b, j, g);
      }
      InWithout(a, n, a[n]);
      InWithout(b, j, a[n]);
      SameOrgsSameSums(f, init, rest);
      ImageWithout(f, b, j);
      assert Image(f, a)[..n] == Image(f, init);
    }
  }

  function Image(f: map<Org, real>, orgs: seq<Org>): (m: seq<real>)
    requires forall g :: g in orgs ==> g in f
    ensures |m| == |orgs|
  {
    seq(|orgs|, i requires 0 <= i < |orgs| => f[orgs[i]])
  }

  lemma {:induction false} ImageWithout(f: map<Org, real>, b: seq<Org>, j: nat)
    requires j < |b| && forall g :: g in b ==> g in f
    ensures var rest := b[..j] + b[j + 1..];
            && Sum(Image(f, b)) == Sum(Image(f, rest)) + f[b[j]]
            && Squares(Image(f, b)) == Squares(Image(f, rest)) + Square(f[b[j]])
    decreases |b|
  {
    var n := |b| - 1;
    var rest := b[..j] + b[j + 1..];
    assert Image(f, b)[..n] == Image(f, b[..n]);
    if j == n {
      assert rest == b[..n];
    } else {
      ImageWithout(f, b[..n], j);
      assert rest[..n - 1] == b[..n][..j] + b[..n][j + 1..];
      assert Image(f, rest)[..n - 1] == Image(f, rest[..n - 1]);
    }
  }

  lemma {:induction false} MeansAreAnImage(rows: seq<Row>, f: map<Org, real>)
    requires forall g :: g in Orgs(rows) ==> g in f && f[g] == Mean(LatsOf(rows, g))
    ensures Means(rows) == Image(f, Orgs(rows))
  {
    hide Orgs, LatsOf, Mean;
  }

  lemma {:induction false} SameOrg(a: seq<Row>, b: seq<Row>, g: Org)
    requires multiset(a) == multiset(b)
    ensures Mean(LatsOf(a, g)) == Mean(LatsOf(b, g)) && (g in Orgs(a) <==> g in Orgs(b))
  {
    hide Orgs, LatsOf, Sum;
    SameRowsSameLats(a, b, g);
    OrgsHeard(a, g);
    OrgsHeard(b, g);
  }

  // The index is a matter of the rows, not of their order.
  lemma {:induction false} OrderOfRowsIsFree(a: seq<Row>, b: seq<Row>)
    requires multiset(a) == multiset(b)
    ensures IndexOf(Means(a)) == IndexOf(Means(b))
  {
    hide Orgs, LatsOf, Sum, Squares, NoRepeat, Means, Image, Mean;
    var f := map g | g in Orgs(a) :: Mean(LatsOf(a, g));
    forall g
      ensures Mean(LatsOf(a, g)) == Mean(LatsOf(b, g)) && (g in Orgs(a) <==> g in Orgs(b))
    {
      SameOrg(a, b, g);
    }
    OrgsDoNotRepeat(a);
    OrgsDoNotRepeat(b);
    SameOrgsSameSums(f, Orgs(a), Orgs(b));
    MeansAreAnImage(a, f);
    MeansAreAnImage(b, f);
  }
}
