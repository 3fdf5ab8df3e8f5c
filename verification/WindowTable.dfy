/**
 The table behind ScalarBaseMult (crypto/gensecp256k1.go): 256 multiples of the base point for each
 byte of a scalar, built from the repeated doublings of the base point.
 */
module WindowTable {
  import opened Common
  import opened Power
  import opened Field
  import opened FieldElement
  import opened FieldVals
  import opened FieldRing
  import opened Curve
  import opened Jacobian
  import opened Group
  import opened Naf
  import opened SplitScalar
  import opened ScalarMult

  /** Entry i is 2^i times the base point. */
  ghost predicate Doublings(d: seq<Entry>, g: Point) {
    forall i :: 0 <= i < |d| ==> EntryHolds(d[i], Times(Pow2(i), g))
  }

  /** getDoublingPoints: G, 2G, 4G and so on, each kept as the limbs the loop left it in. */
  method GetDoublingPoints(gx: int, gy: int) returns (d: seq<Entry>)
    requires GroupLaw() && OnCurve(Affine(gx, gy))
    ensures |d| == 256 && Doublings(d, Affine(gx, gy))
  {
    assert Pow2(0) == 1;
    hide *;
    ghost var g := Affine(gx, gy);
    var t := NewAffine(gx, gy);
    TimesOne(g);
    d := [];
    NoDoublings(g);
    for i := 0 to 256
      invariant t.x != t.y && t.x != t.z && t.y != t.z && fresh(Objects(t))
      invariant |d| == i && Doublings(d, g) && Holds(t, Times(Pow2(i), g))
    {
      var e := Entry(t.x.n, t.y.n, t.z.n);
      EntryOf(t, e, Times(Pow2(i), g));
      Append(d, e, g);
      d := d + [e];
      Double(t, Pow2(i), g);
      NextPow2(i);
    }
  }

  lemma NoDoublings(g: Point)
    ensures Doublings([], g)
  {
  }

  lemma Append(d: seq<Entry>, e: Entry, g: Point)
    requires Doublings(d, g) && EntryHolds(e, Times(Pow2(|d|), g))
    ensures Doublings(d + [e], g)
  {
    hide EntryHolds, Times, Pow2;
  }

  lemma NextPow2(i: nat)
    ensures Pow2(i + 1) == 2 * Pow2(i)
  {
  }

  method NewAffine(gx: int, gy: int) returns (t: Triple)
    requires OnCurve(Affine(gx, gy))
    ensures fresh(Objects(t)) && t.x != t.y && t.x != t.z && t.y != t.z && Holds(t, Affine(gx, gy))
  {
    var x := FromBig(gx);
    var y := FromBig(gy);
    IsMono(y, 1, 2, gy);
    AffineRepresents(x, y, Affine(gx, gy));
    hide *;
    var px := new FieldVal(x);
    var py := new FieldVal(y);
    var pz := new FieldVal(ONE);
    t := Triple(px, py, pz);
    HoldsIntro(t, Affine(gx, gy));
  }

  lemma HoldsIntro(t: Triple, p: Point)
    requires Coordinates(t.x.n, t.y.n, t.z.n) && Represents(t.x.n, t.y.n, t.z.n, p)
    ensures Holds(t, p)
  {
  }

  method Double(t: Triple, ghost v: int, ghost g: Point)
    requires t.x != t.y && t.x != t.z && t.y != t.z
    requires GroupLaw() && OnCurve(g) && Holds(t, Times(v, g))
    modifies Objects(t)
    ensures Holds(t, Times(2 * v, g))
  {
    ghost var p := Times(v, g);
    TimesOnCurve(v, g);
    TimesAdd(v, v, g);
    assert v + v == 2 * v;
    PlusIsSum(p, p);
    GroupFermat();
    hide OnCurve, GroupLaw, Times, Fermat, IsSum, Coordinates, Represents;
    DoubleJacobian(t.x, t.y, t.z, t.x, t.y, t.z, p, Times(2 * v, g));
  }

  /** SerializedBytePoints, before the limbs are written out as bytes. */
  method BytePoints(gx: int, gy: int) returns (table: seq<seq<Entry>>)
    requires GroupLaw() && OnCurve(Affine(gx, gy))
    ensures TableCorrect(table, Affine(gx, gy))
  {
    ghost var g := Affine(gx, gy);
    var d := GetDoublingPoints(gx, gy);
    table := [];
    hide *;
    for w := 0 to 32
      invariant |d| == 256 && Doublings(d, g)
      invariant |table| == w && forall j :: 0 <= j < w ==> RowCorrect(table[j], j, g)
    {
      var row: seq<Entry>;
      row, d := Row(d, w, g);
      table := table + [row];
    }
    RowsCorrect(table, g);
  }

  ghost predicate RowCorrect(row: seq<Entry>, w: int, g: Point)
    requires 0 <= w < 32
  {
    |row| == 256 && forall i :: 0 <= i < 256 ==> EntryHolds(row[i], Times(i * Weight(31 - w), g))
  }

  lemma RowsCorrect(table: seq<seq<Entry>>, g: Point)
    requires |table| == 32 && forall j :: 0 <= j < 32 ==> RowCorrect(table[j], j, g)
    ensures TableCorrect(table, g)
  {
    hide EntryHolds, Times, Weight;
    forall w | 0 <= w < 32
      ensures |table[w]| == 256
      ensures forall i {:trigger table[w][i]} :: 0 <= i < 256 ==> EntryHolds(table[w][i], Times(i * Weight(31 - w), g))
    {
      assert RowCorrect(table[w], w, g);
    }
  }

  /** All 256 points of one window. Adding normalizes the doublings in place, which keeps their points. */
  method Row(d0: seq<Entry>, w: nat, ghost g: Point) returns (row: seq<Entry>, d: seq<Entry>)
    requires w < 32 && GroupLaw() && OnCurve(g) && |d0| == 256 && Doublings(d0, g)
    ensures RowCorrect(row, w, g) && |d| == 256 && Doublings(d, g)
  {
    d := d0;
    row := [];
    hide EntryHolds, Times, Weight, GroupLaw, OnCurve, Doublings;
    for i := 0 to 256
      invariant |d| == 256 && Doublings(d, g)
      invariant |row| == i && forall j :: 0 <= j < i ==> EntryHolds(row[j], Times(j * Weight(31 - w), g))
    {
      var e: Entry;
      e, d := WindowPoint(d, w, i, g);
      row := row + [e];
    }
  }

  /** One point of a window: the sum of the doublings its index has bits for. */
  method WindowPoint(d0: seq<Entry>, w: nat, i: nat, ghost g: Point) returns (e: Entry, d: seq<Entry>)
    requires w < 32 && i < 256 && GroupLaw() && OnCurve(g) && |d0| == 256 && Doublings(d0, g)
    ensures EntryHolds(e, Times(i * Weight(31 - w), g)) && |d| == 256 && Doublings(d, g)
  {
    hide *;
    var start := 8 * (32 - w - 1);
    d := d0;
    ghost var unit := Weight(31 - w);
    WeightPow2(31 - w);
    var t := NewInfinity();
    LowAll(i);
    ZeroMultiple(unit, g);
    for j := 0 to 8
      invariant t.x != t.y && t.x != t.z && t.y != t.z && fresh(Objects(t))
      invariant |d| == 256 && Doublings(d, g)
      invariant Holds(t, Times(Low(i, j) * unit, g))
    {
      d := AddBit(t, d, start, i, j, unit, g);
    }
    e := Entry(t.x.n, t.y.n, t.z.n);
    EntryOf(t, e, Times(Low(i, 8) * unit, g));
  }

  lemma ZeroMultiple(unit: int, g: Point)
    ensures Times(0 * unit, g) == Infinity
  {
  }

  /** The lowest j bits of i. */
  ghost function Low(i: nat, j: nat): nat { i % Pow2(j) }

  lemma LowAll(i: nat)
    requires i < 256
    ensures Low(i, 8) == i && Low(i, 0) == 0
  {
    Pow2Of8();
  }

  lemma EntryOf(t: Triple, e: Entry, p: Point)
    requires Holds(t, p) && e == Entry(t.x.n, t.y.n, t.z.n)
    ensures EntryHolds(e, p)
  {
  }

  /** i >> j & 1 decides whether doubling j of the window is added. */
  method AddBit(t: Triple, d0: seq<Entry>, start: nat, i: nat, j: nat, ghost unit: int, ghost g: Point)
    returns (d: seq<Entry>)
    requires t.x != t.y && t.x != t.z && t.y != t.z && GroupLaw() && OnCurve(g) && j < 8
    requires |d0| == 256 && start + 8 <= 256 && Doublings(d0, g) && unit == Pow2(start)
    requires Holds(t, Times(Low(i, j) * unit, g))
    modifies Objects(t)
    ensures |d| == 256 && Doublings(d, g)
    ensures Holds(t, Times(Low(i, j + 1) * unit, g))
  {
    hide Times, GroupLaw, OnCurve, Doublings, Holds, Pow2;
    BitFacts(i, j);
    d := d0;
    if ShiftRight(i, j) % 2 == 1 {
      Pow2Add(start, j);
      assert (Low(i, j) + Pow2(j)) * unit == Low(i, j) * unit + Pow2(start + j);
      d := AddDoubling(t, d, start + j, Low(i, j) * unit, g);
    }
  }

  function ShiftRight(i: nat, j: nat): (r: nat)
    ensures r == i / Pow2(j)
  {
    BitFacts(i, j);
    if j == 0 then assert Pow2(0) == 1; i else BitFacts(i, j - 1); ShiftRight(i, j - 1) / 2
  }

  lemma Pow2Of8()
    ensures Pow2(8) == 256
  {
    assert Pow2(4) == 16;
    Pow2Add(4, 4);
  }

  /** Adds 2^n times the base point, and stores the doubling back as the addition left it. */
  method AddDoubling(t: Triple, d0: seq<Entry>, n: nat, ghost v: int, ghost g: Point) returns (d: seq<Entry>)
    requires t.x != t.y && t.x != t.z && t.y != t.z && GroupLaw() && OnCurve(g)
    requires |d0| == 256 && n < 256 && Doublings(d0, g) && Holds(t, Times(v, g))
    modifies Objects(t)
    ensures |d| == 256 && Doublings(d, g)
    ensures Holds(t, Times(v + Pow2(n), g))
  {
    hide EntryHolds, Times, GroupLaw, OnCurve, Coordinates, Represents, Pow2, Holds;
    var e := d0[n];
    assert EntryHolds(e, Times(Pow2(n), g));
    var e2 := AddStored(t, e, v, Pow2(n), g);
    d := d0[n := e2];
  }

  method AddStored(t: Triple, e: Entry, ghost v: int, ghost n: int, ghost g: Point) returns (e2: Entry)
    requires t.x != t.y && t.x != t.z && t.y != t.z
    requires GroupLaw() && OnCurve(g) && Holds(t, Times(v, g)) && EntryHolds(e, Times(n, g))
    modifies Objects(t)
    ensures Holds(t, Times(v + n, g)) && EntryHolds(e2, Times(n, g))
  {
    TimesAdd(v, n, g);
    TimesOnCurve(v, g);
    TimesOnCurve(n, g);
    PlusIsSum(Times(v, g), Times(n, g));
    GroupFermat();
    hide Coordinates, Represents, IsSum, OnCurve, Fermat, Times, GroupLaw;
    var ex := new FieldVal(e.x);
    var ey := new FieldVal(e.y);
    var ez := new FieldVal(e.z);
    AddJacobian(t.x, t.y, t.z, ex, ey, ez, t.x, t.y, t.z, Times(v, g), Times(n, g), Times(v + n, g));
    e2 := Entry(ex.n, ey.n, ez.n);
  }

  /** The generated table makes ScalarBaseMult agree with the group, with nothing assumed of the table. */
  method BaseMultiple(gx: int, gy: int, k: seq<int>) returns (x: int, y: int)
    requires AreBytes(k) && GroupLaw() && OnCurve(Affine(gx, gy)) && Times(N, Affine(gx, gy)) == Infinity
    ensures (x, y) == Encoded(Times(BigEndian(k), Affine(gx, gy)))
  {
    var table := BytePoints(gx, gy);
    x, y := ScalarBaseMult(k, table, Affine(gx, gy));
  }
}
