/** The Keccak-p[1600] rounds, step by step as sections 3.2 and 3.3 of FIPS 202
    define them, on a state of 25 lanes: a_xy is the lane A[x, y]. */
module KeccakSpec {

  datatype State<T> = St(
    a00: T, a01: T, a02: T, a03: T, a04: T,
    a10: T, a11: T, a12: T, a13: T, a14: T,
    a20: T, a21: T, a22: T, a23: T, a24: T,
    a30: T, a31: T, a32: T, a33: T, a34: T,
    a40: T, a41: T, a42: T, a43: T, a44: T)

  /** The operations on lanes that the steps are written in, as the C code writes
      them in terms of XOR64, AND64, OR64, NOT64 and ROL64. */
  datatype Ops<!T> = Ops(xor: (T, T) -> T, and: (T, T) -> T, or: (T, T) -> T, not: T -> T, rol: (T, bv64) -> T)

  // --- theta (section 3.2.1) --------------------------------------------------

  function Xor5<T>(o: Ops<T>, a: T, b: T, c: T, d: T, e: T): T {
    o.xor(o.xor(o.xor(o.xor(a, b), c), d), e)
  }

  /** D[x] from the columns C[x - 1] and C[x + 1]. */
  function ThetaD<T>(o: Ops<T>, before: T, after: T): T {
    o.xor(before, o.rol(after, 1))
  }

  function Theta<T>(o: Ops<T>, a: State<T>): State<T> {
    var c0 := Xor5(o, a.a00, a.a01, a.a02, a.a03, a.a04);
    var c1 := Xor5(o, a.a10, a.a11, a.a12, a.a13, a.a14);
    var c2 := Xor5(o, a.a20, a.a21, a.a22, a.a23, a.a24);
    var c3 := Xor5(o, a.a30, a.a31, a.a32, a.a33, a.a34);
    var c4 := Xor5(o, a.a40, a.a41, a.a42, a.a43, a.a44);
    AddColumns(o, a, ThetaD(o, c4, c1), ThetaD(o, c0, c2), ThetaD(o, c1, c3), ThetaD(o, c2, c4), ThetaD(o, c3, c0))
  }

  function AddColumns<T>(o: Ops<T>, a: State<T>, d0: T, d1: T, d2: T, d3: T, d4: T): State<T> {
      St(o.xor(a.a00, d0), o.xor(a.a01, d0), o.xor(a.a02, d0), o.xor(a.a03, d0), o.xor(a.a04, d0),
         o.xor(a.a10, d1), o.xor(a.a11, d1), o.xor(a.a12, d1), o.xor(a.a13, d1), o.xor(a.a14, d1),
         o.xor(a.a20, d2), o.xor(a.a21, d2), o.xor(a.a22, d2), o.xor(a.a23, d2), o.xor(a.a24, d2),
         o.xor(a.a30, d3), o.xor(a.a31, d3), o.xor(a.a32, d3), o.xor(a.a33, d3), o.xor(a.a34, d3),
         o.xor(a.a40, d4), o.xor(a.a41, d4), o.xor(a.a42, d4), o.xor(a.a43, d4), o.xor(a.a44, d4))
  }

  // --- rho (section 3.2.2) -----------------------------------------------------

  function Rho<T>(o: Ops<T>, a: State<T>): State<T> {
    St(o.rol(a.a00, 0), o.rol(a.a01, 36), o.rol(a.a02, 3), o.rol(a.a03, 41), o.rol(a.a04, 18),
       o.rol(a.a10, 1), o.rol(a.a11, 44), o.rol(a.a12, 10), o.rol(a.a13, 45), o.rol(a.a14, 2),
       o.rol(a.a20, 62), o.rol(a.a21, 6), o.rol(a.a22, 43), o.rol(a.a23, 15), o.rol(a.a24, 61),
       o.rol(a.a30, 28), o.rol(a.a31, 55), o.rol(a.a32, 25), o.rol(a.a33, 21), o.rol(a.a34, 56),
       o.rol(a.a40, 27), o.rol(a.a41, 20), o.rol(a.a42, 39), o.rol(a.a43, 8), o.rol(a.a44, 14))
  }

  // --- pi (section 3.2.3): A'[x, y] = A[x + 3 y, x] ------------------------------

  function Pi<T>(a: State<T>): State<T> {
    St(a.a00, a.a30, a.a10, a.a40, a.a20,
       a.a11, a.a41, a.a21, a.a01, a.a31,
       a.a22, a.a02, a.a32, a.a12, a.a42,
       a.a33, a.a13, a.a43, a.a23, a.a03,
       a.a44, a.a24, a.a04, a.a34, a.a14)
  }

  // --- chi (section 3.2.4): A'[x, y] = A[x, y] ^ (~A[x + 1, y] & A[x + 2, y]) ------

  function ChiLane<T>(o: Ops<T>, a: T, b: T, c: T): T { o.xor(a, o.and(o.not(b), c)) }

  function Chi<T>(o: Ops<T>, a: State<T>): State<T> {
    St(ChiLane(o, a.a00, a.a10, a.a20), ChiLane(o, a.a01, a.a11, a.a21), ChiLane(o, a.a02, a.a12, a.a22), ChiLane(o, a.a03, a.a13, a.a23), ChiLane(o, a.a04, a.a14, a.a24),
       ChiLane(o, a.a10, a.a20, a.a30), ChiLane(o, a.a11, a.a21, a.a31), ChiLane(o, a.a12, a.a22, a.a32), ChiLane(o, a.a13, a.a23, a.a33), ChiLane(o, a.a14, a.a24, a.a34),
       ChiLane(o, a.a20, a.a30, a.a40), ChiLane(o, a.a21, a.a31, a.a41), ChiLane(o, a.a22, a.a32, a.a42), ChiLane(o, a.a23, a.a33, a.a43), ChiLane(o, a.a24, a.a34, a.a44),
       ChiLane(o, a.a30, a.a40, a.a00), ChiLane(o, a.a31, a.a41, a.a01), ChiLane(o, a.a32, a.a42, a.a02), ChiLane(o, a.a33, a.a43, a.a03), ChiLane(o, a.a34, a.a44, a.a04),
       ChiLane(o, a.a40, a.a00, a.a10), ChiLane(o, a.a41, a.a01, a.a11), ChiLane(o, a.a42, a.a02, a.a12), ChiLane(o, a.a43, a.a03, a.a13), ChiLane(o, a.a44, a.a04, a.a14))
  }

  // --- iota (section 3.2.5) -------------------------------------------------------

  function Iota<T>(o: Ops<T>, a: State<T>, rc: T): State<T> {
    a.(a00 := o.xor(a.a00, rc))
  }

  // --- one round (section 3.3) -------------------------------------------------

  function Round<T>(o: Ops<T>, a: State<T>, rc: T): State<T> {
    Iota(o, Steps(o, a), rc)
  }

  function Steps<T>(o: Ops<T>, a: State<T>): State<T> {
    Chi(o, Pi(Rho(o, Theta(o, a))))
  }

  function RoundOf<T>(o: Ops<T>): (State<T>, T) -> State<T> {
    (s: State<T>, k: T) => Round(o, s, k)
  }

  /** One round of `f` for each of the constants in `rc`. */
  function Rounds<S, T>(f: (S, T) -> S, rc: seq<T>, s: S): S {
    if rc == [] then s else f(Rounds(f, rc[..|rc| - 1], s), rc[|rc| - 1])
  }

  // --- the steps in terms of the coordinates x and y ---------------------------------

  function Lane<T>(a: State<T>, x: nat, y: nat): T
    requires x < 5 && y < 5
  {
    match x
    case 0 => (match y case 0 => a.a00 case 1 => a.a01 case 2 => a.a02 case 3 => a.a03 case _ => a.a04)
    case 1 => (match y case 0 => a.a10 case 1 => a.a11 case 2 => a.a12 case 3 => a.a13 case _ => a.a14)
    case 2 => (match y case 0 => a.a20 case 1 => a.a21 case 2 => a.a22 case 3 => a.a23 case _ => a.a24)
    case 3 => (match y case 0 => a.a30 case 1 => a.a31 case 2 => a.a32 case 3 => a.a33 case _ => a.a34)
    case _ => (match y case 0 => a.a40 case 1 => a.a41 case 2 => a.a42 case 3 => a.a43 case _ => a.a44)
  }

  function Column<T>(o: Ops<T>, a: State<T>, x: nat): T
    requires x < 5
  {
    Xor5(o, Lane(a, x, 0), Lane(a, x, 1), Lane(a, x, 2), Lane(a, x, 3), Lane(a, x, 4))
  }

  lemma ThetaAt<T>(o: Ops<T>, a: State<T>, x: nat, y: nat)
    requires x < 5 && y < 5
    ensures Lane(Theta(o, a), x, y) == o.xor(Lane(a, x, y), ThetaD(o, Column(o, a, (x + 4) % 5), Column(o, a, (x + 1) % 5)))
  {
  }

  /** The table of rho. */
  function Turn(x: nat, y: nat): bv64
    requires x < 5 && y < 5
  {
    match x
    case 0 => (match y case 0 => 0 case 1 => 36 case 2 => 3 case 3 => 41 case _ => 18)
    case 1 => (match y case 0 => 1 case 1 => 44 case 2 => 10 case 3 => 45 case _ => 2)
    case 2 => (match y case 0 => 62 case 1 => 6 case 2 => 43 case 3 => 15 case _ => 61)
    case 3 => (match y case 0 => 28 case 1 => 55 case 2 => 25 case 3 => 21 case _ => 56)
    case _ => (match y case 0 => 27 case 1 => 20 case 2 => 39 case 3 => 8 case _ => 14)
  }

  lemma TurnAt<T>(o: Ops<T>, a: State<T>, x: nat, y: nat)
    requires x < 5 && y < 5
    ensures Lane(Rho(o, a), x, y) == o.rol(Lane(a, x, y), Turn(x, y))
  {
  }

  function Offset(x: nat, y: nat): nat
    requires x < 5 && y < 5
  {
    match x
    case 0 => (match y case 0 => 0 case 1 => 36 case 2 => 3 case 3 => 41 case _ => 18)
    case 1 => (match y case 0 => 1 case 1 => 44 case 2 => 10 case 3 => 45 case _ => 2)
    case 2 => (match y case 0 => 62 case 1 => 6 case 2 => 43 case 3 => 15 case _ => 61)
    case 3 => (match y case 0 => 28 case 1 => 55 case 2 => 25 case 3 => 21 case _ => 56)
    case _ => (match y case 0 => 27 case 1 => 20 case 2 => 39 case 3 => 8 case _ => 14)
  }

  lemma TurnIsOffset(x: nat, y: nat)
    requires x < 5 && y < 5
    ensures Turn(x, y) as nat == Offset(x, y)
  {
  }

  /** The coordinates that section 3.2.2 visits, starting from (1, 0). */
  function Walk(t: nat): (p: (nat, nat))
    ensures p.0 < 5 && p.1 < 5
  {
    if t == 0 then (1, 0) else Onward(Walk(t - 1))
  }

  function Onward(p: (nat, nat)): (nat, nat) { (p.1, (2 * p.0 + 3 * p.1) % 5) }

  lemma {:induction false} Six(t: nat, p0: (nat, nat), p1: (nat, nat), p2: (nat, nat), p3: (nat, nat), p4: (nat, nat), p5: (nat, nat))
    requires Walk(t) == p0 && p1 == Onward(p0) && p2 == Onward(p1) && p3 == Onward(p2) && p4 == Onward(p3) && p5 == Onward(p4)
    ensures Walk(t + 1) == p1 && Walk(t + 2) == p2 && Walk(t + 3) == p3 && Walk(t + 4) == p4 && Walk(t + 5) == p5
    ensures Walk(t + 6) == Onward(p5)
  {
    assert Walk(t + 1) == Onward(Walk(t));
    assert Walk(t + 2) == Onward(Walk(t + 1));
    assert Walk(t + 3) == Onward(Walk(t + 2));
    assert Walk(t + 4) == Onward(Walk(t + 3));
    assert Walk(t + 5) == Onward(Walk(t + 4));
    assert Walk(t + 6) == Onward(Walk(t + 5));
  }

  /** The offset that section 3.2.2 gives to the lane it visits at time t. */
  function Rotation(t: nat): nat { (t + 1) * (t + 2) / 2 % 64 }

  lemma Visits0(t: nat)
    requires Walk(t) == (1, 0)
    ensures Walk(t + 1) == (0, 2) && Walk(t + 2) == (2, 1) && Walk(t + 3) == (1, 2)
    ensures Walk(t + 4) == (2, 3) && Walk(t + 5) == (3, 3) && Walk(t + 6) == (3, 0)
  {
    Six(t, (1, 0), (0, 2), (2, 1), (1, 2), (2, 3), (3, 3));
  }

  lemma Visits1(t: nat)
    requires Walk(t) == (3, 0)
    ensures Walk(t + 1) == (0, 1) && Walk(t + 2) == (1, 3) && Walk(t + 3) == (3, 1)
    ensures Walk(t + 4) == (1, 4) && Walk(t + 5) == (4, 4) && Walk(t + 6) == (4, 0)
  {
    Six(t, (3, 0), (0, 1), (1, 3), (3, 1), (1, 4), (4, 4));
  }

  lemma Visits2(t: nat)
    requires Walk(t) == (4, 0)
    ensures Walk(t + 1) == (0, 3) && Walk(t + 2) == (3, 4) && Walk(t + 3) == (4, 3)
    ensures Walk(t + 4) == (3, 2) && Walk(t + 5) == (2, 2) && Walk(t + 6) == (2, 0)
  {
    Six(t, (4, 0), (0, 3), (3, 4), (4, 3), (3, 2), (2, 2));
  }

  lemma Visits3(t: nat)
    requires Walk(t) == (2, 0)
    ensures Walk(t + 1) == (0, 4) && Walk(t + 2) == (4, 2) && Walk(t + 3) == (2, 4)
    ensures Walk(t + 4) == (4, 1) && Walk(t + 5) == (1, 1)
  {
    Six(t, (2, 0), (0, 4), (4, 2), (2, 4), (4, 1), (1, 1));
  }

  /** Every lane but (0, 0), which stays, is rotated by (t + 1) (t + 2) / 2 where t is the
      time at which the walk visits it. */
  lemma RhoAt<T>(o: Ops<T>, a: State<T>, x: nat, y: nat) returns (t: nat)
    requires x < 5 && y < 5
    ensures Lane(Rho(o, a), x, y) == o.rol(Lane(a, x, y), Turn(x, y))
    ensures if (x, y) == (0, 0) then Turn(x, y) == 0 else t < 24 && Walk(t) == (x, y) && Turn(x, y) as nat == Rotation(t)
  {
    TurnAt(o, a, x, y);
    TurnIsOffset(x, y);
    t := VisitTime(x, y);
    if (x, y) != (0, 0) {
      OffsetIsRotation(x, y);
      WalkTo(x, y, 0);
    }
  }

  function VisitTime(x: nat, y: nat): nat
    requires x < 5 && y < 5
  {
    match x
    case 0 => (match y case 0 => 24 case 1 => 7 case 2 => 1 case 3 => 13 case _ => 19)
    case 1 => (match y case 0 => 0 case 1 => 23 case 2 => 3 case 3 => 8 case _ => 10)
    case 2 => (match y case 0 => 18 case 1 => 2 case 2 => 17 case 3 => 4 case _ => 21)
    case 3 => (match y case 0 => 6 case 1 => 9 case 2 => 16 case 3 => 5 case _ => 14)
    case _ => (match y case 0 => 12 case 1 => 22 case 2 => 20 case 3 => 15 case _ => 11)
  }

  lemma OffsetIsRotation(x: nat, y: nat)
    requires x < 5 && y < 5 && (x, y) != (0, 0)
    ensures VisitTime(x, y) < 24 && Offset(x, y) == Rotation(VisitTime(x, y))
  {
  }

  lemma WalkTo(x: nat, y: nat, t: nat)
    requires x < 5 && y < 5 && (x, y) != (0, 0) && Walk(t) == (1, 0)
    ensures Walk(t + VisitTime(x, y)) == (x, y)
  {
    Visits0(t);
    Visits1(t + 6);
    Visits2(t + 12);
    Visits3(t + 18);
  }

  lemma PiAt<T>(a: State<T>, x: nat, y: nat)
    requires x < 5 && y < 5
    ensures Lane(Pi(a), x, y) == Lane(a, (x + 3 * y) % 5, x)
  {
  }

  lemma ChiAt<T>(o: Ops<T>, a: State<T>, x: nat, y: nat)
    requires x < 5 && y < 5
    ensures Lane(Chi(o, a), x, y) == ChiLane(o, Lane(a, x, y), Lane(a, (x + 1) % 5, y), Lane(a, (x + 2) % 5, y))
  {
  }
}
