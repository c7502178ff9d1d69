/** The Keccak permutation as the code computes it: six lanes stored complemented,
    and the step pi done by renaming the variables. */
module KeccakLanes {
  import opened KeccakSpec

  // --- the macros --------------------------------------------------------------

  /** TH_ELT. */
  function ThElt<T>(o: Ops<T>, c0: T, c1: T, c2: T, c3: T, c4: T, d0: T, d1: T, d2: T, d3: T, d4: T): T {
    var tt1 := o.xor(d2, d3);
    var tt0 := o.rol(o.xor(o.xor(o.xor(d0, d1), d4), tt1), 1);
    var tt3 := o.xor(c2, c3);
    o.xor(o.xor(tt0, c4), o.xor(o.xor(c0, c1), tt3))
  }

  /** THETA on the variables that a naming passes as b00 to b44. */
  function ThetaMacro<T>(o: Ops<T>, b: State<T>): State<T> {
    var t0 := ThElt(o, b.a40, b.a41, b.a42, b.a43, b.a44, b.a10, b.a11, b.a12, b.a13, b.a14);
    var t1 := ThElt(o, b.a00, b.a01, b.a02, b.a03, b.a04, b.a20, b.a21, b.a22, b.a23, b.a24);
    var t2 := ThElt(o, b.a10, b.a11, b.a12, b.a13, b.a14, b.a30, b.a31, b.a32, b.a33, b.a34);
    var t3 := ThElt(o, b.a20, b.a21, b.a22, b.a23, b.a24, b.a40, b.a41, b.a42, b.a43, b.a44);
    var t4 := ThElt(o, b.a30, b.a31, b.a32, b.a33, b.a34, b.a00, b.a01, b.a02, b.a03, b.a04);
    AddColumns(o, b, t0, t1, t2, t3, t4)
  }

  /** RHO: b00 stays as it is. */
  function RhoMacro<T>(o: Ops<T>, b: State<T>): State<T> {
    St(b.a00, o.rol(b.a01, 36), o.rol(b.a02, 3), o.rol(b.a03, 41), o.rol(b.a04, 18),
       o.rol(b.a10, 1), o.rol(b.a11, 44), o.rol(b.a12, 10), o.rol(b.a13, 45), o.rol(b.a14, 2),
       o.rol(b.a20, 62), o.rol(b.a21, 6), o.rol(b.a22, 43), o.rol(b.a23, 15), o.rol(b.a24, 61),
       o.rol(b.a30, 28), o.rol(b.a31, 55), o.rol(b.a32, 25), o.rol(b.a33, 21), o.rol(b.a34, 56),
       o.rol(b.a40, 27), o.rol(b.a41, 20), o.rol(b.a42, 39), o.rol(b.a43, 8), o.rol(b.a44, 14))
  }

  function Xo<T>(o: Ops<T>, a: T, b: T, c: T): T { o.xor(a, o.or(b, c)) }

  function Xa<T>(o: Ops<T>, a: T, b: T, c: T): T { o.xor(a, o.and(b, c)) }

  /** KHI. */
  function KhiMacro<T>(o: Ops<T>, b: State<T>): State<T> {
    St(Xo(o, b.a00, b.a10, b.a20), Xo(o, b.a01, b.a11, b.a21), Xo(o, b.a02, b.a12, b.a22), Xa(o, b.a03, b.a13, b.a23), Xa(o, b.a04, o.not(b.a14), b.a24),
       Xo(o, b.a10, o.not(b.a20), b.a30), Xa(o, b.a11, b.a21, b.a31), Xa(o, b.a12, b.a22, b.a32), Xo(o, b.a13, b.a23, b.a33), Xo(o, o.not(b.a14), b.a24, b.a34),
       Xa(o, b.a20, b.a30, b.a40), Xo(o, b.a21, b.a31, o.not(b.a41)), Xa(o, b.a22, o.not(b.a32), b.a42), Xo(o, b.a23, o.not(b.a33), b.a43), Xa(o, b.a24, b.a34, b.a44),
       Xo(o, b.a30, b.a40, b.a00), Xo(o, b.a31, b.a41, b.a01), Xo(o, o.not(b.a32), b.a42, b.a02), Xa(o, o.not(b.a33), b.a43, b.a03), Xo(o, b.a34, b.a44, b.a04),
       Xa(o, b.a40, b.a00, b.a10), Xa(o, b.a41, b.a01, b.a11), Xa(o, b.a42, b.a02, b.a12), Xo(o, b.a43, b.a03, b.a13), Xa(o, b.a44, b.a04, b.a14))
  }

  /** The namings P0 to P8: the state whose lane (x, y) is what argument b_xy
      names.  Q0 to Q8 put a state so named back into the variables. */
  function P0<T>(a: State<T>): State<T> {
    St(a.a00, a.a01, a.a02, a.a03, a.a04,
       a.a10, a.a11, a.a12, a.a13, a.a14,
       a.a20, a.a21, a.a22, a.a23, a.a24,
       a.a30, a.a31, a.a32, a.a33, a.a34,
       a.a40, a.a41, a.a42, a.a43, a.a44)
  }

  function P1<T>(a: State<T>): State<T> {
    St(a.a00, a.a30, a.a10, a.a40, a.a20,
       a.a11, a.a41, a.a21, a.a01, a.a31,
       a.a22, a.a02, a.a32, a.a12, a.a42,
       a.a33, a.a13, a.a43, a.a23, a.a03,
       a.a44, a.a24, a.a04, a.a34, a.a14)
  }

  function P2<T>(a: State<T>): State<T> {
    St(a.a00, a.a33, a.a11, a.a44, a.a22,
       a.a41, a.a24, a.a02, a.a30, a.a13,
       a.a32, a.a10, a.a43, a.a21, a.a04,
       a.a23, a.a01, a.a34, a.a12, a.a40,
       a.a14, a.a42, a.a20, a.a03, a.a31)
  }

  function P3<T>(a: State<T>): State<T> {
    St(a.a00, a.a23, a.a41, a.a14, a.a32,
       a.a24, a.a42, a.a10, a.a33, a.a01,
       a.a43, a.a11, a.a34, a.a02, a.a20,
       a.a12, a.a30, a.a03, a.a21, a.a44,
       a.a31, a.a04, a.a22, a.a40, a.a13)
  }

  function P4<T>(a: State<T>): State<T> {
    St(a.a00, a.a12, a.a24, a.a31, a.a43,
       a.a42, a.a04, a.a11, a.a23, a.a30,
       a.a34, a.a41, a.a03, a.a10, a.a22,
       a.a21, a.a33, a.a40, a.a02, a.a14,
       a.a13, a.a20, a.a32, a.a44, a.a01)
  }

  function P5<T>(a: State<T>): State<T> {
    St(a.a00, a.a21, a.a42, a.a13, a.a34,
       a.a04, a.a20, a.a41, a.a12, a.a33,
       a.a03, a.a24, a.a40, a.a11, a.a32,
       a.a02, a.a23, a.a44, a.a10, a.a31,
       a.a01, a.a22, a.a43, a.a14, a.a30)
  }

  function P6<T>(a: State<T>): State<T> {
    St(a.a00, a.a02, a.a04, a.a01, a.a03,
       a.a20, a.a22, a.a24, a.a21, a.a23,
       a.a40, a.a42, a.a44, a.a41, a.a43,
       a.a10, a.a12, a.a14, a.a11, a.a13,
       a.a30, a.a32, a.a34, a.a31, a.a33)
  }

  function P7<T>(a: State<T>): State<T> {
    St(a.a00, a.a10, a.a20, a.a30, a.a40,
       a.a22, a.a32, a.a42, a.a02, a.a12,
       a.a44, a.a04, a.a14, a.a24, a.a34,
       a.a11, a.a21, a.a31, a.a41, a.a01,
       a.a33, a.a43, a.a03, a.a13, a.a23)
  }

  function P8<T>(a: State<T>): State<T> {
    St(a.a00, a.a11, a.a22, a.a33, a.a44,
       a.a32, a.a43, a.a04, a.a10, a.a21,
       a.a14, a.a20, a.a31, a.a42, a.a03,
       a.a41, a.a02, a.a13, a.a24, a.a30,
       a.a23, a.a34, a.a40, a.a01, a.a12)
  }

  function Q0<T>(b: State<T>): State<T> {
    St(b.a00, b.a01, b.a02, b.a03, b.a04,
       b.a10, b.a11, b.a12, b.a13, b.a14,
       b.a20, b.a21, b.a22, b.a23, b.a24,
       b.a30, b.a31, b.a32, b.a33, b.a34,
       b.a40, b.a41, b.a42, b.a43, b.a44)
  }

  function Q1<T>(b: State<T>): State<T> {
    St(b.a00, b.a13, b.a21, b.a34, b.a42,
       b.a02, b.a10, b.a23, b.a31, b.a44,
       b.a04, b.a12, b.a20, b.a33, b.a41,
       b.a01, b.a14, b.a22, b.a30, b.a43,
       b.a03, b.a11, b.a24, b.a32, b.a40)
  }

  function Q2<T>(b: State<T>): State<T> {
    St(b.a00, b.a31, b.a12, b.a43, b.a24,
       b.a21, b.a02, b.a33, b.a14, b.a40,
       b.a42, b.a23, b.a04, b.a30, b.a11,
       b.a13, b.a44, b.a20, b.a01, b.a32,
       b.a34, b.a10, b.a41, b.a22, b.a03)
  }

  function Q3<T>(b: State<T>): State<T> {
    St(b.a00, b.a14, b.a23, b.a32, b.a41,
       b.a12, b.a21, b.a30, b.a44, b.a03,
       b.a24, b.a33, b.a42, b.a01, b.a10,
       b.a31, b.a40, b.a04, b.a13, b.a22,
       b.a43, b.a02, b.a11, b.a20, b.a34)
  }

  function Q4<T>(b: State<T>): State<T> {
    St(b.a00, b.a44, b.a33, b.a22, b.a11,
       b.a23, b.a12, b.a01, b.a40, b.a34,
       b.a41, b.a30, b.a24, b.a13, b.a02,
       b.a14, b.a03, b.a42, b.a31, b.a20,
       b.a32, b.a21, b.a10, b.a04, b.a43)
  }

  function Q5<T>(b: State<T>): State<T> {
    St(b.a00, b.a40, b.a30, b.a20, b.a10,
       b.a33, b.a23, b.a13, b.a03, b.a43,
       b.a11, b.a01, b.a41, b.a31, b.a21,
       b.a44, b.a34, b.a24, b.a14, b.a04,
       b.a22, b.a12, b.a02, b.a42, b.a32)
  }

  function Q6<T>(b: State<T>): State<T> {
    St(b.a00, b.a03, b.a01, b.a04, b.a02,
       b.a30, b.a33, b.a31, b.a34, b.a32,
       b.a10, b.a13, b.a11, b.a14, b.a12,
       b.a40, b.a43, b.a41, b.a44, b.a42,
       b.a20, b.a23, b.a21, b.a24, b.a22)
  }

  function Q7<T>(b: State<T>): State<T> {
    St(b.a00, b.a34, b.a13, b.a42, b.a21,
       b.a01, b.a30, b.a14, b.a43, b.a22,
       b.a02, b.a31, b.a10, b.a44, b.a23,
       b.a03, b.a32, b.a11, b.a40, b.a24,
       b.a04, b.a33, b.a12, b.a41, b.a20)
  }

  function Q8<T>(b: State<T>): State<T> {
    St(b.a00, b.a43, b.a31, b.a24, b.a12,
       b.a13, b.a01, b.a44, b.a32, b.a20,
       b.a21, b.a14, b.a02, b.a40, b.a33,
       b.a34, b.a22, b.a10, b.a03, b.a41,
       b.a42, b.a30, b.a23, b.a11, b.a04)
  }

  function Named<T>(r: nat, a: State<T>): State<T> {
    match r
    case 0 => P0(a) case 1 => P1(a) case 2 => P2(a) case 3 => P3(a) case 4 => P4(a)
    case 5 => P5(a) case 6 => P6(a) case 7 => P7(a) case _ => P8(a)
  }

  function Stored<T>(r: nat, b: State<T>): State<T> {
    match r
    case 0 => Q0(b) case 1 => Q1(b) case 2 => Q2(b) case 3 => Q3(b) case 4 => Q4(b)
    case 5 => Q5(b) case 6 => Q6(b) case 7 => Q7(b) case _ => Q8(b)
  }

  /** KF_ELT(r, r + 1, rc). */
  function KfElt<T>(o: Ops<T>, r: nat, a: State<T>, rc: T): State<T> {
    Iota(o, KfSteps(o, r, a), rc)
  }

  function KfSteps<T>(o: Ops<T>, r: nat, a: State<T>): State<T> {
    KhiStep(o, r + 1, RhoStep(o, r, ThetaStep(o, r, a)))
  }

  function ThetaStep<T>(o: Ops<T>, r: nat, a: State<T>): State<T> { Stored(r, ThetaMacro(o, Named(r, a))) }

  function RhoStep<T>(o: Ops<T>, r: nat, a: State<T>): State<T> { Stored(r, RhoMacro(o, Named(r, a))) }

  function KhiStep<T>(o: Ops<T>, r: nat, a: State<T>): State<T> { Stored(r, KhiMacro(o, Named(r, a))) }

  /** P8_TO_P0: eight cycles of moves through one temporary. */
  function P8ToP0<T>(a: State<T>): State<T> {
    var s1 := a.(a01 := a.a11).(a11 := a.a43).(a43 := a.a01);
    var s2 := s1.(a02 := s1.a22).(a22 := s1.a31).(a31 := s1.a02);
    var s3 := s2.(a03 := s2.a33).(a33 := s2.a24).(a24 := s2.a03);
    var s4 := s3.(a04 := s3.a44).(a44 := s3.a12).(a12 := s3.a04);
    var s5 := s4.(a10 := s4.a32).(a32 := s4.a13).(a13 := s4.a10);
    var s6 := s5.(a14 := s5.a21).(a21 := s5.a20).(a20 := s5.a14);
    var s7 := s6.(a23 := s6.a42).(a42 := s6.a40).(a40 := s6.a23);
    var s8 := s7.(a30 := s7.a41).(a41 := s7.a34).(a34 := s7.a30);
    s8
  }

  // --- the naming implements pi ---------------------------------------------------

  lemma NamedNext<T>(r: nat, a: State<T>)
    requires r < 8
    ensures Named(r + 1, a) == Pi(Named(r, a))
  {
    match r
    case 0 => assert P1(a) == Pi(P0(a));
    case 1 => assert P2(a) == Pi(P1(a));
    case 2 => assert P3(a) == Pi(P2(a));
    case 3 => assert P4(a) == Pi(P3(a));
    case 4 => assert P5(a) == Pi(P4(a));
    case 5 => assert P6(a) == Pi(P5(a));
    case 6 => assert P7(a) == Pi(P6(a));
    case _ => assert P8(a) == Pi(P7(a));
  }

  lemma StoredNamed<T>(r: nat, b: State<T>)
    ensures Named(r, Stored(r, b)) == b && Stored(r, b).a00 == b.a00
  {
    match r
    case 0 => assert P0(Q0(b)) == b;
    case 1 => assert P1(Q1(b)) == b;
    case 2 => assert P2(Q2(b)) == b;
    case 3 => assert P3(Q3(b)) == b;
    case 4 => assert P4(Q4(b)) == b;
    case 5 => assert P5(Q5(b)) == b;
    case 6 => assert P6(Q6(b)) == b;
    case 7 => assert P7(Q7(b)) == b;
    case _ => assert P8(Q8(b)) == b;
  }

  lemma MovedBack<T>(a: State<T>)
    ensures P8ToP0(a) == P8(a)
  {
  }

  // --- the laws of lanes that the complemented form rests on -----------------------

  ghost predicate Lawful<T(!new)>(o: Ops<T>) {
    match o
    case Ops(xor, and, or, not, rol) => XorGroup(o) && XorNots(o) && NotTwice(o) && DeMorgan(o)
  }

  ghost predicate XorGroup<T(!new)>(o: Ops<T>) {
    match o
    case Ops(xor, _, _, _, _) =>
      && (forall a, b, c :: xor(xor(a, b), c) == xor(a, xor(b, c)))
      && (forall a, b :: xor(a, b) == xor(b, a))
  }

  ghost predicate XorNots<T(!new)>(o: Ops<T>) {
    match o
    case Ops(xor, _, _, not, _) => forall a, b :: xor(not(a), b) == not(xor(a, b))
  }

  ghost predicate NotTwice<T(!new)>(o: Ops<T>) {
    match o
    case Ops(_, _, _, not, rol) => forall a :: not(not(a)) == a && rol(a, 0) == a
  }

  ghost predicate DeMorgan<T(!new)>(o: Ops<T>) {
    match o
    case Ops(_, and, or, not, _) => forall a, b :: or(not(a), not(b)) == not(and(a, b))
  }

  /** Rotating by the offsets of complemented lanes, and by 1 as theta does. */
  ghost predicate Rotates<T(!new)>(o: Ops<T>) {
    forall n: bv64 :: IsOffset(n) ==> RotatesBy(o, n)
  }

  predicate IsOffset(n: bv64) {
    || n == 0 || n == 1 || n == 3 || n == 15 || n == 21 || n == 25
    || n == 28 || n == 36 || n == 41 || n == 43 || n == 56 || n == 62
  }

  ghost predicate RotatesBy<T(!new)>(o: Ops<T>, n: bv64) {
    forall v :: o.rol(o.not(v), n) == o.not(o.rol(v, n))
  }

  lemma XorLaws<T(!new)>(o: Ops<T>, a: T, b: T, c: T)
    requires Lawful(o)
    ensures o.xor(o.xor(a, b), c) == o.xor(a, o.xor(b, c)) && o.xor(a, b) == o.xor(b, a)
  {
  }

  lemma NotLaws<T(!new)>(o: Ops<T>, a: T, b: T)
    requires Lawful(o)
    ensures o.not(o.not(a)) == a && o.rol(a, 0) == a
    ensures o.xor(o.not(a), b) == o.not(o.xor(a, b)) && o.xor(a, o.not(b)) == o.not(o.xor(a, b))
    ensures o.or(o.not(a), o.not(b)) == o.not(o.and(a, b))
  {
  }

  /** Complementing both arguments of an exclusive or changes nothing. */
  lemma XorNot<T(!new)>(o: Ops<T>, a: T, b: T)
    requires Lawful(o)
    ensures o.xor(o.not(a), b) == o.not(o.xor(a, b))
    ensures o.xor(a, o.not(b)) == o.not(o.xor(a, b))
    ensures o.xor(o.not(a), o.not(b)) == o.xor(a, b)
  {
    NotLaws(o, a, b);
    NotLaws(o, a, o.not(b));
    NotLaws(o, o.xor(a, b), b);
  }

  // --- theta ------------------------------------------------------------------------

  /** TH_ELT groups its operands differently. */
  lemma EltIsD<T(!new)>(o: Ops<T>, c0: T, c1: T, c2: T, c3: T, c4: T, d0: T, d1: T, d2: T, d3: T, d4: T)
    requires Lawful(o)
    ensures ThElt(o, c0, c1, c2, c3, c4, d0, d1, d2, d3, d4)
         == ThetaD(o, Xor5(o, c0, c1, c2, c3, c4), Xor5(o, d0, d1, d2, d3, d4))
  {
    var s, q := o.xor(d0, d1), o.xor(d2, d3);
    XorLaws(o, s, d4, q);
    XorLaws(o, d4, q, s);
    XorLaws(o, s, q, d4);
    XorLaws(o, s, d2, d3);
    var p, u := o.xor(c0, c1), o.xor(c2, c3);
    XorLaws(o, p, c2, c3);
    var r, w := o.rol(Xor5(o, d0, d1, d2, d3, d4), 1), o.xor(p, u);
    XorLaws(o, r, c4, w);
    XorLaws(o, c4, w, r);
    XorLaws(o, r, o.xor(w, c4), r);
  }

  /** The sum of a column with an odd number of complemented lanes. */
  lemma ColumnNot<T(!new)>(o: Ops<T>, a: T, b: T, c: T, d: T, e: T)
    requires Lawful(o)
    ensures Xor5(o, a, b, c, d, o.not(e)) == o.not(Xor5(o, a, b, c, d, e))
    ensures Xor5(o, o.not(a), b, c, d, e) == o.not(Xor5(o, a, b, c, d, e))
    ensures Xor5(o, a, o.not(b), c, d, e) == o.not(Xor5(o, a, b, c, d, e))
    ensures Xor5(o, o.not(a), b, o.not(c), o.not(d), e) == o.not(Xor5(o, a, b, c, d, e))
  {
    var ab := o.xor(a, b);
    var abc := o.xor(ab, c);
    var abcd := o.xor(abc, d);
    XorNot(o, a, b);
    XorNot(o, ab, c);
    XorNot(o, abc, d);
    XorNot(o, abcd, e);
  }

  lemma DNot<T(!new)>(o: Ops<T>, c: T, e: T)
    requires Lawful(o) && Rotates(o)
    ensures ThetaD(o, c, o.not(e)) == ThetaD(o, o.not(c), e) == o.not(ThetaD(o, c, e))
    ensures ThetaD(o, o.not(c), o.not(e)) == ThetaD(o, c, e)
  {
    assert RotatesBy(o, 1);
    XorNot(o, c, o.rol(e, 1));
  }

  // --- the complemented lanes --------------------------------------------------------

  /** The representation between rounds, after theta and rho, and after pi. */
  function Hide<T>(o: Ops<T>, a: State<T>): State<T> {
    St(a.a00, a.a01, a.a02, a.a03, o.not(a.a04),
       o.not(a.a10), a.a11, a.a12, a.a13, a.a14,
       o.not(a.a20), a.a21, o.not(a.a22), o.not(a.a23), a.a24,
       a.a30, o.not(a.a31), a.a32, a.a33, a.a34,
       a.a40, a.a41, a.a42, a.a43, a.a44)
  }

  function Hide1<T>(o: Ops<T>, a: State<T>): State<T> {
    St(o.not(a.a00), o.not(a.a01), o.not(a.a02), o.not(a.a03), a.a04,
       o.not(a.a10), a.a11, a.a12, a.a13, a.a14,
       o.not(a.a20), a.a21, o.not(a.a22), o.not(a.a23), a.a24,
       o.not(a.a30), a.a31, o.not(a.a32), o.not(a.a33), o.not(a.a34),
       a.a40, a.a41, a.a42, a.a43, a.a44)
  }

  function Hide2<T>(o: Ops<T>, a: State<T>): State<T> {
    St(o.not(a.a00), o.not(a.a01), o.not(a.a02), a.a03, o.not(a.a04),
       a.a10, a.a11, a.a12, o.not(a.a13), a.a14,
       o.not(a.a20), o.not(a.a21), o.not(a.a22), a.a23, a.a24,
       o.not(a.a30), a.a31, a.a32, o.not(a.a33), o.not(a.a34),
       a.a40, a.a41, a.a42, o.not(a.a43), a.a44)
  }

  lemma ColumnsHidden<T(!new)>(o: Ops<T>, a: State<T>, d0: T, d1: T, d2: T, d3: T, d4: T)
    requires Lawful(o)
    ensures AddColumns(o, Hide(o, a), o.not(d0), d1, d2, o.not(d3), d4) == Hide1(o, AddColumns(o, a, d0, d1, d2, d3, d4))
  {
    XorNot(o, a.a00, d0);
    XorNot(o, a.a01, d0);
    XorNot(o, a.a02, d0);
    XorNot(o, a.a03, d0);
    XorNot(o, a.a04, d0);
    XorNot(o, a.a10, d1);
    XorNot(o, a.a20, d2);
    XorNot(o, a.a22, d2);
    XorNot(o, a.a23, d2);
    XorNot(o, a.a30, d3);
    XorNot(o, a.a31, d3);
    XorNot(o, a.a32, d3);
    XorNot(o, a.a33, d3);
    XorNot(o, a.a34, d3);
  }

  lemma ThetaHidden<T(!new)>(o: Ops<T>, a: State<T>)
    requires Lawful(o) && Rotates(o)
    ensures ThetaMacro(o, Hide(o, a)) == Hide1(o, Theta(o, a))
  {
    var h := Hide(o, a);
    EltIsD(o, h.a40, h.a41, h.a42, h.a43, h.a44, h.a10, h.a11, h.a12, h.a13, h.a14);
    EltIsD(o, h.a00, h.a01, h.a02, h.a03, h.a04, h.a20, h.a21, h.a22, h.a23, h.a24);
    EltIsD(o, h.a10, h.a11, h.a12, h.a13, h.a14, h.a30, h.a31, h.a32, h.a33, h.a34);
    EltIsD(o, h.a20, h.a21, h.a22, h.a23, h.a24, h.a40, h.a41, h.a42, h.a43, h.a44);
    EltIsD(o, h.a30, h.a31, h.a32, h.a33, h.a34, h.a00, h.a01, h.a02, h.a03, h.a04);
    ColumnNot(o, a.a00, a.a01, a.a02, a.a03, a.a04);
    ColumnNot(o, a.a10, a.a11, a.a12, a.a13, a.a14);
    ColumnNot(o, a.a20, a.a21, a.a22, a.a23, a.a24);
    ColumnNot(o, a.a30, a.a31, a.a32, a.a33, a.a34);
    var c0 := Xor5(o, a.a00, a.a01, a.a02, a.a03, a.a04);
    var c1 := Xor5(o, a.a10, a.a11, a.a12, a.a13, a.a14);
    var c2 := Xor5(o, a.a20, a.a21, a.a22, a.a23, a.a24);
    var c3 := Xor5(o, a.a30, a.a31, a.a32, a.a33, a.a34);
    var c4 := Xor5(o, a.a40, a.a41, a.a42, a.a43, a.a44);
    DNot(o, c4, c1);
    DNot(o, c0, c2);
    DNot(o, c1, c3);
    DNot(o, c2, c4);
    DNot(o, c3, c0);
    ColumnsHidden(o, a, ThetaD(o, c4, c1), ThetaD(o, c0, c2), ThetaD(o, c1, c3), ThetaD(o, c2, c4), ThetaD(o, c3, c0));
  }

  // --- rho, pi and chi ----------------------------------------------------------------

  lemma RhoHidden<T(!new)>(o: Ops<T>, a: State<T>)
    requires Lawful(o) && Rotates(o)
    ensures RhoMacro(o, Hide1(o, a)) == Hide1(o, Rho(o, a))
  {
    assert RotatesBy(o, 0) && RotatesBy(o, 1) && RotatesBy(o, 3) && RotatesBy(o, 15);
    assert RotatesBy(o, 21) && RotatesBy(o, 25) && RotatesBy(o, 28) && RotatesBy(o, 36);
    assert RotatesBy(o, 41) && RotatesBy(o, 43) && RotatesBy(o, 56) && RotatesBy(o, 62);
    NotLaws(o, a.a00, a.a00);
  }

  lemma PiHidden<T>(o: Ops<T>, a: State<T>)
    ensures Pi(Hide1(o, a)) == Hide2(o, Pi(a))
  {
  }

  lemma ChiNot<T(!new)>(o: Ops<T>, a: T, b: T, c: T)
    requires Lawful(o)
    ensures Xo(o, o.not(a), b, o.not(c)) == ChiLane(o, a, b, c)
    ensures Xo(o, a, b, o.not(c)) == o.not(ChiLane(o, a, b, c))
    ensures Xa(o, o.not(a), o.not(b), c) == o.not(ChiLane(o, a, b, c))
    ensures o.not(o.not(a)) == a && o.not(o.not(b)) == b && o.not(o.not(c)) == c
  {
    NotLaws(o, a, a);
    NotLaws(o, b, b);
    NotLaws(o, c, c);
    NotLaws(o, o.not(b), c);
    XorNot(o, a, o.and(o.not(b), c));
  }

  lemma KhiHidden<T(!new)>(o: Ops<T>, a: State<T>)
    requires Lawful(o)
    ensures KhiMacro(o, Hide2(o, a)) == Hide(o, Chi(o, a))
  {
    ChiNot(o, a.a00, a.a10, a.a20);
    ChiNot(o, a.a10, a.a20, a.a30);
    ChiNot(o, a.a20, a.a30, a.a40);
    ChiNot(o, a.a30, a.a40, a.a00);
    ChiNot(o, a.a40, a.a00, a.a10);
    ChiNot(o, a.a01, a.a11, a.a21);
    ChiNot(o, a.a11, a.a21, a.a31);
    ChiNot(o, a.a21, a.a31, a.a41);
    ChiNot(o, a.a31, a.a41, a.a01);
    ChiNot(o, a.a41, a.a01, a.a11);
    ChiNot(o, a.a02, a.a12, a.a22);
    ChiNot(o, a.a12, a.a22, a.a32);
    ChiNot(o, a.a22, a.a32, a.a42);
    ChiNot(o, a.a32, a.a42, a.a02);
    ChiNot(o, a.a42, a.a02, a.a12);
    ChiNot(o, a.a03, a.a13, a.a23);
    ChiNot(o, a.a13, a.a23, a.a33);
    ChiNot(o, a.a23, a.a33, a.a43);
    ChiNot(o, a.a33, a.a43, a.a03);
    ChiNot(o, a.a43, a.a03, a.a13);
    ChiNot(o, a.a04, a.a14, a.a24);
    ChiNot(o, a.a14, a.a24, a.a34);
    ChiNot(o, a.a24, a.a34, a.a44);
    ChiNot(o, a.a34, a.a44, a.a04);
    ChiNot(o, a.a44, a.a04, a.a14);
  }

  // --- rounds ------------------------------------------------------------------------

  lemma ThetaStepIs<T(!new)>(o: Ops<T>, r: nat, a: State<T>, s: State<T>)
    requires Lawful(o) && Rotates(o)
    requires Named(r, a) == Hide(o, s)
    ensures Named(r, ThetaStep(o, r, a)) == Hide1(o, Theta(o, s))
  {
    ThetaHidden(o, s);
    StoredNamed(r, Hide1(o, Theta(o, s)));
  }

  lemma RhoStepIs<T(!new)>(o: Ops<T>, r: nat, a: State<T>, s: State<T>)
    requires Lawful(o) && Rotates(o) && r < 8
    requires Named(r, a) == Hide1(o, s)
    ensures Named(r + 1, RhoStep(o, r, a)) == Hide2(o, Pi(Rho(o, s)))
  {
    RhoHidden(o, s);
    StoredNamed(r, Hide1(o, Rho(o, s)));
    NamedNext(r, RhoStep(o, r, a));
    PiHidden(o, Rho(o, s));
  }

  lemma KhiStepIs<T(!new)>(o: Ops<T>, r: nat, a: State<T>, s: State<T>)
    requires Lawful(o)
    requires Named(r, a) == Hide2(o, s)
    ensures Named(r, KhiStep(o, r, a)) == Hide(o, Chi(o, s))
  {
    KhiHidden(o, s);
    StoredNamed(r, Hide(o, Chi(o, s)));
  }

  /** IOTA changes a00, which every naming leaves first and no mask complements. */
  lemma IotaIs<T>(o: Ops<T>, r: nat, a: State<T>, s: State<T>, rc: T)
    requires Named(r, a) == Hide(o, s)
    ensures Named(r, Iota(o, a, rc)) == Hide(o, Iota(o, s, rc))
  {
    assert Named(r, Iota(o, a, rc)) == Iota(o, Named(r, a), rc);
  }

  lemma StepsCompose<T(!new)>(o: Ops<T>, r: nat, a: State<T>, s: State<T>)
    requires Lawful(o) && Rotates(o) && r < 8
    requires Named(r, a) == Hide(o, s)
    ensures Named(r + 1, KfSteps(o, r, a)) == Hide(o, Steps(o, s))
  {
    ThetaStepIs(o, r, a, s);
    RhoStepIs(o, r, ThetaStep(o, r, a), Theta(o, s));
    KhiStepIs(o, r + 1, RhoStep(o, r, ThetaStep(o, r, a)), Pi(Rho(o, Theta(o, s))));
  }

  lemma IotaRound<T>(o: Ops<T>, r: nat, a: State<T>, s: State<T>, rc: T)
    requires Named(r + 1, KfSteps(o, r, a)) == Hide(o, Steps(o, s))
    ensures Named(r + 1, KfElt(o, r, a, rc)) == Hide(o, Round(o, s, rc))
  {
    IotaIs(o, r + 1, KfSteps(o, r, a), Steps(o, s), rc);
  }

  /** One KF_ELT on lanes named r is one round, the result being named r + 1. */
  lemma KfEltIsRound<T(!new)>(o: Ops<T>, r: nat, a: State<T>, s: State<T>, rc: T)
    requires Lawful(o) && Rotates(o) && r < 8
    requires Named(r, a) == Hide(o, s)
    ensures Named(r + 1, KfElt(o, r, a, rc)) == Hide(o, Round(o, s, rc))
  {
    StepsCompose(o, r, a, s);
    IotaRound(o, r, a, s, rc);
  }

  lemma HideTwice<T(!new)>(o: Ops<T>, a: State<T>)
    requires Lawful(o)
    ensures Hide(o, Hide(o, a)) == a
  {
    NotLaws(o, a.a04, a.a04);
    NotLaws(o, a.a10, a.a10);
    NotLaws(o, a.a20, a.a20);
    NotLaws(o, a.a22, a.a22);
    NotLaws(o, a.a23, a.a23);
    NotLaws(o, a.a31, a.a31);
  }

  // --- the loop ----------------------------------------------------------------------

  /** `rel(r, a, s)`: variables `a` hold the state `s` under naming r. */
  ghost predicate Simulates<A(!new), S(!new), T(!new)>(kf: (nat, A, T) -> A, back: A -> A, f: (S, T) -> S, rel: (nat, A, S) -> bool) {
    && (forall r: nat, a: A, s: S, k: T :: r < 8 && rel(r, a, s) ==> rel(r + 1, kf(r, a, k), f(s, k)))
    && (forall a: A, s: S :: rel(8, a, s) ==> rel(0, back(a), s))
  }

  /** KECCAK_F_1600_ with eight rounds unrolled, `kf` standing for KF_ELT and `back`
      for P8_TO_P0. */
  method Unrolled<A(!new), S(!new), T(!new)>(kf: (nat, A, T) -> A, back: A -> A, rc: seq<T>, a0: A,
                           ghost f: (S, T) -> S, ghost rel: (nat, A, S) -> bool, ghost s: S) returns (a: A)
    requires Simulates(kf, back, f, rel) && rel(0, a0, s) && |rc| == 24
    ensures rel(0, a, Rounds(f, rc, s))
  {
    a := a0;
    var j := 0;
    while j < 24
      invariant j <= 24 && j % 8 == 0
      invariant rel(0, a, Rounds(f, rc[..j], s))
    {
      NextRounds(f, rc, s, j);
      a := kf(0, a, rc[j]);
      assert rel(1, a, Rounds(f, rc[..j + 1], s));
      NextRounds(f, rc, s, j + 1);
      a := kf(1, a, rc[j + 1]);
      assert rel(2, a, Rounds(f, rc[..j + 2], s));
      NextRounds(f, rc, s, j + 2);
      a := kf(2, a, rc[j + 2]);
      assert rel(3, a, Rounds(f, rc[..j + 3], s));
      NextRounds(f, rc, s, j + 3);
      a := kf(3, a, rc[j + 3]);
      assert rel(4, a, Rounds(f, rc[..j + 4], s));
      NextRounds(f, rc, s, j + 4);
      a := kf(4, a, rc[j + 4]);
      assert rel(5, a, Rounds(f, rc[..j + 5], s));
      NextRounds(f, rc, s, j + 5);
      a := kf(5, a, rc[j + 5]);
      assert rel(6, a, Rounds(f, rc[..j + 6], s));
      NextRounds(f, rc, s, j + 6);
      a := kf(6, a, rc[j + 6]);
      assert rel(7, a, Rounds(f, rc[..j + 7], s));
      NextRounds(f, rc, s, j + 7);
      a := kf(7, a, rc[j + 7]);
      assert rel(8, a, Rounds(f, rc[..j + 8], s));
      a := back(a);
      j := j + 8;
    }
    assert rc[..24] == rc;
  }

  lemma NextRounds<S, T>(f: (S, T) -> S, rc: seq<T>, s: S, j: nat)
    requires j < |rc|
    ensures Rounds(f, rc[..j + 1], s) == f(Rounds(f, rc[..j], s), rc[j])
  {
    assert rc[..j + 1][..j] == rc[..j];
  }

  lemma KfSimulates<T(!new)>(o: Ops<T>)
    requires Lawful(o) && Rotates(o)
    ensures Simulates((r, a, k) => KfElt(o, r, a, k), a => P8ToP0(a), RoundOf(o),
                      (r, a, s) => Named(r, a) == Hide(o, s))
  {
    forall r: nat, a: State<T>, s: State<T>, k: T | r < 8 && Named(r, a) == Hide(o, s)
      ensures Named(r + 1, KfElt(o, r, a, k)) == Hide(o, Round(o, s, k))
    {
      KfEltIsRound(o, r, a, s, k);
    }
    forall a: State<T>, s: State<T> | Named(8, a) == Hide(o, s)
      ensures Named(0, P8ToP0(a)) == Hide(o, s)
    {
      MovedBack(a);
    }
  }

  /** On complemented lanes the permutation computes the 24 rounds of the
      specification, and leaves the same lanes complemented. */
  method KeccakF<T(!new)>(o: Ops<T>, rc: seq<T>, a0: State<T>) returns (a: State<T>)
    requires Lawful(o) && Rotates(o) && |rc| == 24
    ensures a == Hide(o, Rounds(RoundOf(o), rc, Hide(o, a0)))
  {
    ghost var s := Hide(o, a0);
    HideTwice(o, a0);
    KfSimulates(o);
    a := Unrolled((r, a, k) => KfElt(o, r, a, k), a => P8ToP0(a), rc, a0,
                  RoundOf(o), (r, a, s) => Named(r, a) == Hide(o, s), s);
  }
}
