/** The field GF(2^8) of section 4.2 of FIPS 197, and aes.c's multiplication in it. */
module AesField {
  /** Addition in the field. */
  function Add(x: bv8, y: bv8): bv8 { x ^ y }

  /** Multiplication by x. */
  function XTimes(i: bv8): bv8 {
    if i & 0x80 != 0 then (i << 1) ^ 0x1b else i << 1
  }

  function Odd(a: bv8, x: bv8): bv8 { if a & 1 != 0 then x else 0 }

  /** The sum of the multiples of `i` by x^k for the lowest `n` bits k of `a`. */
  function MulBits(a: bv8, i: bv8, n: nat): bv8
    decreases n
  {
    if n == 0 then 0 else Add(Odd(a, i), MulBits(a >> 1, XTimes(i), n - 1))
  }

  /** The product in the field; a byte has eight bits. */
  function Mul(a: bv8, i: bv8): bv8 { MulBits(a, i, Width()) }

  /** The bits of a byte.  A literal 8 would make the verifier unroll every MulBits eight times. */
  function Width(): (n: nat)
    ensures n == 8
  {
    |seq(8, i => 0)|
  }

  lemma MulBitsStep(a: bv8, i: bv8, n: nat)
    requires n > 0
    ensures MulBits(a, i, n) == Add(Odd(a, i), MulBits(a >> 1, XTimes(i), n - 1))
  {}

  /** `a` has at most `n` bits. */
  predicate Short(a: bv8, n: nat)
    decreases n
  {
    if n == 0 then a == 0 else Short(a >> 1, n - 1)
  }

  lemma {:induction false} MulBitsZero(i: bv8, n: nat)
    ensures MulBits(0, i, n) == 0
    decreases n
  {
    if n > 0 {
      var z: bv8 := 0;
      assert z >> 1 == 0;
      MulBitsZero(XTimes(i), n - 1);
    }
  }

  lemma AllShort(a: bv8)
    ensures Short(a >> 1, 7)
  {
    var a1 := a >> 1; var a2 := a1 >> 1; var a3 := a2 >> 1; var a4 := a3 >> 1;
    var a5 := a4 >> 1; var a6 := a5 >> 1; var a7 := a6 >> 1; var a8 := a7 >> 1;
    assert a8 == 0;
    assert Short(a7, 1) && Short(a6, 2) && Short(a5, 3) && Short(a4, 4) && Short(a3, 5) && Short(a2, 6);
  }

  lemma ShortPositive(m: bv8, n: nat)
    requires Short(m, n) && m != 0
    ensures n > 0 && Short(m >> 1, n - 1)
  {}

  /** mult */
  method Mult(mul: bv8, i: bv8) returns (result: bv8)
    ensures result == Mul(mul, i)
  {
    hide XTimes, Short, MulBits, Odd, Add;
    var m, x := mul, i;
    ghost var n: nat := 7;
    MulBitsStep(mul, i, 8);
    AllShort(mul);
    result := 0;
    OddAdd(result, m, x);
    if m & 1 != 0 { result := result ^ x; }
    AddZero(Odd(m, x));
    m := m >> 1;
    while m != 0
      invariant Short(m, n) && Add(result, MulBits(m, XTimes(x), n)) == Mul(mul, i)
      decreases n
    {
      ShortPositive(m, n);
      x := XTimes(x);
      MulBitsStep(m, x, n);
      AddAssoc(result, Odd(m, x), MulBits(m >> 1, XTimes(x), n - 1));
      OddAdd(result, m, x);
      if m & 1 != 0 { result := result ^ x; }
      m := m >> 1;
      n := n - 1;
    }
    MulBitsZero(XTimes(x), n);
    AddZero(result);
  }

  lemma OddAdd(r: bv8, a: bv8, x: bv8)
    ensures a & 1 != 0 ==> r ^ x == Add(r, Odd(a, x))
    ensures a & 1 == 0 ==> r == Add(r, Odd(a, x))
  {}

  lemma AddZero(x: bv8)
    ensures Add(x, 0) == x && Add(0, x) == x && Add(x, x) == 0
  {}

  lemma AddAssoc(r: bv8, x: bv8, y: bv8)
    ensures Add(Add(r, x), y) == Add(r, Add(x, y))
  {}

  lemma AddComm(x: bv8, y: bv8)
    ensures Add(x, y) == Add(y, x)
  {}

  lemma AddSwap(a: bv8, b: bv8, c: bv8, d: bv8)
    ensures Add(Add(a, b), Add(c, d)) == Add(Add(a, c), Add(b, d))
  {
    hide Add;
    AddAssoc(a, b, Add(c, d));
    AddAssoc(b, c, d);
    AddComm(b, c);
    AddAssoc(c, b, d);
    AddAssoc(a, c, Add(b, d));
  }

  // ---- Linearity ----

  lemma XTimesIs(i: bv8)
    ensures XTimes(i) == (i << 1) ^ (0x1b & (0 - (i >> 7)))
  {}

  lemma ShiftXor(x: bv8, y: bv8)
    ensures ((x ^ y) << 1) ^ (0x1b & (0 - ((x ^ y) >> 7)))
            == ((x << 1) ^ (0x1b & (0 - (x >> 7)))) ^ ((y << 1) ^ (0x1b & (0 - (y >> 7))))
  {}

  lemma XTimesAdd(x: bv8, y: bv8)
    ensures XTimes(Add(x, y)) == Add(XTimes(x), XTimes(y))
  {
    hide XTimes;
    XTimesIs(x);
    XTimesIs(y);
    XTimesIs(x ^ y);
    ShiftXor(x, y);
  }

  lemma OddAdds(a: bv8, x: bv8, y: bv8)
    ensures Odd(a, Add(x, y)) == Add(Odd(a, x), Odd(a, y))
  {}

  lemma {:induction false} MulBitsAdd(a: bv8, x: bv8, y: bv8, n: nat)
    ensures MulBits(a, Add(x, y), n) == Add(MulBits(a, x, n), MulBits(a, y, n))
    decreases n
  {
    hide XTimes, Odd, Add;
    if n == 0 {
      AddZero(0);
    } else {
      XTimesAdd(x, y);
      OddAdds(a, x, y);
      MulBitsAdd(a >> 1, XTimes(x), XTimes(y), n - 1);
      AddSwap(Odd(a, x), Odd(a, y), MulBits(a >> 1, XTimes(x), n - 1), MulBits(a >> 1, XTimes(y), n - 1));
    }
  }

  /** Multiplication by a constant is linear. */
  lemma MulAdd(a: bv8, x: bv8, y: bv8)
    ensures Mul(a, Add(x, y)) == Add(Mul(a, x), Mul(a, y))
  {
    hide MulBits, Add;
    MulBitsAdd(a, x, y, 8);
  }

  lemma OddLeft(a: bv8, b: bv8, x: bv8)
    ensures Odd(Add(a, b), x) == Add(Odd(a, x), Odd(b, x))
  {
    LowXor(a, b);
    AddZero(x);
  }

  lemma LowXor(a: bv8, b: bv8)
    ensures (a ^ b) & 1 != 0 <==> (a & 1 != 0) != (b & 1 != 0)
  {}

  lemma HalfAdd(a: bv8, b: bv8)
    ensures Add(a, b) >> 1 == Add(a >> 1, b >> 1)
  {}

  lemma {:induction false} MulBitsLeft(a: bv8, b: bv8, x: bv8, n: nat)
    ensures MulBits(Add(a, b), x, n) == Add(MulBits(a, x, n), MulBits(b, x, n))
    decreases n
  {
    hide XTimes, Odd, Add;
    if n == 0 {
      AddZero(0);
    } else {
      OddLeft(a, b, x);
      HalfAdd(a, b);
      MulBitsLeft(a >> 1, b >> 1, XTimes(x), n - 1);
      AddSwap(Odd(a, x), Odd(b, x), MulBits(a >> 1, XTimes(x), n - 1), MulBits(b >> 1, XTimes(x), n - 1));
    }
  }

  /** Multiplication distributes over the sum of two constants. */
  lemma MulLeft(a: bv8, b: bv8, x: bv8)
    ensures Mul(Add(a, b), x) == Add(Mul(a, x), Mul(b, x))
  {
    hide MulBits, Add;
    MulBitsLeft(a, b, x, Width());
  }

  lemma {:induction false} MulBitsLonger(a: bv8, x: bv8, n: nat, m: nat)
    requires Short(a, n) && n <= m
    ensures MulBits(a, x, m) == MulBits(a, x, n)
    decreases n
  {
    hide XTimes, Odd, Add;
    if n == 0 {
      MulBitsZero(x, m);
    } else {
      MulBitsLonger(a >> 1, XTimes(x), n - 1, m - 1);
    }
  }

  lemma OneIs(x: bv8)
    ensures Mul(1, x) == x && Mul(0, x) == 0
  {
    hide MulBits, XTimes, Odd, Add;
    MulBitsStep(1, x, 8);
    MulBitsZero(XTimes(x), 7);
    MulBitsZero(x, 8);
    AddZero(Odd(1, x));
    OddOne(x);
  }

  lemma OddOne(x: bv8)
    ensures Odd(1, x) == x
  {}

  /** a times x times y is ax times y. */
  lemma MulTwice(a: bv8, x: bv8)
    requires a < 0x80
    ensures Mul(a, XTimes(x)) == Mul(a << 1, x)
  {
    hide MulBits, XTimes, Odd, Add;
    MulBitsStep(a << 1, x, 8);
    UpHalf(a);
    EvenOdd(a, x);
    AddZero(MulBits(a, XTimes(x), 7));
    SevenBits(a);
    MulBitsLonger(a, XTimes(x), 7, 8);
  }

  lemma UpHalf(a: bv8)
    ensures a < 0x80 ==> (a << 1) >> 1 == a
    ensures a < 0x80 ==> a == (a << 1) >> 1
  {}

  lemma EvenOdd(a: bv8, x: bv8)
    ensures Odd(a << 1, x) == 0
  {
    LowClear(a);
  }

  lemma LowClear(a: bv8)
    ensures (a << 1) & 1 == 0
  {}

  lemma SevenBits(a: bv8)
    requires a < 0x80
    ensures Short(a, 7)
  {
    hide Short;
    UpHalf(a);
    AllShort(a << 1);
  }

  // ---- Polynomials over GF(2), as bit vectors ----

  function Add16(p: bv16, q: bv16): bv16 { p ^ q }

  function Odd16(a: bv8, p: bv16): bv16 { if a & 1 != 0 then p else 0 }

  /** The product of the polynomial `a`, cut to its lowest `n` terms, and the polynomial `p`. */
  function PolyBits(a: bv8, p: bv16, n: nat): bv16
    decreases n
  {
    if n == 0 then 0 else Add16(Odd16(a, p), PolyBits(a >> 1, p << 1, n - 1))
  }

  function PolyMul(a: bv8, b: bv8): bv16 { PolyBits(a, b as bv16, 8) }

  /** One step of long division by m = x^8 + x^4 + x^3 + x + 1: cancel the leading term with a
      multiple of m, and move up. */
  function Cancel(p: bv16): bv16 { if p & 0x8000 != 0 then (p ^ 0x8d80) << 1 else p << 1 }

  function Divide(p: bv16, n: nat): bv16
    decreases n
  {
    if n == 0 then p else Divide(Cancel(p), n - 1)
  }

  /** The remainder of a polynomial of degree at most 15 modulo m. */
  function Remainder(p: bv16): bv16 { Divide(p, 8) >> 8 }

  lemma CancelTop(p: bv16)
    ensures p & 0x8000 != 0 ==> (p ^ 0x8d80) << 1 == (p << 1) ^ (0x1b00 & (0 - (p >> 15)))
    ensures p & 0x8000 == 0 ==> p << 1 == (p << 1) ^ (0x1b00 & (0 - (p >> 15)))
  {}

  lemma CancelIs(p: bv16)
    ensures Cancel(p) == (p << 1) ^ (0x1b00 & (0 - (p >> 15)))
  {
    CancelTop(p);
  }

  lemma CancelShift(p: bv16, q: bv16)
    ensures ((p ^ q) << 1) ^ (0x1b00 & (0 - ((p ^ q) >> 15)))
            == ((p << 1) ^ (0x1b00 & (0 - (p >> 15)))) ^ ((q << 1) ^ (0x1b00 & (0 - (q >> 15))))
  {}

  lemma CancelAdd(p: bv16, q: bv16)
    ensures Cancel(Add16(p, q)) == Add16(Cancel(p), Cancel(q))
  {
    hide Cancel;
    CancelIs(p);
    CancelIs(q);
    CancelIs(p ^ q);
    CancelShift(p, q);
  }

  lemma {:induction false} DivideAdd(p: bv16, q: bv16, n: nat)
    ensures Divide(Add16(p, q), n) == Add16(Divide(p, n), Divide(q, n))
    decreases n
  {
    hide Cancel, Add16;
    if n > 0 {
      CancelAdd(p, q);
      DivideAdd(Cancel(p), Cancel(q), n - 1);
    }
  }

  lemma DownAdd(p: bv16, q: bv16)
    ensures Add16(p, q) >> 8 == Add16(p >> 8, q >> 8)
  {}

  /** The remainder is linear ... */
  lemma RemainderAdd(p: bv16, q: bv16)
    ensures Remainder(Add16(p, q)) == Add16(Remainder(p), Remainder(q))
  {
    hide Divide, Add16;
    DivideAdd(p, q, 8);
    DownAdd(Divide(p, 8), Divide(q, 8));
  }

  lemma DivideStep(p: bv16, n: nat)
    requires n > 0
    ensures Divide(p, n) == Divide(Cancel(p), n - 1)
  {}

  lemma DivideNone(p: bv16)
    ensures Divide(p, 0) == p
  {}

  lemma CancelUp(p: bv16)
    ensures p < 0x8000 ==> Cancel(p) == p << 1
  {
    TopClear(p);
  }

  lemma TopClear(p: bv16)
    ensures p < 0x8000 ==> p & 0x8000 == 0
  {}

  lemma DivideSmall(p: bv16)
    requires p < 0x100
    ensures Divide(p, 8) == p << 8
  {
    hide Divide, Cancel;
    var p1 := p << 1; var p2 := p1 << 1; var p3 := p2 << 1; var p4 := p3 << 1;
    var p5 := p4 << 1; var p6 := p5 << 1; var p7 := p6 << 1; var p8 := p7 << 1;
    Rising(p);
    DivideStep(p, 8); CancelUp(p);
    DivideStep(p1, 7); CancelUp(p1);
    DivideStep(p2, 6); CancelUp(p2);
    DivideStep(p3, 5); CancelUp(p3);
    DivideStep(p4, 4); CancelUp(p4);
    DivideStep(p5, 3); CancelUp(p5);
    DivideStep(p6, 2); CancelUp(p6);
    DivideStep(p7, 1); CancelUp(p7);
    DivideNone(p8);
  }

  lemma Rising(p: bv16)
    ensures p < 0x100 ==>
            p << 1 < 0x8000 && (p << 1) << 1 < 0x8000 && ((p << 1) << 1) << 1 < 0x8000
                && (((p << 1) << 1) << 1) << 1 < 0x8000
    ensures p < 0x100 ==>
            ((((p << 1) << 1) << 1) << 1) << 1 < 0x8000 && (((((p << 1) << 1) << 1) << 1) << 1) << 1 < 0x8000
    ensures p < 0x100 ==> ((((((p << 1) << 1) << 1) << 1) << 1) << 1) << 1 < 0x8000
    ensures (((((((p << 1) << 1) << 1) << 1) << 1) << 1) << 1) << 1 == p << 8
  {}

  /** ... is the identity below degree 8 ... */
  lemma RemainderSmall(p: bv16)
    requires p < 0x100
    ensures Remainder(p) == p
  {
    hide Divide;
    DivideSmall(p);
    UpDown(p);
  }

  lemma UpDown(p: bv16)
    ensures p < 0x100 ==> (p << 8) >> 8 == p
  {}

  /** ... and vanishes on the multiples x^k m, so it is the remainder modulo m. */
  lemma RemainderModulus()
    ensures Remainder(0x11b) == 0 && Remainder(0x236) == 0 && Remainder(0x46c) == 0 && Remainder(0x8d8) == 0
    ensures Remainder(0x11b0) == 0 && Remainder(0x2360) == 0 && Remainder(0x46c0) == 0 && Remainder(0x8d80) == 0
  {}

  // ---- The two multiplications agree ----

  /** After eight steps only the remainder's byte is left. */
  lemma DivideLow(p: bv16)
    ensures Divide(p, 8) & 0xff == 0
  {
    hide Divide, Cancel;
    var p1 := Cancel(p); var p2 := Cancel(p1); var p3 := Cancel(p2); var p4 := Cancel(p3);
    var p5 := Cancel(p4); var p6 := Cancel(p5); var p7 := Cancel(p6); var p8 := Cancel(p7);
    DivideStep(p, 8); DivideStep(p1, 7); DivideStep(p2, 6); DivideStep(p3, 5);
    DivideStep(p4, 4); DivideStep(p5, 3); DivideStep(p6, 2); DivideStep(p7, 1);
    DivideNone(p8);
    CancelLow(p); CancelLow(p1); CancelLow(p2); CancelLow(p3); CancelLow(p4); CancelLow(p5); CancelLow(p6);
    CancelLow(p7);
  }

  lemma CancelLow(p: bv16)
    ensures Cancel(p) & 1 == 0 && (p & 1 == 0 ==> Cancel(p) & 3 == 0) && (p & 3 == 0 ==> Cancel(p) & 7 == 0)
    ensures (p & 7 == 0 ==> Cancel(p) & 15 == 0) && (p & 15 == 0 ==> Cancel(p) & 31 == 0)
            && (p & 31 == 0 ==> Cancel(p) & 63 == 0)
    ensures (p & 63 == 0 ==> Cancel(p) & 127 == 0) && (p & 127 == 0 ==> Cancel(p) & 255 == 0)
  {
    hide Cancel;
    CancelIs(p);
    LowBits(p);
  }

  lemma LowBits(p: bv16)
    ensures var c := (p << 1) ^ (0x1b00 & (0 - (p >> 15)));
            && c & 1 == 0 && (p & 1 == 0 ==> c & 3 == 0) && (p & 3 == 0 ==> c & 7 == 0)
            && (p & 7 == 0 ==> c & 15 == 0) && (p & 15 == 0 ==> c & 31 == 0) && (p & 31 == 0 ==> c & 63 == 0)
            && (p & 63 == 0 ==> c & 127 == 0) && (p & 127 == 0 ==> c & 255 == 0)
  {}

  lemma {:induction false} DivideMore(p: bv16, n: nat)
    ensures Cancel(Divide(p, n)) == Divide(Cancel(p), n)
    decreases n
  {
    hide Cancel;
    if n > 0 { DivideMore(Cancel(p), n - 1); }
  }

  /** Multiplying by x and reducing is xTimes of the remainder. */
  lemma RemainderUp(p: bv16, i: bv8)
    requires p < 0x8000 && Remainder(p) == i as bv16
    ensures Remainder(p << 1) == XTimes(i) as bv16
  {
    hide Divide, Cancel, XTimes;
    CancelUp(p);
    DivideMore(p, 8);
    DivideLow(p);
    CancelIs(Divide(p, 8));
    XTimesIs(i);
    TopByte(Divide(p, 8), i);
  }

  lemma TopByte(d: bv16, i: bv8)
    ensures d & 0xff == 0 && d >> 8 == i as bv16 ==>
              ((d << 1) ^ (0x1b00 & (0 - (d >> 15)))) >> 8 == ((i << 1) ^ (0x1b & (0 - (i >> 7)))) as bv16
  {}

  /** The terms of the product stay in sixteen bits. */
  predicate Room(p: bv16, n: nat)
    decreases n
  {
    n <= 1 || (p < 0x8000 && Room(p << 1, n - 1))
  }

  lemma ByteRoom(p: bv16)
    requires p < 0x100
    ensures Room(p, 8)
  {
    var p1 := p << 1; var p2 := p1 << 1; var p3 := p2 << 1; var p4 := p3 << 1;
    var p5 := p4 << 1; var p6 := p5 << 1; var p7 := p6 << 1;
    Rising(p);
    assert Room(p7, 1) && Room(p6, 2) && Room(p5, 3) && Room(p4, 4) && Room(p3, 5) && Room(p2, 6) && Room(p1, 7);
  }

  function Wide(x: bv8): bv16 { x as bv16 }

  lemma WideAdd(x: bv8, y: bv8)
    ensures Wide(Add(x, y)) == Add16(Wide(x), Wide(y))
  {}

  lemma ZeroRemainder()
    ensures Remainder(0) == 0 && Wide(0) == 0
  {
    hide Divide;
    RemainderSmall(0);
  }

  lemma OddRemainder(a: bv8, p: bv16, i: bv8)
    requires Remainder(p) == Wide(i)
    ensures Remainder(Odd16(a, p)) == Wide(Odd(a, i))
  {
    hide Remainder, Wide;
    ZeroRemainder();
  }

  lemma PolyBitsStep(a: bv8, p: bv16, n: nat)
    requires n > 0
    ensures PolyBits(a, p, n) == Add16(Odd16(a, p), PolyBits(a >> 1, p << 1, n - 1))
  {}

  lemma NoBits(a: bv8, i: bv8, p: bv16)
    ensures Wide(MulBits(a, i, 0)) == Remainder(PolyBits(a, p, 0))
  {
    hide Remainder;
    ZeroRemainder();
  }

  lemma NextTerm(p: bv16, n: nat, i: bv8)
    requires Room(p, n) && n > 1 && Remainder(p) == Wide(i)
    ensures Room(p << 1, n - 1) && Remainder(p << 1) == Wide(XTimes(i))
  {
    hide Remainder, XTimes;
    RemainderUp(p, i);
  }

  lemma {:induction false} MulBitsIsPoly(a: bv8, i: bv8, p: bv16, n: nat)
    requires Remainder(p) == Wide(i) && Room(p, n)
    ensures Wide(MulBits(a, i, n)) == Remainder(PolyBits(a, p, n))
    decreases n
  {
    hide Remainder, Add, Add16, Odd, Odd16, XTimes, Wide, Room, MulBits, PolyBits;
    if n == 0 {
      NoBits(a, i, p);
    } else {
      MulBitsStep(a, i, n);
      PolyBitsStep(a, p, n);
      OddRemainder(a, p, i);
      RemainderAdd(Odd16(a, p), PolyBits(a >> 1, p << 1, n - 1));
      WideAdd(Odd(a, i), MulBits(a >> 1, XTimes(i), n - 1));
      if n == 1 {
        NoBits(a >> 1, XTimes(i), p << 1);
      } else {
        NextTerm(p, n, i);
        MulBitsIsPoly(a >> 1, XTimes(i), p << 1, n - 1);
      }
    }
  }

  /** mult is multiplication of polynomials modulo x^8 + x^4 + x^3 + x + 1. */
  lemma MulIsPoly(a: bv8, b: bv8)
    ensures Mul(a, b) as bv16 == Remainder(PolyMul(a, b))
  {
    hide Remainder, MulBits, PolyBits;
    WideByte(b);
    RemainderSmall(b as bv16);
    ByteRoom(b as bv16);
    MulBitsIsPoly(a, b, b as bv16, 8);
  }

  lemma WideByte(b: bv8)
    ensures b as bv16 < 0x100
  {}
}
