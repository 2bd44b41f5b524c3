/** The steps of a round against section 5.1 of FIPS 197: sBox is the inverse in the field followed by
    an affine transformation over GF(2), shiftRows rotates row r by r, and mixColumns multiplies each
    column by the matrix of equation 5.6. */
module AesFips {
  import opened AesBox
  import opened AesField
  import opened AesRounds

  /** b + b<<<1 + b<<<2 + b<<<3 + b<<<4 + {63}. */
  function Affine(b: bv8): bv8 {
    b ^ ((b << 1) | (b >> 7)) ^ ((b << 2) | (b >> 6)) ^ ((b << 3) | (b >> 5)) ^ ((b << 4) | (b >> 4)) ^ 0x63
  }

  function InvAffine(b: bv8): bv8 {
    ((b << 1) | (b >> 7)) ^ ((b << 3) | (b >> 5)) ^ ((b << 6) | (b >> 2)) ^ 0x05
  }

  lemma AffineInverts(b: bv8)
    ensures Affine(InvAffine(b)) == b
  {}

  /** The byte whose transform is sBox[x] is the inverse of x. */
  predicate InverseOf(x: bv8) { Mul(x, InvAffine(SBox(x))) == 1 }

  lemma Inverses0(x: bv8)
    requires 0 < x < 0x20
    ensures InverseOf(x)
  {}

  lemma Inverses1(x: bv8)
    requires 0x20 <= x < 0x40
    ensures InverseOf(x)
  {}

  lemma Inverses2(x: bv8)
    requires 0x40 <= x < 0x60
    ensures InverseOf(x)
  {}

  lemma Inverses3(x: bv8)
    requires 0x60 <= x < 0x80
    ensures InverseOf(x)
  {}

  lemma Inverses4(x: bv8)
    requires 0x80 <= x < 0xa0
    ensures InverseOf(x)
  {}

  lemma Inverses5(x: bv8)
    requires 0xa0 <= x < 0xc0
    ensures InverseOf(x)
  {}

  lemma Inverses6(x: bv8)
    requires 0xc0 <= x < 0xe0
    ensures InverseOf(x)
  {}

  lemma Inverses7(x: bv8)
    requires 0xe0 <= x
    ensures InverseOf(x)
  {}

  lemma Zero()
    ensures SBox(0) == Affine(0)
  {}

  /** sBox[x] is the affine transform of the field inverse of x, and of 0 for x = 0. */
  lemma SBoxIsDefined(x: bv8)
    ensures exists y: bv8 :: SBox(x) == Affine(y) && (if x == 0 then y == 0 else Mul(x, y) == 1)
  {
    hide SBox, Mul, Affine, InvAffine;
    if x == 0 {
      Zero();
    } else {
      var y := InvAffine(SBox(x));
      AffineInverts(SBox(x));
      if x < 0x20 { Inverses0(x); } else if x < 0x40 { Inverses1(x); } else if x < 0x60 { Inverses2(x); }
      else if x < 0x80 { Inverses3(x); }
      else if x < 0xa0 { Inverses4(x); } else if x < 0xc0 { Inverses5(x); } else if x < 0xe0 { Inverses6(x); }
      else { Inverses7(x); }
      assert SBox(x) == Affine(y) && Mul(x, y) == 1;
    }
  }

  /** Row r moves r places to the left. */
  lemma ShiftIsDefined(s: Block, r: nat, c: nat)
    requires r < 4 && c < 4
    ensures Entry(ShiftRows(s), r, c) == Entry(s, r, (c + r) % 4)
  {
    assert (c + r) % 4 == if c + r < 4 then c + r else c + r - 4;
    var t := ShiftRows(s);
    if r == 0 { assert t[c] == s[c]; }
    else if r == 1 { assert t[4 + c] == s[if c < 3 then 5 + c else 4]; }
    else if r == 2 { assert t[8 + c] == s[if c < 2 then 10 + c else 6 + c]; }
    else { assert t[12 + c] == s[if c < 1 then 15 else 11 + c]; }
  }

  function Twice(x: bv8): bv8 { XTimes(x) }

  function Thrice(x: bv8): bv8 { Add(x, XTimes(x)) }

  lemma MixByteIs(a: bv8, b: bv8, c: bv8, d: bv8)
    ensures MixByte(0, a, b, c, d) == Add4(Twice(a), Thrice(b), c, d)
    ensures MixByte(1, a, b, c, d) == Add4(a, Twice(b), Thrice(c), d)
    ensures MixByte(2, a, b, c, d) == Add4(a, b, Twice(c), Thrice(d))
    ensures MixByte(3, a, b, c, d) == Add4(Thrice(a), b, c, Twice(d))
  {
    hide Mul, XTimes, Add, Add4;
    TimesTwo(a); TimesTwo(b); TimesTwo(c); TimesTwo(d);
  }

  /** A mixed column is the column times the matrix of twos, threes and ones. */
  lemma MixIsDefined(s: Block, c: nat)
    requires c < 4
    ensures var m := MixColumns(s);
            && m[c] == Add4(Twice(s[c]), Thrice(s[4 + c]), s[8 + c], s[12 + c])
            && m[4 + c] == Add4(s[c], Twice(s[4 + c]), Thrice(s[8 + c]), s[12 + c])
            && m[8 + c] == Add4(s[c], s[4 + c], Twice(s[8 + c]), Thrice(s[12 + c]))
            && m[12 + c] == Add4(Thrice(s[c]), s[4 + c], s[8 + c], Twice(s[12 + c]))
  {
    hide MixByte, MixColumns, Twice, Thrice, Add4;
    MixEntry(s, 0, c);
    MixEntry(s, 1, c);
    MixEntry(s, 2, c);
    MixEntry(s, 3, c);
    MixByteIs(s[c], s[4 + c], s[8 + c], s[12 + c]);
  }
}
