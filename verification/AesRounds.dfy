/** The rounds of aes.c on blocks of sixteen bytes, row by row, and why decryption undoes them. */
module AesRounds {
  import opened AesBox
  import opened AesField

  type Block = s: seq<bv8> | |s| == 16 witness seq(16, i => 0)

  /** Entry (row, column) of the state. */
  function Entry(s: Block, r: nat, c: nat): bv8
    requires r < 4 && c < 4
  {
    s[4 * r + c]
  }

  lemma SameEntries(s: Block, t: Block)
    requires forall r: nat, c: nat :: r < 4 && c < 4 ==> Entry(s, r, c) == Entry(t, r, c)
    ensures s == t
  {
    forall i | 0 <= i < 16 ensures s[i] == t[i] { assert Entry(s, i / 4, i % 4) == Entry(t, i / 4, i % 4); }
  }

  // ---- Substitution ----

  function SubBytes(s: Block): (r: Block)
    ensures forall i :: 0 <= i < 16 ==> r[i] == SBox(s[i])
  {
    seq(16, i requires 0 <= i < 16 => SBox(s[i]))
  }

  function InvSubBytes(s: Block): (r: Block)
    ensures forall i :: 0 <= i < 16 ==> r[i] == InvSBox(s[i])
  {
    seq(16, i requires 0 <= i < 16 => InvSBox(s[i]))
  }

  lemma InvSubBytesInverts(s: Block)
    ensures InvSubBytes(SubBytes(s)) == s
  {
    hide SBox, InvSBox;
    var r := InvSubBytes(SubBytes(s));
    forall i | 0 <= i < 16 ensures r[i] == s[i] { InvSBoxInverts(s[i]); }
  }

  // ---- Rotation of rows ----

  /** Row r moves r places to the left. */
  function ShiftRows(s: Block): Block {
    [s[0], s[1], s[2], s[3], s[5], s[6], s[7], s[4], s[10], s[11], s[8], s[9], s[15], s[12], s[13], s[14]]
  }

  function InvShiftRows(s: Block): Block {
    [s[0], s[1], s[2], s[3], s[7], s[4], s[5], s[6], s[10], s[11], s[8], s[9], s[13], s[14], s[15], s[12]]
  }

  lemma InvShiftRowsInverts(s: Block)
    ensures InvShiftRows(ShiftRows(s)) == s
  {}

  // ---- Mixing of columns ----

  function Add4(a: bv8, b: bv8, c: bv8, d: bv8): bv8 { Add(Add(Add(a, b), c), d) }

  /** Entry `row` of a mixed column: the column times 3x^3 + x^2 + x + 2. */
  function MixByte(row: nat, a: bv8, b: bv8, c: bv8, d: bv8): bv8 {
    if row == 0 then Add4(Mul(2, a), Mul(3, b), c, d)
    else if row == 1 then Add4(a, Mul(2, b), Mul(3, c), d)
    else if row == 2 then Add4(a, b, Mul(2, c), Mul(3, d))
    else Add4(Mul(3, a), b, c, Mul(2, d))
  }

  function InvMixByte(row: nat, a: bv8, b: bv8, c: bv8, d: bv8): bv8 {
    if row == 0 then Add4(Mul(0xe, a), Mul(0xb, b), Mul(0xd, c), Mul(0x9, d))
    else if row == 1 then Add4(Mul(0x9, a), Mul(0xe, b), Mul(0xb, c), Mul(0xd, d))
    else if row == 2 then Add4(Mul(0xd, a), Mul(0x9, b), Mul(0xe, c), Mul(0xb, d))
    else Add4(Mul(0xb, a), Mul(0xd, b), Mul(0x9, c), Mul(0xe, d))
  }

  function MixColumns(s: Block): Block {
    hide MixByte;
    [MixByte(0, s[0], s[4], s[8], s[12]), MixByte(0, s[1], s[5], s[9], s[13]), MixByte(0, s[2], s[6], s[10], s[14]),
        MixByte(0, s[3], s[7], s[11], s[15]),
     MixByte(1, s[0], s[4], s[8], s[12]), MixByte(1, s[1], s[5], s[9], s[13]), MixByte(1, s[2], s[6], s[10], s[14]),
         MixByte(1, s[3], s[7], s[11], s[15]),
     MixByte(2, s[0], s[4], s[8], s[12]), MixByte(2, s[1], s[5], s[9], s[13]), MixByte(2, s[2], s[6], s[10], s[14]),
         MixByte(2, s[3], s[7], s[11], s[15]),
     MixByte(3, s[0], s[4], s[8], s[12]), MixByte(3, s[1], s[5], s[9], s[13]), MixByte(3, s[2], s[6], s[10], s[14]),
         MixByte(3, s[3], s[7], s[11], s[15])]
  }

  function InvMixColumns(s: Block): Block {
    hide InvMixByte;
    [InvMixByte(0, s[0], s[4], s[8], s[12]), InvMixByte(0, s[1], s[5], s[9], s[13]),
        InvMixByte(0, s[2], s[6], s[10], s[14]), InvMixByte(0, s[3], s[7], s[11], s[15]),
     InvMixByte(1, s[0], s[4], s[8], s[12]), InvMixByte(1, s[1], s[5], s[9], s[13]),
         InvMixByte(1, s[2], s[6], s[10], s[14]), InvMixByte(1, s[3], s[7], s[11], s[15]),
     InvMixByte(2, s[0], s[4], s[8], s[12]), InvMixByte(2, s[1], s[5], s[9], s[13]),
         InvMixByte(2, s[2], s[6], s[10], s[14]), InvMixByte(2, s[3], s[7], s[11], s[15]),
     InvMixByte(3, s[0], s[4], s[8], s[12]), InvMixByte(3, s[1], s[5], s[9], s[13]),
         InvMixByte(3, s[2], s[6], s[10], s[14]), InvMixByte(3, s[3], s[7], s[11], s[15])]
  }

  lemma TimesTwo(x: bv8)
    ensures Mul(2, x) == XTimes(x) && Mul(3, x) == Add(x, Mul(2, x))
  {
    hide Mul, XTimes, Add;
    OneIs(x);
    OneIs(XTimes(x));
    MulTwice(1, x);
    OneTwo();
    MulLeft(1, 2, x);
  }

  lemma OneTwo()
    ensures Add(1, 2) == 3
  {}

  /** k(2x) = (2k)x and k(3x) = (3k)x. */
  lemma MulMul(k: bv8, x: bv8)
    requires k < 0x80
    ensures Mul(k, Mul(2, x)) == Mul(k << 1, x) && Mul(k, Mul(3, x)) == Mul(Add(k, k << 1), x)
  {
    hide Mul, XTimes, Add;
    TimesTwo(x);
    MulTwice(k, x);
    MulAdd(k, x, Mul(2, x));
    MulLeft(k, k << 1, x);
  }

  lemma MulAdd4(k: bv8, a: bv8, b: bv8, c: bv8, d: bv8)
    ensures Mul(k, Add4(a, b, c, d)) == Add4(Mul(k, a), Mul(k, b), Mul(k, c), Mul(k, d))
  {
    hide Mul, Add;
    MulAdd(k, Add(Add(a, b), c), d);
    MulAdd(k, Add(a, b), c);
    MulAdd(k, a, b);
  }

  lemma MulLeft4(k: bv8, l: bv8, m: bv8, n: bv8, x: bv8)
    ensures Add4(Mul(k, x), Mul(l, x), Mul(m, x), Mul(n, x)) == Mul(Add4(k, l, m, n), x)
  {
    hide Mul, Add;
    MulLeft(k, l, x);
    MulLeft(Add(k, l), m, x);
    MulLeft(Add(Add(k, l), m), n, x);
  }

  lemma Merge(a: bv8, b: bv8, c: bv8, d: bv8, e: bv8, f: bv8, g: bv8, h: bv8)
    ensures Add(Add4(a, b, c, d), Add4(e, f, g, h)) == Add4(Add(a, e), Add(b, f), Add(c, g), Add(d, h))
  {
    hide Add;
    AddSwap(Add(Add(a, b), c), d, Add(Add(e, f), g), h);
    AddSwap(Add(a, b), c, Add(e, f), g);
    AddSwap(a, b, e, f);
  }

  /** Adding row by row or column by column. */
  lemma Transpose(a: bv8, b: bv8, c: bv8, d: bv8, e: bv8, f: bv8, g: bv8, h: bv8,
                  i: bv8, j: bv8, k: bv8, l: bv8, m: bv8, n: bv8, o: bv8, p: bv8)
    ensures Add4(Add4(a, b, c, d), Add4(e, f, g, h), Add4(i, j, k, l), Add4(m, n, o, p))
            == Add4(Add4(a, e, i, m), Add4(b, f, j, n), Add4(c, g, k, o), Add4(d, h, l, p))
  {
    hide Add;
    Merge(a, b, c, d, e, f, g, h);
    Merge(Add(a, e), Add(b, f), Add(c, g), Add(d, h), i, j, k, l);
    Merge(Add(Add(a, e), i), Add(Add(b, f), j), Add(Add(c, g), k), Add(Add(d, h), l), m, n, o, p);
  }

  /** The constants add up to the identity matrix. */
  lemma Constants()
    ensures Add4(0x1c, 0xb, 0xd, Add(9, 0x12)) == 1 && Add4(Add(0xe, 0x1c), 0x16, 0xd, 9) == 0
    ensures Add4(0xe, Add(0xb, 0x16), 0x1a, 9) == 0 && Add4(0xe, 0xb, Add(0xd, 0x1a), 0x12) == 0
    ensures (var e: bv8 := 0xe; e << 1) == 0x1c && (var b: bv8 := 0xb; b << 1) == 0x16
    ensures (var d: bv8 := 0xd; d << 1) == 0x1a && (var n: bv8 := 9; n << 1) == 0x12
  {}

  /** The first entry of a mixed and unmixed column. */
  lemma Unmixed(a: bv8, b: bv8, c: bv8, d: bv8)
    ensures InvMixByte(0, MixByte(0, a, b, c, d), MixByte(1, a, b, c, d), MixByte(2, a, b, c, d),
            MixByte(3, a, b, c, d)) == a
  {
    hide Mul, Add, Add4;
    Constants();
    MulAdd4(0xe, Mul(2, a), Mul(3, b), c, d);
    MulAdd4(0xb, a, Mul(2, b), Mul(3, c), d);
    MulAdd4(0xd, a, b, Mul(2, c), Mul(3, d));
    MulAdd4(0x9, Mul(3, a), b, c, Mul(2, d));
    MulMul(0xe, a); MulMul(0xe, b); MulMul(0xb, b); MulMul(0xb, c); MulMul(0xd, c); MulMul(0xd, d); MulMul(9, a);
    MulMul(9, d);
    Transpose(Mul(0x1c, a), Mul(Add(0xe, 0x1c), b), Mul(0xe, c), Mul(0xe, d),
              Mul(0xb, a), Mul(0x16, b), Mul(Add(0xb, 0x16), c), Mul(0xb, d),
              Mul(0xd, a), Mul(0xd, b), Mul(0x1a, c), Mul(Add(0xd, 0x1a), d),
              Mul(Add(9, 0x12), a), Mul(9, b), Mul(9, c), Mul(0x12, d));
    MulLeft4(0x1c, 0xb, 0xd, Add(9, 0x12), a);
    MulLeft4(Add(0xe, 0x1c), 0x16, 0xd, 9, b);
    MulLeft4(0xe, Add(0xb, 0x16), 0x1a, 9, c);
    MulLeft4(0xe, 0xb, Add(0xd, 0x1a), 0x12, d);
    OneIs(a); OneIs(b); OneIs(c); OneIs(d);
    ZeroSum(a);
  }

  lemma ZeroSum(a: bv8)
    ensures Add4(a, 0, 0, 0) == a
  {
    hide Add;
    AddZero(a);
  }

  lemma Rotate(a: bv8, b: bv8, c: bv8, d: bv8)
    ensures Add4(a, b, c, d) == Add4(b, c, d, a)
  {
    hide Add;
    AddAssoc(a, b, c);
    AddAssoc(a, Add(b, c), d);
    AddComm(a, Add(Add(b, c), d));
  }

  lemma MixRotates(a: bv8, b: bv8, c: bv8, d: bv8)
    ensures MixByte(1, a, b, c, d) == MixByte(0, b, c, d, a) && MixByte(2, a, b, c, d) == MixByte(1, b, c, d, a)
    ensures MixByte(3, a, b, c, d) == MixByte(2, b, c, d, a) && MixByte(0, a, b, c, d) == MixByte(3, b, c, d, a)
  {
    hide Mul, Add, Add4;
    Rotate(a, Mul(2, b), Mul(3, c), d);
    Rotate(a, b, Mul(2, c), Mul(3, d));
    Rotate(Mul(3, a), b, c, Mul(2, d));
    Rotate(Mul(2, a), Mul(3, b), c, d);
  }

  lemma InvMixRotates(a: bv8, b: bv8, c: bv8, d: bv8)
    ensures InvMixByte(1, a, b, c, d) == InvMixByte(0, b, c, d, a)
            && InvMixByte(2, a, b, c, d) == InvMixByte(1, b, c, d, a)
    ensures InvMixByte(3, a, b, c, d) == InvMixByte(2, b, c, d, a)
  {
    hide Mul, Add, Add4;
    Rotate(Mul(0x9, a), Mul(0xe, b), Mul(0xb, c), Mul(0xd, d));
    Rotate(Mul(0xd, a), Mul(0x9, b), Mul(0xe, c), Mul(0xb, d));
    Rotate(Mul(0xb, a), Mul(0xd, b), Mul(0x9, c), Mul(0xe, d));
  }

  /** Unmixing a mixed column gives the column. */
  lemma UnmixedColumn(a: bv8, b: bv8, c: bv8, d: bv8)
    ensures var m0 := MixByte(0, a, b, c, d); var m1 := MixByte(1, a, b, c, d); var m2 := MixByte(2, a, b, c, d);
            var m3 := MixByte(3, a, b, c, d);
            && InvMixByte(0, m0, m1, m2, m3) == a && InvMixByte(1, m0, m1, m2, m3) == b
            && InvMixByte(2, m0, m1, m2, m3) == c && InvMixByte(3, m0, m1, m2, m3) == d
  {
    hide MixByte, InvMixByte;
    var m0 := MixByte(0, a, b, c, d); var m1 := MixByte(1, a, b, c, d); var m2 := MixByte(2, a, b, c, d);
    var m3 := MixByte(3, a, b, c, d);
    Unmixed(a, b, c, d); Unmixed(b, c, d, a); Unmixed(c, d, a, b); Unmixed(d, a, b, c);
    MixRotates(a, b, c, d); MixRotates(b, c, d, a); MixRotates(c, d, a, b); MixRotates(d, a, b, c);
    InvMixRotates(m0, m1, m2, m3); InvMixRotates(m1, m2, m3, m0); InvMixRotates(m2, m3, m0, m1);
  }

  lemma MixEntry(s: Block, r: nat, c: nat)
    requires r < 4 && c < 4
    ensures Entry(MixColumns(s), r, c) == MixByte(r, s[c], s[4 + c], s[8 + c], s[12 + c])
  {
    hide MixByte;
    var m := MixColumns(s);
    if r == 0 { assert m[c] == MixByte(0, s[c], s[4 + c], s[8 + c], s[12 + c]); }
    else if r == 1 { assert m[4 + c] == MixByte(1, s[c], s[4 + c], s[8 + c], s[12 + c]); }
    else if r == 2 { assert m[8 + c] == MixByte(2, s[c], s[4 + c], s[8 + c], s[12 + c]); }
    else { assert m[12 + c] == MixByte(3, s[c], s[4 + c], s[8 + c], s[12 + c]); }
  }

  lemma InvMixEntry(s: Block, r: nat, c: nat)
    requires r < 4 && c < 4
    ensures Entry(InvMixColumns(s), r, c) == InvMixByte(r, s[c], s[4 + c], s[8 + c], s[12 + c])
  {
    hide InvMixByte;
    var m := InvMixColumns(s);
    if r == 0 { assert m[c] == InvMixByte(0, s[c], s[4 + c], s[8 + c], s[12 + c]); }
    else if r == 1 { assert m[4 + c] == InvMixByte(1, s[c], s[4 + c], s[8 + c], s[12 + c]); }
    else if r == 2 { assert m[8 + c] == InvMixByte(2, s[c], s[4 + c], s[8 + c], s[12 + c]); }
    else { assert m[12 + c] == InvMixByte(3, s[c], s[4 + c], s[8 + c], s[12 + c]); }
  }

  lemma InvMixColumnsInverts(s: Block)
    ensures InvMixColumns(MixColumns(s)) == s
  {
    var m := MixColumns(s);
    var t := InvMixColumns(m);
    hide MixByte, InvMixByte, MixColumns, InvMixColumns;
    forall r: nat, c: nat | r < 4 && c < 4 ensures Entry(t, r, c) == Entry(s, r, c) {
      InvMixEntry(m, r, c);
      MixEntry(s, 0, c);
      MixEntry(s, 1, c);
      MixEntry(s, 2, c);
      MixEntry(s, 3, c);
      UnmixedColumn(s[c], s[4 + c], s[8 + c], s[12 + c]);
    }
    SameEntries(t, s);
  }

  // ---- Round keys ----

  /** Byte `row` of a key word, the most significant first. */
  function KeyByte(k: bv32, row: nat): bv8 {
    if row == 0 then ((k >> 24) & 0xff) as bv8
    else if row == 1 then ((k >> 16) & 0xff) as bv8
    else if row == 2 then ((k >> 8) & 0xff) as bv8
    else (k & 0xff) as bv8
  }

  /** Round key `round` is words 4 * round to 4 * round + 3, one for each column. */
  function AddRoundKey(s: Block, keys: seq<bv32>, round: nat): (r: Block)
    requires 4 * round + 4 <= |keys|
    ensures forall i :: 0 <= i < 16 ==> r[i] == Add(s[i], KeyByte(keys[4 * round + i % 4], i / 4))
  {
    hide KeyByte;
    seq(16, i requires 0 <= i < 16 => Add(s[i], KeyByte(keys[4 * round + i % 4], i / 4)))
  }

  lemma AddTwice(x: bv8, k: bv8)
    ensures Add(Add(x, k), k) == x
  {
    hide Add;
    AddAssoc(x, k, k);
    AddZero(k);
    AddZero(x);
  }

  lemma AddRoundKeyInverts(s: Block, keys: seq<bv32>, round: nat)
    requires 4 * round + 4 <= |keys|
    ensures AddRoundKey(AddRoundKey(s, keys, round), keys, round) == s
  {
    hide Add, KeyByte;
    var r := AddRoundKey(AddRoundKey(s, keys, round), keys, round);
    forall i | 0 <= i < 16 ensures r[i] == s[i] { AddTwice(s[i], KeyByte(keys[4 * round + i % 4], i / 4)); }
  }

  // ---- The cipher ----

  /** The state after `round` full rounds. */
  function Encrypting(s: Block, keys: seq<bv32>, round: nat): Block
    requires 4 * round + 4 <= |keys|
  {
    if round == 0 then AddRoundKey(s, keys, 0)
    else AddRoundKey(MixColumns(ShiftRows(SubBytes(Encrypting(s, keys, round - 1)))), keys, round)
  }

  function Encrypted(s: Block, keys: seq<bv32>, rounds: nat): Block
    requires 0 < rounds && 4 * rounds + 4 <= |keys|
  {
    AddRoundKey(ShiftRows(SubBytes(Encrypting(s, keys, rounds - 1))), keys, rounds)
  }

  /** The state of aes_decrypt's loop when `round` is still to be undone. */
  function Decrypting(s: Block, keys: seq<bv32>, rounds: nat, round: nat): Block
    requires round < rounds && 4 * rounds + 4 <= |keys|
    decreases rounds - round
  {
    if round == rounds - 1 then AddRoundKey(s, keys, rounds)
    else InvMixColumns(AddRoundKey(InvSubBytes(InvShiftRows(Decrypting(s, keys, rounds, round + 1))), keys, round + 1))
  }

  function Decrypted(s: Block, keys: seq<bv32>, rounds: nat): Block
    requires 0 < rounds && 4 * rounds + 4 <= |keys|
  {
    AddRoundKey(InvSubBytes(InvShiftRows(Decrypting(s, keys, rounds, 0))), keys, 0)
  }

  lemma HalfRound(s: Block)
    ensures InvSubBytes(InvShiftRows(ShiftRows(SubBytes(s)))) == s
  {
    hide SubBytes, InvSubBytes, ShiftRows, InvShiftRows;
    InvShiftRowsInverts(SubBytes(s));
    InvSubBytesInverts(s);
  }

  /** Before undoing round `round`, decryption is where encryption was half way into the next one. */
  lemma {:induction false} Meets(s: Block, keys: seq<bv32>, rounds: nat, round: nat)
    requires round < rounds && 4 * rounds + 4 <= |keys|
    ensures Decrypting(Encrypted(s, keys, rounds), keys, rounds, round)
            == ShiftRows(SubBytes(Encrypting(s, keys, round)))
    decreases rounds - round
  {
    hide SubBytes, InvSubBytes, ShiftRows, InvShiftRows, MixColumns, InvMixColumns, AddRoundKey;
    if round == rounds - 1 {
      AddRoundKeyInverts(ShiftRows(SubBytes(Encrypting(s, keys, round))), keys, rounds);
    } else {
      Meets(s, keys, rounds, round + 1);
      HalfRound(Encrypting(s, keys, round + 1));
      var mixed := MixColumns(ShiftRows(SubBytes(Encrypting(s, keys, round))));
      AddRoundKeyInverts(mixed, keys, round + 1);
      InvMixColumnsInverts(ShiftRows(SubBytes(Encrypting(s, keys, round))));
    }
  }

  /** Decryption undoes encryption, for every block, every number of rounds and all round keys. */
  lemma RoundTrip(s: Block, keys: seq<bv32>, rounds: nat)
    requires 0 < rounds && 4 * rounds + 4 <= |keys|
    ensures Decrypted(Encrypted(s, keys, rounds), keys, rounds) == s
  {
    hide SubBytes, InvSubBytes, ShiftRows, InvShiftRows, MixColumns, InvMixColumns, AddRoundKey, Encrypted;
    Meets(s, keys, rounds, 0);
    HalfRound(Encrypting(s, keys, 0));
    AddRoundKeyInverts(s, keys, 0);
  }

  // ---- Loading and storing ----

  /** Bytes go into the state column by column. */
  function Transposed(s: Block): Block {
    [s[0], s[4], s[8], s[12], s[1], s[5], s[9], s[13], s[2], s[6], s[10], s[14], s[3], s[7], s[11], s[15]]
  }

  lemma TransposedTwice(s: Block)
    ensures Transposed(Transposed(s)) == s
  {}

  function Encrypt(block: Block, keys: seq<bv32>, keySize: nat): Block
    requires 4 * (6 + keySize) + 4 <= |keys|
  {
    Transposed(Encrypted(Transposed(block), keys, 6 + keySize))
  }

  function Decrypt(block: Block, keys: seq<bv32>, keySize: nat): Block
    requires 4 * (6 + keySize) + 4 <= |keys|
  {
    Transposed(Decrypted(Transposed(block), keys, 6 + keySize))
  }

  /** aes_decrypt gives back what aes_encrypt was given, for every key size and all round keys. */
  lemma DecryptEncrypt(block: Block, keys: seq<bv32>, keySize: nat)
    requires 4 * (6 + keySize) + 4 <= |keys|
    ensures Decrypt(Encrypt(block, keys, keySize), keys, keySize) == block
  {
    hide Transposed, Encrypted, Decrypted;
    TransposedTwice(Encrypted(Transposed(block), keys, 6 + keySize));
    RoundTrip(Transposed(block), keys, 6 + keySize);
    TransposedTwice(block);
  }
}
