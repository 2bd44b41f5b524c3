/** Round keys: how aes.c expands a key (section 5.2 of FIPS 197), and which byte of a key word goes
    where. */
module AesKeys {
  import opened AesBox
  import opened AesField
  import opened AesRounds

  // ---- Words as four bytes, the most significant first ----

  function Pack(a: bv8, b: bv8, c: bv8, d: bv8): bv32 {
    ((a as bv32) << 24) | ((b as bv32) << 16) | ((c as bv32) << 8) | (d as bv32)
  }

  lemma PackKey(k: bv32)
    ensures Pack(KeyByte(k, 0), KeyByte(k, 1), KeyByte(k, 2), KeyByte(k, 3)) == k
  {}

  lemma PackBytes(a: bv8, b: bv8, c: bv8, d: bv8)
    ensures var k := Pack(a, b, c, d);
            KeyByte(k, 0) == a && KeyByte(k, 1) == b && KeyByte(k, 2) == c && KeyByte(k, 3) == d
  {}

  lemma AddedIs(x: bv8, k: bv8)
    ensures Add(Add(x, k), x) == k
  {}

  /** What addRoundKey adds to column `c`, read from the top, is word `c` of the round key. */
  lemma KeyColumn(s: Block, keys: seq<bv32>, round: nat, c: nat)
    requires 4 * round + 4 <= |keys| && c < 4
    ensures var t := AddRoundKey(s, keys, round);
            Pack(Add(Entry(t, 0, c), Entry(s, 0, c)), Add(Entry(t, 1, c), Entry(s, 1, c)),
                 Add(Entry(t, 2, c), Entry(s, 2, c)), Add(Entry(t, 3, c), Entry(s, 3, c))) == keys[4 * round + c]
  {
    var k := keys[4 * round + c];
    var t := AddRoundKey(s, keys, round);
    hide Add, KeyByte, Pack, AddRoundKey;
    forall r: nat | r < 4 ensures Add(Entry(t, r, c), Entry(s, r, c)) == KeyByte(k, r) {
      assert (4 * r + c) / 4 == r && (4 * r + c) % 4 == c;
      AddedIs(Entry(s, r, c), KeyByte(k, r));
    }
    PackKey(k);
  }

  /** rotWord, in C's unsigned arithmetic. */
  function RotWord(x: bv32): bv32 { (x << 8) | (x >> 24) }

  function SubWord(x: bv32): bv32 {
    Pack(SBox(KeyByte(x, 0)), SBox(KeyByte(x, 1)), SBox(KeyByte(x, 2)), SBox(KeyByte(x, 3)))
  }

  lemma RotPack(a: bv8, b: bv8, c: bv8, d: bv8)
    ensures RotWord(Pack(a, b, c, d)) == Pack(b, c, d, a)
  {}

  lemma SubPack(a: bv8, b: bv8, c: bv8, d: bv8)
    ensures SubWord(Pack(a, b, c, d)) == Pack(SBox(a), SBox(b), SBox(c), SBox(d))
  {
    hide SBox, Pack, KeyByte;
    PackBytes(a, b, c, d);
  }

  /** The rcon table. */
  const RCON: seq<bv32> := [0x00000000, 0x01000000, 0x02000000, 0x04000000, 0x08000000, 0x10000000, 0x20000000,
      0x40000000, 0x80000000, 0x1B000000, 0x36000000]

  /** The powers of x in the field. */
  function Power(n: nat): bv8 { if n == 0 then 1 else XTimes(Power(n - 1)) }

  lemma Powers()
    ensures Power(0) == 1 && Power(1) == 2 && Power(2) == 4 && Power(3) == 8 && Power(4) == 0x10
    ensures Power(5) == 0x20 && Power(6) == 0x40 && Power(7) == 0x80 && Power(8) == 0x1b && Power(9) == 0x36
  {
    assert Power(2) == XTimes(Power(1));
    assert Power(4) == XTimes(Power(3));
    assert Power(6) == XTimes(Power(5));
    assert Power(8) == XTimes(Power(7));
  }

  /** Entry i of the table is the power x^(i-1) in the top byte. */
  lemma RconIsPower(i: nat)
    requires 1 <= i < |RCON|
    ensures RCON[i] == Pack(Power(i - 1), 0, 0, 0)
  {
    Powers();
    hide Power;
  }

  // ---- The expansion ----

  lemma RconBound(i: nat, keySize: nat)
    requires keySize >= 4 && i < 4 * (7 + keySize)
    ensures i / keySize < |RCON|
  {
    if i / keySize >= 11 { Product(i, keySize, i / keySize); }
  }

  lemma Product(i: nat, k: nat, q: nat)
    requires k >= 4 && q == i / k && q >= 11
    ensures i >= 11 * k
  {
    assert i == k * q + i % k;
    assert k * q >= k * 11;
  }

  function Xor(x: bv32, y: bv32): bv32 { x ^ y }

  /** What is added to the word keySize places before word `i`. */
  function Temp(prev: bv32, i: nat, keySize: nat): bv32
    requires keySize >= 4 && i < 4 * (7 + keySize)
  {
    RconBound(i, keySize);
    if i % keySize == 0 then Xor(SubWord(RotWord(prev)), RCON[i / keySize])
    else if keySize > 6 && i % keySize == 4 then SubWord(prev)
    else prev
  }

  /** A word of the schedule comes from the one before it and the one keySize places back. */
  predicate WordOk(keys: seq<bv32>, i: nat, keySize: nat)
    requires 4 <= keySize <= i < 4 * (7 + keySize) && i < |keys|
  {
    keys[i] == Xor(keys[i - keySize], Temp(keys[i - 1], i, keySize))
  }

  /** A key schedule: the key, then the words that come from it. */
  ghost predicate Expanded(keys: seq<bv32>, key: seq<bv32>, keySize: nat)
    requires keySize >= 4
  {
    && |keys| >= 4 * (7 + keySize) && |key| >= keySize && (forall i :: 0 <= i < keySize ==> keys[i] == key[i])
    && forall i :: keySize <= i < 4 * (7 + keySize) ==> WordOk(keys, i, keySize)
  }

  /** keyExpansion.  The table of constants is long enough for keys of at least four words. */
  method KeyExpansion(key: array<bv32>, roundKeys: array<bv32>, keySize: nat)
    requires keySize >= 4 && key.Length >= keySize && roundKeys.Length >= 4 * (7 + keySize) && key != roundKeys
    modifies roundKeys
    ensures Expanded(roundKeys[..], key[..], keySize)
    ensures forall i :: 4 * (7 + keySize) <= i < roundKeys.Length ==> roundKeys[i] == old(roundKeys[i])
  {
    hide Temp, Xor, WordOk;
    var index := 0;
    while index < keySize
      invariant 0 <= index <= keySize && forall i :: 0 <= i < index ==> roundKeys[i] == key[i]
      invariant forall i :: keySize <= i < roundKeys.Length ==> roundKeys[i] == old(roundKeys[i])
    {
      roundKeys[index] := key[index];
      index := index + 1;
    }
    while index < 4 * (7 + keySize)
      invariant keySize <= index <= 4 * (7 + keySize) && forall i :: 0 <= i < keySize ==> roundKeys[i] == key[i]
      invariant forall i :: keySize <= i < index ==> WordOk(roundKeys[..], i, keySize)
      invariant forall i :: 4 * (7 + keySize) <= i < roundKeys.Length ==> roundKeys[i] == old(roundKeys[i])
    {
      ghost var before := roundKeys[..];
      var temp := NextTemp(roundKeys[index - 1], index, keySize);
      roundKeys[index] := Xor(roundKeys[index - keySize], temp);
      WordAdded(before, roundKeys[..], index, keySize);
      index := index + 1;
    }
  }

  lemma WordAdded(before: seq<bv32>, keys: seq<bv32>, index: nat, keySize: nat)
    requires 4 <= keySize <= index < 4 * (7 + keySize) && index < |keys| == |before|
    requires forall i :: keySize <= i < index ==> WordOk(before, i, keySize)
    requires forall i :: 0 <= i < index ==> keys[i] == before[i]
    requires keys[index] == Xor(before[index - keySize], Temp(before[index - 1], index, keySize))
    ensures forall i :: keySize <= i < index + 1 ==> WordOk(keys, i, keySize)
  {
    hide Temp, Xor;
    forall i | keySize <= i < index + 1 ensures WordOk(keys, i, keySize) {
      if i < index { assert WordOk(before, i, keySize); }
    }
  }

  method NextTemp(prev: bv32, index: nat, keySize: nat) returns (temp: bv32)
    requires keySize >= 4 && index < 4 * (7 + keySize)
    ensures temp == Temp(prev, index, keySize)
  {
    hide SubWord, RotWord, Xor;
    RconBound(index, keySize);
    temp := prev;
    if index % keySize == 0 {
      temp := Xor(SubWord(RotWord(temp)), RCON[index / keySize]);
    } else if keySize > 6 && index % keySize == 4 {
      temp := SubWord(temp);
    }
  }
}
