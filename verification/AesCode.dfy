/** aes.c's loops over the state array. */
module AesCode {
  import opened AesBox
  import opened AesField
  import opened AesRounds

  method SubState(state: array<bv8>)
    requires state.Length == 16
    modifies state
    ensures state[..] == SubBytes(old(state[..]))
  {
    hide SBox;
    var i := 0;
    while i < 16
      invariant i <= 16 && forall j :: 0 <= j < 16 ==> state[j] == if j < i then SBox(old(state[j])) else old(state[j])
    {
      state[i] := SBox(state[i]);
      i := i + 1;
    }
  }

  method InvSubState(state: array<bv8>)
    requires state.Length == 16
    modifies state
    ensures state[..] == InvSubBytes(old(state[..]))
  {
    hide InvSBox;
    var i := 0;
    while i < 16
      invariant i <= 16 && forall j ::
                0 <= j < 16 ==> state[j] == if j < i then InvSBox(old(state[j])) else old(state[j])
    {
      state[i] := InvSBox(state[i]);
      i := i + 1;
    }
  }

  lemma EntryIs(s: Block, r: nat, c: nat)
    requires r < 4 && c < 4
    ensures Entry(s, r, c) == s[4 * r + c]
  {}

  /** The column `d` places to the right of column `c`, counting round. */
  function Rot(c: nat, d: nat): (k: nat)
    ensures k < 4
  {
    (c + d) % 4
  }

  ghost predicate RowIs(now: Block, was: Block, row: nat, d: nat, cols: nat)
    requires row < 4
  {
    forall c: nat :: c < cols && c < 4 ==> Entry(now, row, c) == Entry(was, row, Rot(c, d))
  }

  ghost predicate OtherRows(now: Block, was: Block, row: nat) {
    forall r: nat, c: nat :: r < 4 && c < 4 && r != row ==> Entry(now, r, c) == Entry(was, r, c)
  }

  lemma RowStep(was: Block, before: Block, after: Block, row: nat, d: nat, col: nat)
    requires row < 4 && col < 4 && after == before[4 * row + col := after[4 * row + col]]
    requires RowIs(before, was, row, d, col) && OtherRows(before, was, row)
             && after[4 * row + col] == Entry(was, row, Rot(col, d))
    ensures RowIs(after, was, row, d, col + 1) && OtherRows(after, was, row)
  {
    hide Rot;
    EntrySet(before, after, row, col);
  }

  lemma EntrySet(before: Block, after: Block, row: nat, col: nat)
    requires row < 4 && col < 4 && after == before[4 * row + col := after[4 * row + col]]
    ensures forall r: nat, c: nat ::
            r < 4 && c < 4 && (r != row || c != col) ==> Entry(after, r, c) == Entry(before, r, c)
    ensures Entry(after, row, col) == after[4 * row + col]
  {}

  /** One row of shiftRows or invShiftRows: entry c takes the value of entry (c + d) mod 4. */
  method RotateRow(state: array<bv8>, row: nat, d: nat)
    requires state.Length == 16 && row < 4
    modifies state
    ensures RowIs(state[..], old(state[..]), row, d, 4) && OtherRows(state[..], old(state[..]), row)
  {
    hide Entry, RowIs, OtherRows;
    ghost var was := state[..];
    var stored := new bv8[4];
    var col := 0;
    while col < 4
      invariant col <= 4 && state[..] == was && forall c: nat :: c < col ==> stored[c] == Entry(was, row, c)
      modifies stored
    {
      EntryIs(was, row, col);
      stored[col] := state[4 * row + col];
      col := col + 1;
    }
    col := 0;
    RowStart(was, row, d);
    while col < 4
      invariant col <= 4 && forall c: nat :: c < 4 ==> stored[c] == Entry(was, row, c)
      invariant RowIs(state[..], was, row, d, col) && OtherRows(state[..], was, row)
      modifies state
    {
      ghost var before := state[..];
      state[4 * row + col] := stored[Rot(col, d)];
      RowStep(was, before, state[..], row, d, col);
      col := col + 1;
    }
  }

  lemma RowStart(was: Block, row: nat, d: nat)
    requires row < 4
    ensures RowIs(was, was, row, d, 0) && OtherRows(was, was, row)
  {}

  /** How far row `r` moves to the left, counting round. */
  function Amount(r: nat, right: bool): nat
    requires r < 4
  {
    if right then 4 - r else r
  }

  /** The first `rows` rows are rotated, to the left or to the right by their number. */
  ghost predicate RowsShifted(now: Block, was: Block, rows: nat, right: bool) {
    && (forall r: nat, c: nat ::
         r < rows && r < 4 && c < 4 ==> Entry(now, r, c) == Entry(was, r, Rot(c, Amount(r, right))))
    && (forall r: nat, c: nat :: rows <= r < 4 && c < 4 ==> Entry(now, r, c) == Entry(was, r, c))
  }

  lemma RowsStep(was: Block, before: Block, after: Block, row: nat, right: bool)
    requires row < 4 && RowsShifted(before, was, row, right)
    requires RowIs(after, before, row, Amount(row, right), 4) && OtherRows(after, before, row)
    ensures RowsShifted(after, was, row + 1, right)
  {
    hide Entry;
    forall c: nat | c < 4 ensures Entry(after, row, c) == Entry(was, row, Rot(c, Amount(row, right))) {
      var k := Rot(c, Amount(row, right));
      assert Entry(before, row, k) == Entry(was, row, k);
    }
  }

  lemma RowsEnd(was: Block, now: Block, right: bool)
    requires RowsShifted(now, was, 4, right)
    ensures now == if right then InvShiftRows(was) else ShiftRows(was)
  {
    var t := if right then InvShiftRows(was) else ShiftRows(was);
    hide Entry, InvShiftRows, ShiftRows;
    forall r: nat, c: nat | r < 4 && c < 4 ensures Entry(now, r, c) == Entry(t, r, c) {
      if right { InvShiftEntry(was, r, c); } else { ShiftEntry(was, r, c); }
    }
    SameEntries(now, t);
  }

  lemma RotIs(c: nat, d: nat)
    requires c < 4 && d <= 4
    ensures Rot(c, d) == if c + d < 4 then c + d else c + d - 4
  {}

  lemma ShiftEntry(s: Block, r: nat, c: nat)
    requires r < 4 && c < 4
    ensures Entry(ShiftRows(s), r, c) == Entry(s, r, Rot(c, r))
  {
    hide Rot;
    RotIs(c, r);
    var t := ShiftRows(s);
    if r == 0 { assert t[c] == s[c]; }
    else if r == 1 { assert t[4 + c] == s[if c < 3 then 5 + c else 4]; }
    else if r == 2 { assert t[8 + c] == s[if c < 2 then 10 + c else 6 + c]; }
    else { assert t[12 + c] == s[if c < 1 then 15 else 11 + c]; }
  }

  lemma InvShiftEntry(s: Block, r: nat, c: nat)
    requires r < 4 && c < 4
    ensures Entry(InvShiftRows(s), r, c) == Entry(s, r, Rot(c, 4 - r))
  {
    hide Rot;
    RotIs(c, 4 - r);
    var t := InvShiftRows(s);
    if r == 0 { assert t[c] == s[c]; }
    else if r == 1 { assert t[4 + c] == s[if c < 1 then 7 else 3 + c]; }
    else if r == 2 { assert t[8 + c] == s[if c < 2 then 10 + c else 6 + c]; }
    else { assert t[12 + c] == s[if c < 3 then 13 + c else 12]; }
  }

  method ShiftState(state: array<bv8>)
    requires state.Length == 16
    modifies state
    ensures state[..] == ShiftRows(old(state[..]))
  {
    hide RowsShifted, RowIs, OtherRows, ShiftRows;
    ghost var was := state[..];
    RowsStart(was, false);
    var row := 0;
    while row < 4
      invariant row <= 4 && RowsShifted(state[..], was, row, false)
    {
      ghost var before := state[..];
      RotateRow(state, row, Amount(row, false));
      RowsStep(was, before, state[..], row, false);
      row := row + 1;
    }
    RowsEnd(was, state[..], false);
  }

  lemma RowsStart(was: Block, right: bool)
    ensures RowsShifted(was, was, 0, right)
  {}

  method InvShiftState(state: array<bv8>)
    requires state.Length == 16
    modifies state
    ensures state[..] == InvShiftRows(old(state[..]))
  {
    hide RowsShifted, RowIs, OtherRows, InvShiftRows;
    ghost var was := state[..];
    RowsStart(was, true);
    var row := 0;
    while row < 4
      invariant row <= 4 && RowsShifted(state[..], was, row, true)
    {
      ghost var before := state[..];
      RotateRow(state, row, Amount(row, true));
      RowsStep(was, before, state[..], row, true);
      row := row + 1;
    }
    RowsEnd(was, state[..], true);
  }

  lemma Xor4(a: bv8, b: bv8, c: bv8, d: bv8)
    ensures a ^ b ^ c ^ d == Add4(a, b, c, d)
  {
    AddIs(a, b);
    AddIs(Add(a, b), c);
    AddIs(Add(Add(a, b), c), d);
  }

  lemma AddIs(a: bv8, b: bv8)
    ensures Add(a, b) == a ^ b
  {}

  method Sum4(a: bv8, b: bv8, c: bv8, d: bv8) returns (m: bv8)
    ensures m == Add4(a, b, c, d)
  {
    hide Add4;
    Xor4(a, b, c, d);
    m := a ^ b ^ c ^ d;
  }

  /** mixColumns on one column of four bytes. */
  method MixOne(a: bv8, b: bv8, c: bv8, d: bv8) returns (m0: bv8, m1: bv8, m2: bv8, m3: bv8)
    ensures m0 == MixByte(0, a, b, c, d) && m1 == MixByte(1, a, b, c, d) && m2 == MixByte(2, a, b, c, d)
            && m3 == MixByte(3, a, b, c, d)
  {
    hide Mul, Add4;
    var a2 := Mult(2, a);
    var a3 := Mult(3, a);
    var b2 := Mult(2, b);
    var b3 := Mult(3, b);
    var c2 := Mult(2, c);
    var c3 := Mult(3, c);
    var d2 := Mult(2, d);
    var d3 := Mult(3, d);
    m0 := Sum4(a2, b3, c, d);
    m1 := Sum4(a, b2, c3, d);
    m2 := Sum4(a, b, c2, d3);
    m3 := Sum4(a3, b, c, d2);
  }

  /** One entry of invMixColumns. */
  method UnmixOne(ka: bv8, a: bv8, kb: bv8, b: bv8, kc: bv8, c: bv8, kd: bv8, d: bv8) returns (m: bv8)
    ensures m == Add4(Mul(ka, a), Mul(kb, b), Mul(kc, c), Mul(kd, d))
  {
    hide Mul, Add4;
    var x := Mult(ka, a);
    var y := Mult(kb, b);
    var z := Mult(kc, c);
    var w := Mult(kd, d);
    m := Sum4(x, y, z, w);
  }

  lemma InvMixRows(a: bv8, b: bv8, c: bv8, d: bv8)
    ensures InvMixByte(0, a, b, c, d) == Add4(Mul(0xe, a), Mul(0xb, b), Mul(0xd, c), Mul(0x9, d))
    ensures InvMixByte(1, a, b, c, d) == Add4(Mul(0x9, a), Mul(0xe, b), Mul(0xb, c), Mul(0xd, d))
    ensures InvMixByte(2, a, b, c, d) == Add4(Mul(0xd, a), Mul(0x9, b), Mul(0xe, c), Mul(0xb, d))
    ensures InvMixByte(3, a, b, c, d) == Add4(Mul(0xb, a), Mul(0xd, b), Mul(0x9, c), Mul(0xe, d))
  {
    hide Mul, Add4;
  }

  /** invMixColumns on one column. */
  method UnmixColumn(a: bv8, b: bv8, c: bv8, d: bv8) returns (m0: bv8, m1: bv8, m2: bv8, m3: bv8)
    ensures m0 == InvMixByte(0, a, b, c, d) && m1 == InvMixByte(1, a, b, c, d) && m2 == InvMixByte(2, a, b, c, d)
            && m3 == InvMixByte(3, a, b, c, d)
  {
    hide Mul, Add4, InvMixByte;
    InvMixRows(a, b, c, d);
    m0 := UnmixOne(0xe, a, 0xb, b, 0xd, c, 0x9, d);
    m1 := UnmixOne(0x9, a, 0xe, b, 0xb, c, 0xd, d);
    m2 := UnmixOne(0xd, a, 0x9, b, 0xe, c, 0xb, d);
    m3 := UnmixOne(0xb, a, 0xd, b, 0x9, c, 0xe, d);
  }

  method MixState(state: array<bv8>)
    requires state.Length == 16
    modifies state
    ensures state[..] == MixColumns(old(state[..]))
  {
    hide MixByte, InvMixByte, MixColumns, InvMixColumns;
    ghost var was := state[..];
    var col := 0;
    while col < 4
      invariant col <= 4
      invariant forall r: nat, c: nat ::
                r < 4 && c < 4 ==>
                    Entry(state[..], r, c) == if c < col then MixByte(r, was[c], was[4 + c], was[8 + c], was[12 + c])
                        else Entry(was, r, c)
    {
      ColumnIs(was, state[..], col);
      var m0, m1, m2, m3 := MixOne(state[col], state[4 + col], state[8 + col], state[12 + col]);
      ghost var before := state[..];
      state[col], state[4 + col], state[8 + col], state[12 + col] := m0, m1, m2, m3;
      ColumnSet(before, state[..], col);
      col := col + 1;
    }
    forall r: nat, c: nat | r < 4 && c < 4
      ensures Entry(state[..], r, c) == Entry(MixColumns(was), r, c)
    {
      MixEntry(was, r, c);
    }
    SameEntries(state[..], MixColumns(was));
  }

  lemma ColumnIs(was: Block, now: Block, col: nat)
    requires col < 4 && forall r: nat :: r < 4 ==> Entry(now, r, col) == Entry(was, r, col)
    ensures now[col] == was[col] && now[4 + col] == was[4 + col] && now[8 + col] == was[8 + col]
            && now[12 + col] == was[12 + col]
  {
    assert Entry(now, 0, col) == Entry(was, 0, col) && Entry(now, 1, col) == Entry(was, 1, col);
    assert Entry(now, 2, col) == Entry(was, 2, col) && Entry(now, 3, col) == Entry(was, 3, col);
  }

  lemma ColumnSet(before: Block, after: Block, col: nat)
    requires col < 4
    requires var a := before[col := after[col]][4 + col := after[4 + col]];
             after == a[8 + col := after[8 + col]][12 + col := after[12 + col]]
    ensures forall r: nat, c: nat :: r < 4 && c < 4 && c != col ==> Entry(after, r, c) == Entry(before, r, c)
    ensures Entry(after, 0, col) == after[col] && Entry(after, 1, col) == after[4 + col]
            && Entry(after, 2, col) == after[8 + col] && Entry(after, 3, col) == after[12 + col]
  {}

  method InvMixState(state: array<bv8>)
    requires state.Length == 16
    modifies state
    ensures state[..] == InvMixColumns(old(state[..]))
  {
    hide MixByte, InvMixByte, MixColumns, InvMixColumns;
    ghost var was := state[..];
    var col := 0;
    while col < 4
      invariant col <= 4
      invariant forall r: nat, c: nat ::
                r < 4 && c < 4 ==>
                    Entry(state[..], r, c) == if c < col
                        then InvMixByte(r, was[c], was[4 + c], was[8 + c], was[12 + c]) else Entry(was, r, c)
    {
      ColumnIs(was, state[..], col);
      var m0, m1, m2, m3 := UnmixColumn(state[col], state[4 + col], state[8 + col], state[12 + col]);
      ghost var before := state[..];
      state[col], state[4 + col], state[8 + col], state[12 + col] := m0, m1, m2, m3;
      ColumnSet(before, state[..], col);
      col := col + 1;
    }
    forall r: nat, c: nat | r < 4 && c < 4
      ensures Entry(state[..], r, c) == Entry(InvMixColumns(was), r, c)
    {
      InvMixEntry(was, r, c);
    }
    SameEntries(state[..], InvMixColumns(was));
  }

  lemma KeyEntry(s: Block, keys: seq<bv32>, round: nat, r: nat, c: nat)
    requires 4 * round + 4 <= |keys| && r < 4 && c < 4
    ensures Entry(AddRoundKey(s, keys, round), r, c) == Add(Entry(s, r, c), KeyByte(keys[4 * round + c], r))
  {
    hide Add, KeyByte;
    assert (4 * r + c) / 4 == r && (4 * r + c) % 4 == c;
  }

  /** addRoundKey, with &roundKeys[4 * round]. */
  method AddKeyState(state: array<bv8>, keys: array<bv32>, round: nat)
    requires state.Length == 16 && 4 * round + 4 <= keys.Length
    modifies state
    ensures state[..] == AddRoundKey(old(state[..]), keys[..], round)
  {
    hide Add, KeyByte, AddRoundKey;
    ghost var was := state[..];
    var col := 0;
    while col < 4
      invariant col <= 4
      invariant forall r: nat, c: nat ::
                r < 4 && c < 4 ==>
                    Entry(state[..], r, c) == if c < col then Add(Entry(was, r, c), KeyByte(keys[4 * round + c], r))
                        else Entry(was, r, c)
    {
      ColumnIs(was, state[..], col);
      var m0, m1, m2, m3 := KeyOne(state[col], state[4 + col], state[8 + col], state[12 + col], keys[4 * round + col]);
      ghost var before := state[..];
      state[col], state[4 + col], state[8 + col], state[12 + col] := m0, m1, m2, m3;
      ColumnSet(before, state[..], col);
      col := col + 1;
    }
    forall r: nat, c: nat | r < 4 && c < 4
      ensures Entry(state[..], r, c) == Entry(AddRoundKey(was, keys[..], round), r, c)
    {
      KeyEntry(was, keys[..], round, r, c);
    }
    SameEntries(state[..], AddRoundKey(was, keys[..], round));
  }

  /** One column of addRoundKey. */
  method KeyOne(a: bv8, b: bv8, c: bv8, d: bv8, k: bv32) returns (m0: bv8, m1: bv8, m2: bv8, m3: bv8)
    ensures m0 == Add(a, KeyByte(k, 0)) && m1 == Add(b, KeyByte(k, 1)) && m2 == Add(c, KeyByte(k, 2))
            && m3 == Add(d, KeyByte(k, 3))
  {
    m0 := a ^ (((k >> 24) & 0xff) as bv8);
    m1 := b ^ (((k >> 16) & 0xff) as bv8);
    m2 := c ^ (((k >> 8) & 0xff) as bv8);
    m3 := d ^ ((k & 0xff) as bv8);
  }

  /** loadToState and loadFromState: rows become columns. */
  method LoadState(from: array<bv8>, to: array<bv8>)
    requires from.Length == 16 && to.Length == 16 && from != to
    modifies to
    ensures to[..] == Transposed(from[..])
  {
    hide Transposed;
    var col := 0;
    while col < 4
      invariant col <= 4
      invariant forall r: nat, c: nat :: r < 4 && c < col ==> Entry(to[..], r, c) == Entry(from[..], c, r)
    {
      var row := 0;
      while row < 4
        invariant row <= 4
        invariant forall r: nat, c: nat :: r < 4 && c < col ==> Entry(to[..], r, c) == Entry(from[..], c, r)
        invariant forall r: nat :: r < row ==> Entry(to[..], r, col) == Entry(from[..], col, r)
      {
        ghost var before := to[..];
        to[4 * row + col] := from[4 * col + row];
        EntrySet(before, to[..], row, col);
        row := row + 1;
      }
      col := col + 1;
    }
    forall r: nat, c: nat | r < 4 && c < 4
      ensures Entry(to[..], r, c) == Entry(Transposed(from[..]), r, c)
    {
      TransposedEntry(from[..], r, c);
    }
    SameEntries(to[..], Transposed(from[..]));
  }

  lemma TransposedEntry(s: Block, r: nat, c: nat)
    requires r < 4 && c < 4
    ensures Entry(Transposed(s), r, c) == Entry(s, c, r)
  {}

  /** One round of aes_encrypt; the last one does not mix. */
  method Round(state: array<bv8>, keys: array<bv32>, round: nat, mix: bool)
    requires state.Length == 16 && 4 * round + 4 <= keys.Length
    modifies state
    ensures var t := ShiftRows(SubBytes(old(state[..])));
            state[..] == AddRoundKey(if mix then MixColumns(t) else t, keys[..], round)
  {
    hide AddRoundKey, SubBytes, ShiftRows, MixColumns;
    SubState(state);
    ShiftState(state);
    if mix { MixState(state); }
    AddKeyState(state, keys, round);
  }

  /** One round of aes_decrypt, up to the key. */
  method InvRound(state: array<bv8>, keys: array<bv32>, round: nat)
    requires state.Length == 16 && 4 * round + 4 <= keys.Length
    modifies state
    ensures state[..] == AddRoundKey(InvSubBytes(InvShiftRows(old(state[..]))), keys[..], round)
  {
    hide AddRoundKey, InvSubBytes, InvShiftRows;
    InvShiftState(state);
    InvSubState(state);
    AddKeyState(state, keys, round);
  }

  lemma EncryptingStep(s: Block, keys: seq<bv32>, round: nat)
    requires 4 * round + 4 <= |keys|
    ensures Encrypting(s, keys, round) ==
            if round == 0 then AddRoundKey(s, keys, 0)
            else AddRoundKey(MixColumns(ShiftRows(SubBytes(Encrypting(s, keys, round - 1)))), keys, round)
  {
    hide AddRoundKey, SubBytes, ShiftRows, MixColumns;
  }

  lemma DecryptingStep(s: Block, keys: seq<bv32>, rounds: nat, round: nat)
    requires round < rounds && 4 * rounds + 4 <= |keys|
    ensures Decrypting(s, keys, rounds, round) ==
            if round == rounds - 1 then AddRoundKey(s, keys, rounds)
            else InvMixColumns(AddRoundKey(InvSubBytes(InvShiftRows(Decrypting(s, keys, rounds, round + 1))), keys,
                round + 1))
  {
    hide AddRoundKey, InvSubBytes, InvShiftRows, InvMixColumns;
  }

  /** aes_encrypt's loop. */
  method EncryptRounds(state: array<bv8>, keys: array<bv32>, rounds: nat)
    requires state.Length == 16 && 0 < rounds && 4 * rounds + 4 <= keys.Length
    modifies state
    ensures state[..] == Encrypting(old(state[..]), keys[..], rounds - 1)
  {
    hide AddRoundKey, SubBytes, ShiftRows, MixColumns, Encrypting;
    ghost var s := state[..];
    AddKeyState(state, keys, 0);
    EncryptingStep(s, keys[..], 0);
    var round := 1;
    while round < rounds
      invariant 1 <= round <= rounds && state[..] == Encrypting(s, keys[..], round - 1)
    {
      EncryptingStep(s, keys[..], round);
      Round(state, keys, round, true);
      round := round + 1;
    }
  }

  method AesEncrypt(input: array<bv8>, output: array<bv8>, keys: array<bv32>, keySize: nat)
    requires input.Length == 16 && output.Length == 16 && keys.Length >= 4 * (6 + keySize) + 4
    modifies output
    ensures output[..] == Encrypt(old(input[..]), keys[..], keySize)
  {
    hide AddRoundKey, SubBytes, ShiftRows, Transposed, Encrypting;
    var rounds := 6 + keySize;
    var state := new bv8[16];
    LoadState(input, state);
    EncryptRounds(state, keys, rounds);
    Round(state, keys, rounds, false);
    LoadState(state, output);
  }

  /** aes_decrypt's loop. */
  method DecryptRounds(state: array<bv8>, keys: array<bv32>, rounds: nat)
    requires state.Length == 16 && 0 < rounds && 4 * rounds + 4 <= keys.Length
    modifies state
    ensures state[..] == Decrypting(old(state[..]), keys[..], rounds, 0)
  {
    hide AddRoundKey, InvSubBytes, InvShiftRows, InvMixColumns, Decrypting;
    ghost var s := state[..];
    AddKeyState(state, keys, rounds);
    var round := rounds - 1;
    DecryptingStep(s, keys[..], rounds, round);
    while round > 0
      invariant 0 <= round < rounds && state[..] == Decrypting(s, keys[..], rounds, round)
    {
      DecryptingStep(s, keys[..], rounds, round - 1);
      InvRound(state, keys, round);
      InvMixState(state);
      round := round - 1;
    }
  }

  method AesDecrypt(input: array<bv8>, output: array<bv8>, keys: array<bv32>, keySize: nat)
    requires input.Length == 16 && output.Length == 16 && keys.Length >= 4 * (6 + keySize) + 4
    modifies output
    ensures output[..] == Decrypt(old(input[..]), keys[..], keySize)
  {
    hide AddRoundKey, InvSubBytes, InvShiftRows, Transposed, Decrypting;
    var rounds := 6 + keySize;
    var state := new bv8[16];
    LoadState(input, state);
    DecryptRounds(state, keys, rounds);
    InvRound(state, keys, 0);
    LoadState(state, output);
  }
}
