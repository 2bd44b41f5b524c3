/** Disk blocks as the kernel sees them: BSIZE bytes, also read as little-endian
    32-bit words (the log header and indirect blocks are arrays of uint). */
module Blocks {

  const BSIZE: nat := 512
  const NWORDS: nat := 128
  const ROOTDEV: nat := 1  // device of the root file system

  type Byte = x: int | 0 <= x < 256
  type Word = x: int | 0 <= x < 0x1_0000_0000
  type Block = b: seq<Byte> | |b| == 512 witness seq(512, _ => 0)

  function ZeroBlock(): (b: Block)
    ensures forall i :: 0 <= i < BSIZE ==> b[i] == 0
  {
    seq(512, _ => 0)
  }

  function GetWord(b: Block, i: nat): Word
    requires i < NWORDS
  {
    b[4*i] as int + 0x100 * b[4*i+1] as int + 0x1_0000 * b[4*i+2] as int + 0x100_0000 * b[4*i+3] as int
  }

  function PutWord(b: Block, i: nat, w: Word): Block
    requires i < NWORDS
  {
    b[4*i := w % 0x100][4*i+1 := w / 0x100 % 0x100][4*i+2 := w / 0x1_0000 % 0x100][4*i+3 := w / 0x100_0000]
  }

  lemma WordBytes(w: Word)
    ensures w == w % 0x100 + 0x100 * (w / 0x100 % 0x100) + 0x1_0000 * (w / 0x1_0000 % 0x100)
            + 0x100_0000 * (w / 0x100_0000)
  {}

  /** Storing a word changes that word and no other. */
  lemma PutWordGet(b: Block, i: nat, w: Word, j: nat)
    requires i < NWORDS && j < NWORDS
    ensures GetWord(PutWord(b, i, w), j) == if i == j then w else GetWord(b, j)
  {
    var p, q, r, t := w % 0x100, w / 0x100 % 0x100, w / 0x1_0000 % 0x100, w / 0x100_0000;
    var c := PutWord(b, i, w);
    var k, m := 4 * i, 4 * j;
    assert c == b[k := p][k+1 := q][k+2 := r][k+3 := t];
    if i == j {
      WordBytes(w);
    } else {
      assert c[m] == b[m] && c[m+1] == b[m+1] && c[m+2] == b[m+2] && c[m+3] == b[m+3];
    }
  }

  /** Storing an array of words from index `at` on. */
  function PutWords(b: Block, at: nat, ws: seq<Word>): Block
    requires at + |ws| <= NWORDS
    decreases |ws|
  {
    if |ws| == 0 then b
    else PutWord(PutWords(b, at, ws[..|ws|-1]), at + |ws| - 1, ws[|ws|-1])
  }

  lemma {:induction false} PutWordsGet(b: Block, at: nat, ws: seq<Word>, j: nat)
    requires at + |ws| <= NWORDS && j < NWORDS
    ensures GetWord(PutWords(b, at, ws), j) == if at <= j < at + |ws| then ws[j-at] else GetWord(b, j)
    decreases |ws|
  {
    if |ws| == 0 {
    } else {
      var front := ws[..|ws|-1];
      PutWordsGet(b, at, front, j);
      PutWordGet(PutWords(b, at, front), at + |ws| - 1, ws[|ws|-1], j);
    }
  }
}
