/** Directories: files of 16-byte entries, searched by dirlookup, and what they make of the tree that
    namex walks. */
module FsDirs {
  import opened Blocks
  import opened Options
  import opened Paths
  import opened FsSpec
  import opened FsFiles
  import opened FsTrunc
  import opened FsCode
  import opened IcacheProtocol

  const T_DIR: int := 1
  const DIRENT: nat := 16  // bytes in an entry: a two-byte inode number and DIRSIZ characters

  // ---- Names ----

  /** The character of a C string at `i`; there is a NUL behind the last one. */
  function CharAt(p: seq<Byte>, i: nat): Byte { if i < |p| then p[i] else 0 }

  /** The C string at the beginning of `p`, cut to `n` characters. */
  function Cut(p: seq<Byte>, n: nat): (r: seq<Byte>)
    ensures |r| <= n
    decreases n
  {
    if n == 0 || CharAt(p, 0) == 0 then [] else [p[0]] + Cut(p[1..], n - 1)
  }

  /** strncmp, as far as namecmp's callers care: are the first `n` characters the same? */
  method SameName(p: seq<Byte>, q: seq<Byte>, n: nat) returns (same: bool)
    ensures same <==> Cut(p, n) == Cut(q, n)
  {
    var i := 0;
    while i < n && CharAt(p, i) != 0 && CharAt(p, i) == CharAt(q, i)
      invariant i <= n && i <= |p| && i <= |q|
      invariant Cut(p, n) == Cut(q, n) <==> Cut(p[i..], n - i) == Cut(q[i..], n - i)
    {
      CutCompare(p, q, i, n);
      i := i + 1;
    }
    if i < n { CutCompare(p, q, i, n); }
    same := i == n || CharAt(p, i) == CharAt(q, i);
  }

  lemma CutCompare(p: seq<Byte>, q: seq<Byte>, i: nat, n: nat)
    requires i < n && i <= |p| && i <= |q|
    ensures CharAt(p, i) == CharAt(q, i) != 0 ==>
              (Cut(p[i..], n - i) == Cut(q[i..], n - i) <==> Cut(p[i + 1..], n - i - 1) == Cut(q[i + 1..], n - i - 1))
    ensures CharAt(p, i) == CharAt(q, i) == 0 ==> Cut(p[i..], n - i) == Cut(q[i..], n - i)
    ensures CharAt(p, i) != CharAt(q, i) ==> Cut(p[i..], n - i) != Cut(q[i..], n - i)
  {
    CutMore(p, i, n);
    CutMore(q, i, n);
    if CharAt(p, i) == CharAt(q, i) != 0 {
      var a, b := Cut(p[i + 1..], n - i - 1), Cut(q[i + 1..], n - i - 1);
      assert ([p[i]] + a)[1..] == a && ([q[i]] + b)[1..] == b;
    }
    assert CharAt(p, i) != 0 ==> Cut(p[i..], n - i)[0] == p[i];
    assert CharAt(q, i) != 0 ==> Cut(q[i..], n - i)[0] == q[i];
  }

  lemma CutMore(p: seq<Byte>, i: nat, n: nat)
    requires i < n && i <= |p|
    ensures CharAt(p, i) == 0 ==> Cut(p[i..], n - i) == []
    ensures CharAt(p, i) != 0 ==> i < |p| && Cut(p[i..], n - i) == [p[i]] + Cut(p[i + 1..], n - i - 1)
  {
    if i < |p| { assert p[i..][1..] == p[i + 1..]; }
  }

  // ---- Entries ----

  function EntryInum(c: seq<Byte>, k: nat): nat
    requires DIRENT * k + DIRENT <= |c|
  {
    c[DIRENT * k] as int + 0x100 * c[DIRENT * k + 1] as int
  }

  function EntryName(c: seq<Byte>, k: nat): seq<Byte>
    requires DIRENT * k + DIRENT <= |c|
  {
    Cut(c[DIRENT * k + 2..DIRENT * k + DIRENT], DIRSIZ)
  }

  predicate EntryIs(c: seq<Byte>, k: nat, name: seq<Byte>)
    requires DIRENT * k + DIRENT <= |c|
  {
    EntryInum(c, k) != 0 && EntryName(c, k) == Cut(name, DIRSIZ)
  }

  /** `r` is the first entry of that name, if any. */
  ghost predicate FirstEntry(c: seq<Byte>, name: seq<Byte>, r: Option<nat>) {
    match r
    case Some(k) =>
      DIRENT * k + DIRENT <= |c| && EntryIs(c, k, name) && forall j: nat :: j < k ==> !EntryIs(c, j, name)
    case None => forall j: nat :: DIRENT * j + DIRENT <= |c| ==> !EntryIs(c, j, name)
  }

  datatype LookResult = NotDir | ReadPanic | Missing | Found(inum: nat, off: nat)

  /** The entries are searched from the front; `panic` is a directory that ends inside an entry. */
  method Dirlookup(fs: FileSystem, dp: Inode, name: seq<Byte>) returns (r: LookResult)
    requires FsOk(fs.sb, fs.State()) && dp.inum < |fs.ino| && dp.Val() == fs.ino[dp.inum]
    modifies fs, dp
    ensures unchanged(fs) && unchanged(dp)
    ensures r == NotDir <==> dp.typ != T_DIR
    ensures r != NotDir ==> LookOk(Contents(fs.sb, fs.State(), dp.inum), name, r)
  {
    if dp.typ != T_DIR { return NotDir; }
    ghost var c := Contents(fs.sb, fs.State(), dp.inum);
    ContentsAre(fs.sb, fs.State(), dp.inum);
    hide FsOk, Contents, Cut, LookOk, NoneBefore;
    var off: nat := 0;
    ghost var k: nat := 0;
    while off < dp.size
      invariant unchanged(fs) && unchanged(dp) && off == DIRENT * k <= |c| == dp.size
      invariant NoneBefore(c, name, k)
    {
      var e := ReadEntry(fs, dp, off);
      if |e| != DIRENT {
        LookEnds(c, name, k);
        return ReadPanic;
      }
      var inum := e[0] as int + 0x100 * e[1] as int;
      var same := SameName(name, e[2..], DIRSIZ);
      EntryOf(c, k, e, name);
      if inum != 0 && same { return Found(inum, off); }
      off, k := off + DIRENT, k + 1;
    }
    LookEnds(c, name, k);
    return Missing;
  }

  /** None of the first `k` entries has the name. */
  ghost predicate NoneBefore(c: seq<Byte>, name: seq<Byte>, k: nat) {
    DIRENT * k <= |c| && forall j: nat :: j < k ==> !EntryIs(c, j, name)
  }

  /** What dirlookup answers for a directory with these contents. */
  ghost predicate LookOk(c: seq<Byte>, name: seq<Byte>, r: LookResult) {
    match r
    case NotDir => false
    case ReadPanic => FirstEntry(c, name, None) && |c| % DIRENT != 0
    case Missing => FirstEntry(c, name, None) && |c| % DIRENT == 0
    case Found(inum, off) =>
      off % DIRENT == 0 && FirstEntry(c, name, Some(off / DIRENT)) && inum == EntryInum(c, off / DIRENT)
  }

  /** The next entry, as its bytes. */
  lemma EntryOf(c: seq<Byte>, k: nat, e: seq<Byte>, name: seq<Byte>)
    requires NoneBefore(c, name, k) && DIRENT * k + DIRENT <= |c| && e == c[DIRENT * k..DIRENT * k + DIRENT]
    ensures var inum := e[0] as int + 0x100 * e[1] as int;
            if inum != 0 && Cut(name, DIRSIZ) == Cut(e[2..], DIRSIZ) then LookOk(c, name, Found(inum, DIRENT * k))
            else NoneBefore(c, name, k + 1)
  {
    hide Cut;
    assert e[2..] == c[DIRENT * k + 2..DIRENT * k + DIRENT];
    assert DIRENT * k / DIRENT == k && DIRENT * k % DIRENT == 0;
    assert EntryIs(c, k, name) <==> EntryInum(c, k) != 0 && Cut(e[2..], DIRSIZ) == Cut(name, DIRSIZ);
  }

  lemma LookEnds(c: seq<Byte>, name: seq<Byte>, k: nat)
    requires NoneBefore(c, name, k) && |c| < DIRENT * k + DIRENT
    ensures LookOk(c, name, if |c| == DIRENT * k then Missing else ReadPanic)
  {
    hide EntryIs;
    assert |c| == DIRENT * k + (|c| - DIRENT * k);
  }

  /** The bytes of the directory from `off` on, at most one entry of them. */
  method ReadEntry(fs: FileSystem, dp: Inode, off: nat) returns (e: seq<Byte>)
    requires FsOk(fs.sb, fs.State()) && dp.inum < |fs.ino| && dp.Val() == fs.ino[dp.inum] && dp.typ == T_DIR
             && off < dp.size
    modifies fs, dp
    ensures unchanged(fs) && unchanged(dp)
    ensures var c := Contents(fs.sb, fs.State(), dp.inum);
            off < |c| && e == c[off..if off + DIRENT > |c| then |c| else off + DIRENT]
  {
    FsOkCovers(fs.sb, fs.State(), dp.inum);
    ContentsAre(fs.sb, fs.State(), dp.inum);
    hide FsOk, Contents;
    var d := fs.Readi(dp, off, DIRENT);
    e := d.bytes;
  }

  // ---- The tree namex walks ----

  /** What the first `k` entries give each name: the first one in use wins. */
  function NameMap(c: seq<Byte>, k: nat): map<seq<Byte>, nat>
    requires DIRENT * k <= |c|
  {
    if k == 0 then map[]
    else
      var m, name := NameMap(c, k - 1), EntryName(c, k - 1);
      if EntryInum(c, k - 1) == 0 || name in m then m else m[name := EntryInum(c, k - 1)]
  }

  lemma {:induction false} NameMapFirst(c: seq<Byte>, k: nat, name: seq<Byte>)
    requires DIRENT * k <= |c|
    ensures Cut(name, DIRSIZ) !in NameMap(c, k) <==> NoneBefore(c, name, k)
    ensures Cut(name, DIRSIZ) in NameMap(c, k) ==>
              exists j: nat :: j < k && EntryIs(c, j, name) && NoneBefore(c, name, j)
                               && NameMap(c, k)[Cut(name, DIRSIZ)] == EntryInum(c, j)
  {
    hide Cut;
    if k > 0 {
      NameMapFirst(c, k - 1, name);
      if NoneBefore(c, name, k - 1) && EntryIs(c, k - 1, name) {
        assert NameMap(c, k)[Cut(name, DIRSIZ)] == EntryInum(c, k - 1);
      }
    }
  }

  /** The map agrees with dirlookup. */
  lemma LookupIsMap(c: seq<Byte>, name: seq<Byte>, r: LookResult)
    requires LookOk(c, name, r) && |c| % DIRENT == 0
    ensures var m := NameMap(c, |c| / DIRENT);
            && (r == Missing || r.Found?) && (r == Missing <==> Cut(name, DIRSIZ) !in m)
               && (r.Found? ==> r.inum == m[Cut(name, DIRSIZ)])
  {
    hide Cut, EntryIs, NameMap;
    var k := |c| / DIRENT;
    NameMapFirst(c, k, name);
    if Cut(name, DIRSIZ) in NameMap(c, k) {
      var j: nat :| j < k && EntryIs(c, j, name) && NoneBefore(c, name, j)
                    && NameMap(c, k)[Cut(name, DIRSIZ)] == EntryInum(c, j);
      assert r.Found? && r.off / DIRENT == j;
    }
  }

  /** A name as namex passes it: at most DIRSIZ characters, none of them NUL. */
  predicate NameOk(s: string) { |s| <= DIRSIZ && forall i :: 0 <= i < |s| ==> 0 < s[i] as int < 0x100 }

  function BytesOf(s: string): seq<Byte>
    requires NameOk(s)
  {
    seq(|s|, i requires 0 <= i < |s| => s[i] as int)
  }

  lemma {:induction false} CutWhole(b: seq<Byte>, n: nat)
    requires |b| <= n && forall i :: 0 <= i < |b| ==> b[i] != 0
    ensures Cut(b, n) == b
    decreases n
  {
    if b != [] { CutWhole(b[1..], n - 1); }
  }

  /** `t` is the tree of the directories on this disk. */
  ghost predicate Describes(t: Tree, sb: Super, fs: Fs)
    requires FsOk(sb, fs)
  {
    forall i: nat, s: string :: i < |fs.ino| && NameOk(s) ==> NamedAs(t, sb, fs, i, s)
  }

  ghost predicate NamedAs(t: Tree, sb: Super, fs: Fs, i: nat, s: string)
    requires FsOk(sb, fs) && i < |fs.ino| && NameOk(s)
  {
    var c := Contents(sb, fs, i);
    var m := NameMap(c, |c| / DIRENT);
    && (Id(ROOTDEV, i) in t.dirs <==> fs.ino[i].typ == T_DIR)
    && ((Id(ROOTDEV, i), s) in t.names <==> fs.ino[i].typ == T_DIR && BytesOf(s) in m)
    && ((Id(ROOTDEV, i), s) in t.names ==> t.names[(Id(ROOTDEV, i), s)] == m[BytesOf(s)])
  }

  /** Looking a name up in the tree is what dirlookup does. */
  lemma LookupIsTree(t: Tree, sb: Super, fs: Fs, i: nat, s: string, r: LookResult)
    requires FsOk(sb, fs) && Describes(t, sb, fs) && i < |fs.ino| && NameOk(s) && fs.ino[i].typ == T_DIR
    requires |Contents(sb, fs, i)| % DIRENT == 0 && LookOk(Contents(sb, fs, i), BytesOf(s), r)
    ensures (Id(ROOTDEV, i), s) in t.names <==> r.Found?
    ensures r.Found? ==> t.names[(Id(ROOTDEV, i), s)] == r.inum
  {
    hide FsOk, Contents, LookOk, NameMap, Cut;
    CutWhole(BytesOf(s), DIRSIZ);
    LookupIsMap(Contents(sb, fs, i), BytesOf(s), r);
    assert NamedAs(t, sb, fs, i, s);
  }
}
