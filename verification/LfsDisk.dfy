/**
 The local file system's disk format: 512-byte sectors, seven 72-byte index blocks to a
 sector in the index area, and free data blocks that begin with the number of the next one.
 */
module LfsDisk {

  type byte = x: int | 0 <= x < 256
  type Word = x: int | 0 <= x < 0x1_0000_0000

  const NULLID: Word := 0xFFFF_FFFF
  const BLKSIZ := 512
  const IBLEN := 16
  const IDATA := 8192
  const IBSIZE := 72
  const PERSECT := 7

  type Sector = s: seq<byte> | |s| == BLKSIZ witness seq(BLKSIZ, i => 0)
  type Disk = seq<Sector>

  /** An index block: its successor, the first byte of the file it covers, and its data blocks. */
  datatype IBlk = IBlk(next: Word, off: Word, dba: seq<Word>)

  predicate IbOk(ib: IBlk) { |ib.dba| == IBLEN }

  // ---- words --------------------------------------------------------------

  function ByteOf(w: Word, i: nat): byte
    requires i < 4
  {
    if i == 0 then w % 256 else if i == 1 then w / 256 % 256 else if i == 2 then w / 65536 % 256 else w / 16777216
  }

  function WordOf(b0: byte, b1: byte, b2: byte, b3: byte): Word {
    b0 + 256 * b1 + 65536 * b2 + 16777216 * b3
  }

  lemma WordTrip(w: Word)
    ensures WordOf(ByteOf(w, 0), ByteOf(w, 1), ByteOf(w, 2), ByteOf(w, 3)) == w
  {
    var a, b := w / 256, w / 65536;
    assert w / 16777216 == b / 256;
    assert b == a / 256;
  }

  function WordAt(bs: seq<byte>, k: nat): Word
    requires 4 * k + 3 < |bs|
  {
    WordOf(bs[4 * k], bs[4 * k + 1], bs[4 * k + 2], bs[4 * k + 3])
  }

  // ---- index blocks -------------------------------------------------------

  function Field(ib: IBlk, k: nat): Word
    requires IbOk(ib) && k < 18
  {
    if k == 0 then ib.next else if k == 1 then ib.off else ib.dba[k - 2]
  }

  function Encode(ib: IBlk): (bs: seq<byte>)
    requires IbOk(ib)
    ensures |bs| == IBSIZE
  {
    seq<byte>(IBSIZE, i requires 0 <= i < IBSIZE => ByteOf(Field(ib, i / 4), i % 4))
  }

  function Decode(bs: seq<byte>): (ib: IBlk)
    requires |bs| == IBSIZE
    ensures IbOk(ib)
  {
    IBlk(WordAt(bs, 0), WordAt(bs, 1), seq<Word>(IBLEN, j requires 0 <= j < IBLEN => WordAt(bs, j + 2)))
  }

  lemma FieldTrip(ib: IBlk, k: nat)
    requires IbOk(ib) && k < 18
    ensures WordAt(Encode(ib), k) == Field(ib, k)
  {
    var bs, w := Encode(ib), Field(ib, k);
    assert bs[4 * k] == ByteOf(w, 0);
    assert bs[4 * k + 1] == ByteOf(w, 1);
    assert bs[4 * k + 2] == ByteOf(w, 2);
    assert bs[4 * k + 3] == ByteOf(w, 3);
    WordTrip(w);
  }

  lemma CodeTrip(ib: IBlk)
    requires IbOk(ib)
    ensures Decode(Encode(ib)) == ib
  {
    hide Encode, WordAt;
    FieldTrip(ib, 0);
    FieldTrip(ib, 1);
    forall j | 0 <= j < IBLEN
      ensures WordAt(Encode(ib), j + 2) == ib.dba[j]
    {
      FieldTrip(ib, j + 2);
    }
  }

  // ---- the index area -----------------------------------------------------

  function SectOf(n: nat): nat { n / PERSECT + 1 }

  function DispOf(n: nat): (d: nat)
    ensures d + IBSIZE <= BLKSIZ
  {
    n % PERSECT * IBSIZE
  }

  /** Index block `n` as it is on disk. */
  function IbAt(disk: Disk, n: nat): (ib: IBlk)
    ensures IbOk(ib)
  {
    if SectOf(n) < |disk| then Decode(disk[SectOf(n)][DispOf(n)..DispOf(n) + IBSIZE]) else IBlk(NULLID, 0, seq(IBLEN, _ => NULLID))
  }

  function Patched(s: Sector, d: nat, bs: seq<byte>): (t: Sector)
    requires d + |bs| <= BLKSIZ
  {
    s[..d] + bs + s[d + |bs|..]
  }

  /** lfibput: the sector is read, 72 of its bytes replaced, and written back. */
  function WithIb(disk: Disk, n: nat, ib: IBlk): (r: Disk)
    requires IbOk(ib)
    ensures |r| == |disk|
  {
    if SectOf(n) < |disk| then disk[SectOf(n) := Patched(disk[SectOf(n)], DispOf(n), Encode(ib))] else disk
  }

  /** A block written is the block read; the other six in its sector, and all other sectors, stay as they were. */
  lemma IbPutGet(disk: Disk, n: nat, ib: IBlk, m: nat)
    requires IbOk(ib) && SectOf(n) < |disk|
    ensures IbAt(WithIb(disk, n, ib), m) == if m == n then ib else IbAt(disk, m)
  {
    hide Encode, Decode;
    var s, t := disk[SectOf(n)], Patched(disk[SectOf(n)], DispOf(n), Encode(ib));
    if m == n {
      assert t[DispOf(n)..DispOf(n) + IBSIZE] == Encode(ib);
      CodeTrip(ib);
    } else if SectOf(m) == SectOf(n) {
      SlotsApart(n, m);
      assert t[DispOf(m)..DispOf(m) + IBSIZE] == s[DispOf(m)..DispOf(m) + IBSIZE];
    }
  }

  lemma SlotsApart(n: nat, m: nat)
    requires n != m && SectOf(n) == SectOf(m)
    ensures DispOf(m) + IBSIZE <= DispOf(n) || DispOf(n) + IBSIZE <= DispOf(m)
  {
    assert n == n / PERSECT * PERSECT + n % PERSECT;
    assert m == m / PERSECT * PERSECT + m % PERSECT;
  }

  /** The number a free data block begins with. */
  function NextOf(s: Sector): Word { WordAt(s, 0) }

  /** What lfdbfree writes: the next block's number, and whatever happens to follow it. */
  function FreeBlock(next: Word, rest: Sector): (s: Sector) {
    Patched(rest, 0, [ByteOf(next, 0), ByteOf(next, 1), ByteOf(next, 2), ByteOf(next, 3)])
  }

  lemma FreeTrip(next: Word, rest: Sector)
    ensures NextOf(FreeBlock(next, rest)) == next
  {
    WordTrip(next);
    var s := FreeBlock(next, rest);
    assert s[0] == ByteOf(next, 0) && s[1] == ByteOf(next, 1) && s[2] == ByteOf(next, 2) && s[3] == ByteOf(next, 3);
  }

  // ---- the copy loops -----------------------------------------------------

  /** lfibget's loop */
  method IbGet(disk: Disk, n: nat) returns (ib: IBlk)
    requires SectOf(n) < |disk|
    ensures ib == IbAt(disk, n)
  {
    var dbuff, d := disk[SectOf(n)], DispOf(n);
    var ibuff: seq<byte> := [];
    for i := 0 to IBSIZE
      invariant ibuff == dbuff[d..d + i]
    {
      ibuff := ibuff + [dbuff[d + i]];
    }
    ib := Decode(ibuff);
  }

  /** lfibput's loop */
  method IbPut(disk: Disk, n: nat, ib: IBlk) returns (r: Disk)
    requires IbOk(ib) && SectOf(n) < |disk|
    ensures r == WithIb(disk, n, ib)
  {
    var s, d, from := disk[SectOf(n)], DispOf(n), Encode(ib);
    var dbuff: seq<byte> := s;
    for i := 0 to IBSIZE
      invariant |dbuff| == BLKSIZ && dbuff == s[..d] + from[..i] + s[d + i..]
    {
      dbuff := dbuff[d + i := from[i]];
    }
    r := disk[SectOf(n) := dbuff];
    assert dbuff == Patched(s, d, from);
  }

  /** lfibclear */
  method IbClear(off: Word) returns (ib: IBlk)
    ensures ib == Blank(off)
  {
    var dba: seq<Word> := [];
    for i := 0 to IBLEN
      invariant |dba| == i && forall j | 0 <= j < i :: dba[j] == NULLID
    {
      dba := dba + [NULLID];
    }
    ib := IBlk(NULLID, off, dba);
    assert ib.dba == Blank(off).dba;
  }

  function Blank(off: Word): (ib: IBlk)
    ensures IbOk(ib)
  {
    IBlk(NULLID, off, seq<Word>(IBLEN, _ => NULLID))
  }

  /** An index block as it is on the free list: nothing in it but the link. */
  predicate FreeLink(ib: IBlk, next: int) { ib.next == next && ib.off == 0 && ib.dba == Blank(0).dba }
}
