/** Reading and writing one byte at the current position. */
module LfsBytes {
  import opened LfsDisk
  import opened LfsState
  import opened LfsSteps
  import opened LfsAlloc

  /** The buffer holds the block of the current position, and the byte pointer is in place. */
  ghost predicate Positioned(fs: Fs, sh: Shape) {
    fs.at == fs.pos % BLKSIZ && fs.pos / BLKSIZ < |sh.blocks| && fs.dnum == sh.blocks[fs.pos / BLKSIZ]
  }

  /** The end of lflputc. */
  function PutByte(fs: Fs, ch: byte): Fs
    requires fs.at < BLKSIZ
  {
    var grow := fs.pos >= fs.dir.size;
    fs.(dir := if grow then fs.dir.(size := fs.dir.size + 1) else fs.dir,
        db := fs.db[fs.at := ch], at := fs.at + 1, pos := fs.pos + 1, dbdirty := true)
  }

  /** The file as a plain sequence with one byte overwritten or appended. */
  function Written(s: seq<byte>, pos: nat, ch: byte): seq<byte>
    requires pos <= |s|
  {
    if pos < |s| then s[pos := ch] else s + [ch]
  }

  lemma BufferIs(fs: Fs, sh: Shape, g: Geo, mi: multiset<nat>, md: multiset<nat>)
    requires Base(fs, sh, g, mi, md) && Positioned(fs, sh) && fs.pos < fs.dir.size
    ensures fs.at < BLKSIZ && fs.db[fs.at] == Contents(fs, sh.blocks)[fs.pos]
  {
  }

  lemma PutByteAt(fs: Fs, sh: Shape, ch: byte, i: nat)
    requires Positioned(fs, sh) && forall a, b | 0 <= a < b < |sh.blocks| :: sh.blocks[a] != sh.blocks[b]
    ensures ByteAt(PutByte(fs, ch), sh.blocks, i) == if i == fs.pos then ch else ByteAt(fs, sh.blocks, i)
  {
    var r, b, p := PutByte(fs, ch), i / BLKSIZ, fs.pos / BLKSIZ;
    if b < |sh.blocks| && b != p {
      assert sh.blocks[b] != sh.blocks[p];
    }
  }

  lemma PutByteBase(fs: Fs, sh: Shape, g: Geo, mi: multiset<nat>, md: multiset<nat>, ch: byte)
    requires Base(fs.(dbdirty := true), sh, g, mi, md) && Positioned(fs, sh)
    ensures Base(PutByte(fs, ch), sh, g, mi, md)
  {
    var f, r := fs.(dbdirty := true), PutByte(fs, ch);
    hide Owned, FreeData, FreeIndex, IbAt, Chain, Slots;
    SameIndex(f, r, sh.chain, sh.blocks) by { SameIx(f, r, sh.chain); }
  }

  lemma SameIx(f: Fs, r: Fs, chain: seq<nat>)
    requires r.inum == f.inum && r.ib == f.ib && r.disk == f.disk
    ensures forall k | 0 <= k < |chain| :: Ix(r, chain[k]) == Ix(f, chain[k])
  {
  }

  /** Writing at the current position overwrites or appends exactly that byte. */
  lemma PutByteWrites(fs: Fs, sh: Shape, g: Geo, mi: multiset<nat>, md: multiset<nat>, ch: byte)
    requires Base(fs.(dbdirty := true), sh, g, mi, md) && Positioned(fs, sh) && fs.pos <= fs.dir.size
    ensures Contents(PutByte(fs, ch), sh.blocks) == Written(Contents(fs, sh.blocks), fs.pos, ch)
  {
    OwnedApart(sh.blocks, sh.dfree, md);
    var r := PutByte(fs, ch);
    var s, t := Contents(r, sh.blocks), Written(Contents(fs, sh.blocks), fs.pos, ch);
    hide Base, ByteAt;
    forall i | 0 <= i < |s|
      ensures s[i] == t[i]
    {
      PutByteAt(fs, sh, ch, i);
    }
  }

  /** The byte pointer after one step. */
  lemma StepPointer(fs: Fs, sh: Shape)
    requires Positioned(fs, sh)
    ensures Pointed(fs.(at := fs.at + 1, pos := fs.pos + 1), sh.blocks)
  {
    var p := fs.pos;
    if fs.at + 1 < BLKSIZ {
      assert (p + 1) / BLKSIZ == p / BLKSIZ && (p + 1) % BLKSIZ == p % BLKSIZ + 1;
    }
  }
}
