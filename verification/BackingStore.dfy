/**
 The page server: a table of backing stores and the disk blocks behind them.
 A store owns a window of RD_PAGES_PER_BS pages on the disk and a page is eight
 consecutive 512-byte blocks.
 */
module BackingStore {

  type Byte = b: int | 0 <= b < 256

  const NBPG := 4096
  const RD_BLKSIZ := 512
  const BLOCKS_PER_PAGE := 8
  const MAX_BS_ENTRIES := 8
  const RD_PAGES_PER_BS := 205
  const MAX_PAGES_PER_BS := 200

  type Block = b: seq<Byte> | |b| == RD_BLKSIZ witness seq(RD_BLKSIZ, _ => 0)
  type Page = p: seq<Byte> | |p| == NBPG witness seq(NBPG, _ => 0)

  /** Every store has its whole window on the disk. */
  predicate DiskOk(disk: seq<Block>) {
    |disk| == MAX_BS_ENTRIES * RD_PAGES_PER_BS * BLOCKS_PER_PAGE
  }

  predicate SlotOk(bs: int, page: int) {
    0 <= bs < MAX_BS_ENTRIES && 0 <= page < MAX_PAGES_PER_BS
  }

  function FirstBlock(bs: nat, page: nat): nat {
    (bs * RD_PAGES_PER_BS + page) * BLOCKS_PER_PAGE
  }

  /** Distinct (store, page) slots never share a block, and all lie on the disk. */
  lemma SlotsDisjoint(bs: nat, page: nat, bs': nat, page': nat)
    requires SlotOk(bs, page) && SlotOk(bs', page') && (bs, page) != (bs', page')
    ensures FirstBlock(bs, page) + BLOCKS_PER_PAGE <= FirstBlock(bs', page')
         || FirstBlock(bs', page') + BLOCKS_PER_PAGE <= FirstBlock(bs, page)
    ensures FirstBlock(bs, page) + BLOCKS_PER_PAGE <= MAX_BS_ENTRIES * RD_PAGES_PER_BS * BLOCKS_PER_PAGE
  {
    if bs < bs' {
      assert bs * RD_PAGES_PER_BS + RD_PAGES_PER_BS <= bs' * RD_PAGES_PER_BS;
    } else if bs' < bs {
      assert bs' * RD_PAGES_PER_BS + RD_PAGES_PER_BS <= bs * RD_PAGES_PER_BS;
    }
  }

  /** What the disk holds for a page of a store. */
  function PageOn(disk: seq<Block>, bs: nat, page: nat): (contents: Page)
    requires DiskOk(disk) && SlotOk(bs, page)
  {
    var s: seq<Byte> := seq(NBPG, i requires 0 <= i < NBPG => ByteOn(disk, bs, page, i));
    assert |s| == NBPG;
    s
  }

  function ByteOn(disk: seq<Block>, bs: nat, page: nat, i: nat): Byte
    requires DiskOk(disk) && SlotOk(bs, page) && i < NBPG
  {
    disk[FirstBlock(bs, page) + i / RD_BLKSIZ][i % RD_BLKSIZ]
  }

  /** The disk after a page of a store has been written. */
  function WithPage(disk: seq<Block>, bs: nat, page: nat, contents: Page): (d: seq<Block>)
    requires DiskOk(disk) && SlotOk(bs, page)
    ensures DiskOk(d)
  {
    var first := FirstBlock(bs, page);
    seq(|disk|, b requires 0 <= b < |disk| =>
      if first <= b < first + BLOCKS_PER_PAGE
      then contents[(b - first) * RD_BLKSIZ..(b - first + 1) * RD_BLKSIZ]
      else disk[b])
  }

  lemma ReadBackSame(disk: seq<Block>, bs: nat, page: nat, contents: Page)
    requires DiskOk(disk) && SlotOk(bs, page)
    ensures PageOn(WithPage(disk, bs, page, contents), bs, page) == contents
  {
    var d := WithPage(disk, bs, page, contents);
    forall i | 0 <= i < NBPG
      ensures PageOn(d, bs, page)[i] == contents[i]
    {
      var k := i / RD_BLKSIZ;
      assert i == k * RD_BLKSIZ + i % RD_BLKSIZ;
      assert d[FirstBlock(bs, page) + k] == contents[k * RD_BLKSIZ..(k + 1) * RD_BLKSIZ];
    }
  }

  lemma ReadBackOther(disk: seq<Block>, bs: nat, page: nat, contents: Page, bs': nat, page': nat)
    requires DiskOk(disk) && SlotOk(bs, page) && SlotOk(bs', page') && (bs, page) != (bs', page')
    ensures PageOn(WithPage(disk, bs, page, contents), bs', page') == PageOn(disk, bs', page')
  {
    SlotsDisjoint(bs, page, bs', page');
    var d := WithPage(disk, bs, page, contents);
    forall i | 0 <= i < NBPG
      ensures PageOn(d, bs', page')[i] == PageOn(disk, bs', page')[i]
    {
    }
  }
}
