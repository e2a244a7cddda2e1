/** Laws of the file system in its users' terms: what is written is what is read, and nobody else's file changes. */
module LfsLaws {
  import opened LfsDisk
  import opened LfsBytes
  import opened LfsVolume
  import opened LfsCode
  import opened LfsFiles

  /** Control block `n` is on a file. */
  predicate Live(t: Table, n: nat) { n < |t.hands| && t.hands[n].On? && t.hands[n].i < |t.files| }

  function FileOn(t: Table, n: nat): AFile
    requires Live(t, n)
  {
    t.files[t.hands[n].i]
  }

  /** A call through control block `n` leaves the others, and every file but the one it is on, as they were. */
  lemma OthersUntouched(t: Table, op: Op)
    requires !op.OpenOp?
    ensures var (u, r) := Apply(t, op);
            if !Live(t, op.n) then u == t && r == SYSERR
            else
              |u.files| == |t.files| && |u.hands| == |t.hands| && (op.CloseOp? || u.hands == t.hands)
              && (forall m | 0 <= m < |t.hands| && m != op.n :: u.hands[m] == t.hands[m])
              && (forall i | 0 <= i < |t.files| && i != t.hands[op.n].i :: u.files[i] == t.files[i])
              && u.files[t.hands[op.n].i].name == FileOn(t, op.n).name
  {
  }

  /** The call writes to file `i`. */
  predicate Writes(t: Table, op: Op, i: nat) { (op.PutOp? || op.TruncOp?) && Live(t, op.n) && t.hands[op.n].i == i }

  /** None of the calls writes to file `i`. */
  predicate Spares(t: Table, ops: seq<Op>, i: nat)
    decreases |ops|
  {
    ops != [] ==> !Writes(t, ops[0], i) && Spares(Apply(t, ops[0]).0, ops[1..], i)
  }

  /** The bytes of a file stay until something is written to it, whatever is opened, closed, read or written meanwhile. */
  lemma {:induction false} BytesStay(t: Table, ops: seq<Op>, i: nat)
    requires i < |t.files| && Spares(t, ops, i)
    ensures var u := ApplyAll(t, ops).0;
            |t.files| <= |u.files| && u.files[i].name == t.files[i].name && u.files[i].bytes == t.files[i].bytes
    decreases |ops|
  {
    if ops != [] {
      StepStays(t, ops[0], i);
      BytesStay(Apply(t, ops[0]).0, ops[1..], i);
    }
  }

  lemma StepStays(t: Table, op: Op, i: nat)
    requires i < |t.files| && !Writes(t, op, i)
    ensures var u := Apply(t, op).0;
            |t.files| <= |u.files| && u.files[i].name == t.files[i].name && u.files[i].bytes == t.files[i].bytes
  {
  }

  // ---- written and read ---------------------------------------------------

  function Puts(n: nat, w: seq<byte>): (ops: seq<Op>)
    ensures |ops| == |w|
  {
    seq(|w|, k requires 0 <= k < |w| => PutOp(n, w[k]))
  }

  function Gets(n: nat, k: nat): (ops: seq<Op>)
    ensures |ops| == k
  {
    seq(k, _ => GetOp(n))
  }

  /** A file with `w` written over it from `pos` on. */
  function Overlaid(bytes: seq<byte>, pos: nat, w: seq<byte>): seq<byte>
    requires pos <= |bytes|
  {
    bytes[..pos] + w + if pos + |w| < |bytes| then bytes[pos + |w|..] else []
  }

  /** The table with another file on control block `n`. */
  function WithOn(t: Table, n: nat, f: AFile): Table
    requires Live(t, n)
  {
    t.(files := t.files[t.hands[n].i := f])
  }

  lemma OverlaidMore(bytes: seq<byte>, pos: nat, w: seq<byte>)
    requires pos <= |bytes| && w != []
    ensures pos < |Written(bytes, pos, w[0])|
    ensures Overlaid(Written(bytes, pos, w[0]), pos + 1, w[1..]) == Overlaid(bytes, pos, w)
  {
    var b := Written(bytes, pos, w[0]);
    assert b[..pos + 1] == bytes[..pos] + [w[0]];
    assert pos + |w| < |bytes| ==> b[pos + |w|..] == bytes[pos + |w|..];
    assert [w[0]] + w[1..] == w;
  }

  lemma WithTwice(t: Table, n: nat, f: AFile, g: AFile)
    requires Live(t, n)
    ensures var u := WithOn(t, n, f); Live(u, n) && FileOn(u, n) == f && WithOn(u, n, g) == WithOn(t, n, g) && WithOn(t, n, FileOn(t, n)) == t
  {
  }

  lemma CallOn(t: Table, n: nat, ch: byte, off: nat)
    requires Live(t, n)
    ensures var f := FileOn(t, n);
            (f.pos <= |f.bytes| ==> Apply(t, PutOp(n, ch)) == (WithOn(t, n, f.(bytes := Written(f.bytes, f.pos, ch), pos := f.pos + 1)), OK))
            && (f.pos < |f.bytes| ==> Apply(t, GetOp(n)) == (WithOn(t, n, f.(pos := f.pos + 1)), f.bytes[f.pos]))
            && (off <= |f.bytes| ==> Apply(t, SeekOp(n, off)) == (WithOn(t, n, f.(pos := off)), OK))
  {
  }

  /** Putting bytes one after the other writes them, each in its place, and touches nothing else. */
  lemma {:induction false} PutsWrite(t: Table, n: nat, w: seq<byte>)
    requires Live(t, n) && FileOn(t, n).pos <= |FileOn(t, n).bytes|
    ensures var f := FileOn(t, n);
            ApplyAll(t, Puts(n, w)) == (WithOn(t, n, f.(bytes := Overlaid(f.bytes, f.pos, w), pos := f.pos + |w|)), seq(|w|, _ => OK))
    decreases |w|
  {
    hide Written, Overlaid, Apply, Live, FileOn, WithOn;
    var f := FileOn(t, n);
    var g := f.(bytes := Overlaid(f.bytes, f.pos, w), pos := f.pos + |w|);
    if w != [] {
      CallOn(t, n, w[0], 0);
      OverlaidMore(f.bytes, f.pos, w);
      var h := f.(bytes := Written(f.bytes, f.pos, w[0]), pos := f.pos + 1);
      WithTwice(t, n, h, g);
      assert Puts(n, w)[0] == PutOp(n, w[0]) && Puts(n, w)[1..] == Puts(n, w[1..]);
      PutsWrite(WithOn(t, n, h), n, w[1..]);
      assert [OK] + seq(|w| - 1, _ => OK) == seq(|w|, _ => OK);
    } else {
      NothingOver(f.bytes, f.pos);
      WithTwice(t, n, f, f);
    }
  }

  lemma NothingOver(bytes: seq<byte>, pos: nat)
    requires pos <= |bytes|
    ensures Overlaid(bytes, pos, []) == bytes
  {
  }

  /** Getting bytes one after the other reads the file from the position on. */
  lemma {:induction false} GetsRead(t: Table, n: nat, k: nat)
    requires Live(t, n) && FileOn(t, n).pos + k <= |FileOn(t, n).bytes|
    ensures var f := FileOn(t, n); ApplyAll(t, Gets(n, k)) == (WithOn(t, n, f.(pos := f.pos + k)), f.bytes[f.pos..f.pos + k])
    decreases k
  {
    hide Apply, Live, FileOn, WithOn;
    var f := FileOn(t, n);
    if k > 0 {
      CallOn(t, n, 0, 0);
      WithTwice(t, n, f.(pos := f.pos + 1), f.(pos := f.pos + k));
      assert Gets(n, k)[0] == GetOp(n) && Gets(n, k)[1..] == Gets(n, k - 1);
      GetsRead(WithOn(t, n, f.(pos := f.pos + 1)), n, k - 1);
      assert [f.bytes[f.pos]] + f.bytes[f.pos + 1..f.pos + k] == f.bytes[f.pos..f.pos + k];
    } else {
      WithTwice(t, n, f, f);
      assert f.bytes[f.pos..f.pos] == [] && f.(pos := f.pos + 0) == f;
    }
  }

  lemma {:induction false} ApplyBoth(t: Table, a: seq<Op>, b: seq<Op>)
    ensures var (u, rs) := ApplyAll(t, a); var (v, ss) := ApplyAll(u, b); ApplyAll(t, a + b) == (v, rs + ss)
    decreases |a|
  {
    hide Apply;
    if a == [] {
      assert a + b == b && ApplyAll(t, a) == (t, []);
      assert [] + ApplyAll(t, b).1 == ApplyAll(t, b).1;
    } else {
      assert (a + b)[0] == a[0] && (a + b)[1..] == a[1..] + b;
      var (u, r) := Apply(t, a[0]);
      ApplyBoth(u, a[1..], b);
      var (v, rs) := ApplyAll(u, a[1..]);
      var ss := ApplyAll(v, b).1;
      assert [r] + (rs + ss) == ([r] + rs) + ss;
    }
  }

  /** The round trip: bytes put, a seek back to where they start, and the same bytes got. */
  lemma WriteThenRead(t: Table, n: nat, w: seq<byte>)
    requires Live(t, n) && FileOn(t, n).pos <= |FileOn(t, n).bytes|
    ensures var f := FileOn(t, n);
            ApplyAll(t, Puts(n, w) + [SeekOp(n, f.pos)] + Gets(n, |w|))
            == (WithOn(t, n, f.(bytes := Overlaid(f.bytes, f.pos, w), pos := f.pos + |w|)), seq(|w| + 1, _ => OK) + w)
  {
    hide Overlaid, Apply, ApplyAll, Live, FileOn, WithOn, Puts, Gets;
    var f := FileOn(t, n);
    var g, h := f.(bytes := Overlaid(f.bytes, f.pos, w)), f.(bytes := Overlaid(f.bytes, f.pos, w), pos := f.pos + |w|);
    OverlaidAt(f.bytes, f.pos, w);
    PutsWrite(t, n, w);
    WithTwice(t, n, h, g);
    WithTwice(t, n, g, h);
    var u, v := WithOn(t, n, h), WithOn(t, n, g);
    CallOn(u, n, 0, f.pos);
    OneCall(u, SeekOp(n, f.pos));
    GetsRead(v, n, |w|);
    ApplyBoth(t, Puts(n, w), [SeekOp(n, f.pos)]);
    ApplyBoth(t, Puts(n, w) + [SeekOp(n, f.pos)], Gets(n, |w|));
    assert seq(|w|, _ => OK) + [OK] == seq(|w| + 1, _ => OK);
  }

  lemma OverlaidAt(bytes: seq<byte>, pos: nat, w: seq<byte>)
    requires pos <= |bytes|
    ensures var b := Overlaid(bytes, pos, w); pos + |w| <= |b| && b[pos..pos + |w|] == w
  {
  }

  lemma OneCall(t: Table, op: Op)
    ensures ApplyAll(t, [op]) == (Apply(t, op).0, [Apply(t, op).1])
  {
    var (u, r) := Apply(t, op);
    assert [op][1..] == [] && ApplyAll(u, []) == (u, []);
    assert [r] + [] == [r];
  }

  /** Reading past the end gives EOF, once the file is truncated at once, and moves nothing. */
  lemma EndOfFile(t: Table, n: nat)
    requires Live(t, n)
    ensures FileOn(t, n).pos >= |FileOn(t, n).bytes| ==> Apply(t, GetOp(n)) == (WithOn(t, n, FileOn(t, n)), EOF)
    ensures var u := Apply(t, TruncOp(n)).0; Live(u, n) && FileOn(u, n).bytes == [] && Apply(u, GetOp(n)) == (u, EOF)
  {
    var u := Apply(t, TruncOp(n)).0;
    assert u.files[t.hands[n].i := FileOn(u, n)] == u.files;
  }

  /** Closing keeps the bytes; opening the name again finds them, from the beginning. */
  lemma CloseThenOpen(t: Table, n: nat)
    requires Live(t, n) && |FileOn(t, n).name| < NAME_LEN && forall c | c in FileOn(t, n).name :: c != NUL
    requires FileOn(t, n).name != "" && Lookup(t.files, FileOn(t, n).name, 0) == t.hands[n].i
    ensures var f := FileOn(t, n); var (u, r) := Apply(Apply(t, CloseOp(n)).0, OpenOp(f.name, true, false));
            0 <= r <= n && Live(u, r) && u.hands[r] == t.hands[n] && FileOn(u, r) == f.(pos := 0, open := true)
  {
    var f := FileOn(t, n);
    var s := Apply(t, CloseOp(n)).0;
    SameNames(t.files, s.files, f.name, 0);
    assert s.hands[n].Free?;
  }
}
