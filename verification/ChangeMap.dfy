/** Mapping byte spans of an old file to a new one through a line diff. The diff itself is an
    opcode list taken by contract: it tiles both line sequences, `equal` opcodes pair equal
    lines and never touch each other. */
module ChangeMap {
  import opened Intervals
  import opened Wrappers

  type Byte = bv8
  type Line = seq<Byte>

  datatype Tag = Equal | Replace | Delete | Inserted

  datatype Opcode = Opcode(tag: Tag, i1: nat, i2: nat, j1: nat, j2: nat)

  datatype Block = Block(oldStart: int, newStart: int, length: int)

  datatype Status = Unchanged | Modified | Added | Deleted

  datatype FileChange = FileChange(status: Status, changedNew: seq<Interval>, changedOld: seq<Interval>,
                                   equal: seq<Block>)

  // ---- lines and offsets --------------------------------------------------------------------------

  function Raw(lines: seq<Line>): seq<Byte> {
    if lines == [] then [] else Raw(lines[..|lines| - 1]) + lines[|lines| - 1]
  }

  /** Byte offset of line `i`. */
  function Off(lines: seq<Line>, i: nat): nat
    requires i <= |lines|
  {
    if i == 0 then 0 else Off(lines, i - 1) + |lines[i - 1]|
  }

  /** `_line_offsets` */
  method LineOffsets(lines: seq<Line>) returns (offsets: seq<nat>)
    ensures |offsets| == |lines| + 1
    ensures forall i :: 0 <= i <= |lines| ==> offsets[i] == Off(lines, i) == |Raw(lines[..i])|
  {
    offsets := [0];
    for k := 0 to |lines|
      invariant |offsets| == k + 1 && forall i :: 0 <= i <= k ==> offsets[i] == Off(lines, i)
    {
      offsets := offsets + [offsets[|offsets| - 1] + |lines[k]|];
    }
    forall i | 0 <= i <= |lines|
      ensures Off(lines, i) == |Raw(lines[..i])|
    {
      OffPrefix(lines, i);
    }
  }

  lemma {:induction false} OffGrows(lines: seq<Line>, i: nat, j: nat)
    requires i <= j <= |lines|
    ensures Off(lines, i) <= Off(lines, j)
    decreases j
  {
    if i < j {
      OffGrows(lines, i, j - 1);
    }
  }

  lemma {:induction false} OffPrefix(lines: seq<Line>, i: nat)
    requires i <= |lines|
    ensures Off(lines, i) == |Raw(lines[..i])|
  {
    if i > 0 {
      OffPrefix(lines, i - 1);
      assert lines[..i][..i - 1] == lines[..i - 1];
    }
  }

  lemma RawLength(lines: seq<Line>)
    ensures |Raw(lines)| == Off(lines, |lines|)
  {
    OffPrefix(lines, |lines|);
    assert lines[..|lines|] == lines;
  }

  lemma RawPush(lines: seq<Line>)
    requires lines != []
    ensures Raw(lines) == Raw(lines[..|lines| - 1]) + lines[|lines| - 1]
  {
  }

  lemma {:induction false} RawAdd(a: seq<Line>, b: seq<Line>)
    ensures Raw(a + b) == Raw(a) + Raw(b)
    decreases |b|
  {
    if b == [] {
      assert a + b == a;
    } else {
      var n := |b| - 1;
      RawAdd(a, b[..n]);
      assert (a + b)[..|a + b| - 1] == a + b[..n] && (a + b)[|a + b| - 1] == b[n];
      RawPush(a + b);
      RawPush(b);
      hide Raw;
      assert (Raw(a) + Raw(b[..n])) + b[n] == Raw(a) + (Raw(b[..n]) + b[n]);
    }
  }

  /** The bytes between two line offsets are the bytes of those lines. */
  lemma RawSlice(lines: seq<Line>, i: nat, j: nat)
    requires i <= j <= |lines|
    ensures Off(lines, i) <= Off(lines, j) <= |Raw(lines)|
    ensures Raw(lines)[Off(lines, i)..Off(lines, j)] == Raw(lines[i..j])
  {
    hide Raw, Off;
    OffGrows(lines, i, j);
    OffGrows(lines, j, |lines|);
    RawLength(lines);
    OffPrefix(lines, i);
    OffPrefix(lines, j);
    assert lines == lines[..j] + lines[j..];
    assert lines[..j] == lines[..i] + lines[i..j];
    RawAdd(lines[..j], lines[j..]);
    RawAdd(lines[..i], lines[i..j]);
    SliceMiddle(Raw(lines[..i]), Raw(lines[i..j]), Raw(lines[j..]));
  }

  lemma SliceMiddle(x: seq<Byte>, y: seq<Byte>, z: seq<Byte>)
    ensures (x + y + z)[|x|..|x| + |y|] == y
  {
  }

  // ---- the opcode contract ------------------------------------------------------------------------

  ghost predicate FitsTag(a: seq<Line>, b: seq<Line>, op: Opcode) {
    && op.i1 <= op.i2 <= |a| && op.j1 <= op.j2 <= |b|
    && match op.tag
       case Equal => op.i1 < op.i2 && a[op.i1..op.i2] == b[op.j1..op.j2]
       case Replace => op.i1 < op.i2 && op.j1 < op.j2
       case Delete => op.i1 < op.i2 && op.j1 == op.j2
       case Inserted => op.i1 == op.i2 && op.j1 < op.j2
  }

  ghost predicate Opcodes(a: seq<Line>, b: seq<Line>, ops: seq<Opcode>) {
    && (forall k :: 0 <= k < |ops| ==> FitsTag(a, b, ops[k]))
    && (forall k :: 0 <= k < |ops| - 1 ==> ops[k].i2 == ops[k + 1].i1 && ops[k].j2 == ops[k + 1].j1)
    && (forall k :: 0 <= k < |ops| - 1 ==> !(ops[k].tag == Equal && ops[k + 1].tag == Equal))
    && (if ops == [] then a == [] && b == []
        else ops[0].i1 == 0 && ops[0].j1 == 0 && ops[|ops| - 1].i2 == |a| && ops[|ops| - 1].j2 == |b|)
  }

  // ---- the change record ----------------------------------------------------------------------------

  function OldSide(a: seq<Line>, op: Opcode): Interval
    requires op.i1 <= op.i2 <= |a|
  {
    Interval(Off(a, op.i1), Off(a, op.i2))
  }

  function NewSide(b: seq<Line>, op: Opcode): Interval
    requires op.j1 <= op.j2 <= |b|
  {
    Interval(Off(b, op.j1), Off(b, op.j2))
  }

  ghost predicate InRange(a: seq<Line>, b: seq<Line>, ops: seq<Opcode>) {
    forall k :: 0 <= k < |ops| ==> ops[k].i1 <= ops[k].i2 <= |a| && ops[k].j1 <= ops[k].j2 <= |b|
  }

  /** One opcode's entries. A pure deletion leaves an empty interval at its point in the new file. */
  function Step(a: seq<Line>, b: seq<Line>, op: Opcode, c: FileChange): FileChange
    requires op.i1 <= op.i2 <= |a| && op.j1 <= op.j2 <= |b|
  {
    var o, n := OldSide(a, op), NewSide(b, op);
    if op.tag == Equal then c.(equal := c.equal + [Block(o.lo, n.lo, o.hi - o.lo)])
    else c.(changedNew := c.changedNew + (if op.j2 > op.j1 then [n] else [])
                          + (if op.j2 == op.j1 && op.i2 > op.i1 then [n] else []),
            changedOld := c.changedOld + (if op.i2 > op.i1 then [o] else []))
  }

  function ChangeOf(a: seq<Line>, b: seq<Line>, ops: seq<Opcode>): (c: FileChange)
    requires InRange(a, b, ops)
  {
    if ops == [] then FileChange(Modified, [], [], [])
    else Step(a, b, ops[|ops| - 1], ChangeOf(a, b, ops[..|ops| - 1]))
  }

  lemma NothingChanges(a: seq<Line>, b: seq<Line>)
    ensures ChangeOf(a, b, []) == FileChange(Modified, [], [], [])
  {
  }

  lemma ChangeStep(a: seq<Line>, b: seq<Line>, ops: seq<Opcode>, k: nat)
    requires InRange(a, b, ops) && k < |ops|
    ensures ChangeOf(a, b, ops[..k + 1]) == Step(a, b, ops[k], ChangeOf(a, b, ops[..k]))
  {
    assert ops[..k + 1][..k] == ops[..k];
  }

  /** The opcode loop of `map_change` for two different blobs. */
  method MapModified(a: seq<Line>, b: seq<Line>, ops: seq<Opcode>) returns (c: FileChange)
    requires InRange(a, b, ops)
    ensures c == ChangeOf(a, b, ops)
  {
    hide ChangeOf, Off;
    var oldOff := LineOffsets(a);
    var newOff := LineOffsets(b);
    var changedNew: seq<Interval>, changedOld: seq<Interval>, equal: seq<Block> := [], [], [];
    NothingChanges(a, b);
    for k := 0 to |ops|
      invariant FileChange(Modified, changedNew, changedOld, equal) == ChangeOf(a, b, ops[..k])
    {
      var op := ops[k];
      ChangeStep(a, b, ops, k);
      if op.tag == Equal {
        OffGrows(a, op.i1, op.i2);
        equal := equal + [Block(oldOff[op.i1], newOff[op.j1], oldOff[op.i2] - oldOff[op.i1])];
      } else {
        if op.j2 > op.j1 {
          changedNew := changedNew + [Interval(newOff[op.j1], newOff[op.j2])];
        }
        if op.i2 > op.i1 {
          changedOld := changedOld + [Interval(oldOff[op.i1], oldOff[op.i2])];
        }
        if op.j2 == op.j1 && op.i2 > op.i1 {
          changedNew := changedNew + [Interval(newOff[op.j1], newOff[op.j1])];
        }
      }
    }
    assert ops[..|ops|] == ops;
    c := FileChange(Modified, changedNew, changedOld, equal);
  }

  /** What a path held before or after; nothing when it was absent. */
  function Held(lines: Option<seq<Line>>): seq<Byte> {
    if lines.Some? then Raw(lines.value) else []
  }

  function Whole(raw: seq<Byte>): seq<Interval> {
    if raw == [] then [] else [Interval(0, |raw|)]
  }

  /** The block is in range of both contents and pairs identical bytes. */
  predicate PairsSame(before: seq<Byte>, after: seq<Byte>, blk: Block) {
    && 0 <= blk.length && 0 <= blk.oldStart && blk.oldStart + blk.length <= |before|
    && 0 <= blk.newStart && blk.newStart + blk.length <= |after|
    && before[blk.oldStart..blk.oldStart + blk.length] == after[blk.newStart..blk.newStart + blk.length]
  }

  /** The record accounts for every byte of both contents once: changed, or paired with the very
      same bytes on the other side. */
  ghost predicate Accounts(before: seq<Byte>, after: seq<Byte>, c: FileChange) {
    && Bytes(c.changedOld) + Bytes(OldSides(c.equal)) == Span(0, |before|)
    && Bytes(c.changedNew) + Bytes(NewSides(c.equal)) == Span(0, |after|)
    && Measure(c.changedOld) + Measure(OldSides(c.equal)) == |before|
    && Measure(c.changedNew) + Measure(NewSides(c.equal)) == |after|
    && forall i :: 0 <= i < |c.equal| ==> PairsSame(before, after, c.equal[i])
  }

  /** `map_change` for one path of either tree; equal blobs are equal contents. Whatever the path
      went through, the record accounts for every byte of both sides. */
  method MapFile(a: Option<seq<Line>>, b: Option<seq<Line>>, ops: seq<Opcode>) returns (c: FileChange)
    requires a.Some? || b.Some?
    requires a.Some? && b.Some? ==> InRange(a.value, b.value, ops)
    ensures (a.Some? && b.Some? && Raw(a.value) != Raw(b.value) ==> Opcodes(a.value, b.value, ops)) ==>
              Accounts(Held(a), Held(b), c)
    ensures a.None? ==> c == FileChange(Added, Whole(Raw(b.value)), [], [])
    ensures b.None? ==> c == FileChange(Deleted, [], Whole(Raw(a.value)), [])
    ensures a.Some? && b.Some? && Raw(a.value) == Raw(b.value) ==>
      c == FileChange(Unchanged, [], [], [Block(0, 0, |Raw(a.value)|)])
    ensures a.Some? && b.Some? && Raw(a.value) != Raw(b.value) ==> c == ChangeOf(a.value, b.value, ops)
  {
    hide Accounts, ChangeOf, Opcodes, InRange;
    if a.None? {
      c := FileChange(Added, Whole(Raw(b.value)), [], []);
      WholeAccounts(Raw(b.value));
    } else if b.None? {
      c := FileChange(Deleted, [], Whole(Raw(a.value)), []);
      WholeAccounts(Raw(a.value));
    } else if Raw(a.value) == Raw(b.value) {
      c := FileChange(Unchanged, [], [], [Block(0, 0, |Raw(a.value)|)]);
      SameAccounts(Raw(a.value));
    } else {
      c := MapModified(a.value, b.value, ops);
      ModifiedAccounts(a.value, b.value, ops);
    }
  }

  // ---- what the record contains -----------------------------------------------------------------------

  /** The blocks and hunks are exactly the opcodes' sides. */
  lemma {:induction false} Entries(a: seq<Line>, b: seq<Line>, ops: seq<Opcode>)
    requires InRange(a, b, ops)
    ensures forall blk :: blk in ChangeOf(a, b, ops).equal <==>
              exists k :: 0 <= k < |ops| && ops[k].tag == Equal && IsBlock(a, b, ops[k], blk)
    ensures forall v :: v in ChangeOf(a, b, ops).changedOld <==>
              exists k :: 0 <= k < |ops| && ops[k].tag != Equal && ops[k].i1 < ops[k].i2 && v == OldSide(a, ops[k])
  {
    if ops != [] {
      Entries(a, b, ops[..|ops| - 1]);
      assert forall k :: 0 <= k < |ops| - 1 ==> ops[..|ops| - 1][k] == ops[k];
    }
  }

  ghost predicate IsBlock(a: seq<Line>, b: seq<Line>, op: Opcode, blk: Block)
    requires op.i1 <= op.i2 <= |a| && op.j1 <= op.j2 <= |b|
  {
    blk == Block(OldSide(a, op).lo, NewSide(b, op).lo, OldSide(a, op).hi - OldSide(a, op).lo)
  }

  // ---- the opcodes tile both files ----------------------------------------------------------------------

  lemma ContractInRange(a: seq<Line>, b: seq<Line>, ops: seq<Opcode>)
    requires Opcodes(a, b, ops)
    ensures InRange(a, b, ops)
  {
    forall k | 0 <= k < |ops|
      ensures ops[k].i1 <= ops[k].i2 <= |a| && ops[k].j1 <= ops[k].j2 <= |b|
    {
      assert FitsTag(a, b, ops[k]);
    }
  }

  lemma {:induction false} SidesAscend(a: seq<Line>, b: seq<Line>, ops: seq<Opcode>, k: nat, l: nat)
    requires Opcodes(a, b, ops) && k <= l < |ops|
    ensures InRange(a, b, ops)
    ensures k < l ==> OldSide(a, ops[k]).hi <= OldSide(a, ops[l]).lo && NewSide(b, ops[k]).hi <= NewSide(b, ops[l]).lo
    ensures ops[k].i1 <= ops[l].i1 && ops[k].j1 <= ops[l].j1
    decreases l
  {
    ContractInRange(a, b, ops);
    if k < l {
      SidesAscend(a, b, ops, k, l - 1);
      OffGrows(a, ops[l - 1].i1, ops[l - 1].i2);
      OffGrows(b, ops[l - 1].j1, ops[l - 1].j2);
      assert ops[l - 1].i2 == ops[l - 1 + 1].i1 && ops[l - 1].j2 == ops[l - 1 + 1].j1;
    }
  }

  /** Every byte of the old file lies in some opcode's old side. */
  lemma {:induction false} OldCovered(a: seq<Line>, b: seq<Line>, ops: seq<Opcode>, p: nat, n: nat)
    requires Opcodes(a, b, ops) && 0 < n <= |ops| && p < Off(a, ops[n - 1].i2)
    ensures InRange(a, b, ops)
    ensures exists k :: 0 <= k < n && Covers(OldSide(a, ops[k]), p)
    decreases n
  {
    ContractInRange(a, b, ops);
    if p >= Off(a, ops[n - 1].i1) {
      assert Covers(OldSide(a, ops[n - 1]), p);
    } else if n == 1 {
      assert false;
    } else {
      assert ops[n - 2].i2 == ops[n - 2 + 1].i1;
      OldCovered(a, b, ops, p, n - 1);
    }
  }

  lemma {:induction false} NewCovered(a: seq<Line>, b: seq<Line>, ops: seq<Opcode>, p: nat, n: nat)
    requires Opcodes(a, b, ops) && 0 < n <= |ops| && p < Off(b, ops[n - 1].j2)
    ensures InRange(a, b, ops)
    ensures exists k :: 0 <= k < n && Covers(NewSide(b, ops[k]), p)
    decreases n
  {
    ContractInRange(a, b, ops);
    if p >= Off(b, ops[n - 1].j1) {
      assert Covers(NewSide(b, ops[n - 1]), p);
    } else if n == 1 {
      assert false;
    } else {
      assert ops[n - 2].j2 == ops[n - 2 + 1].j1;
      NewCovered(a, b, ops, p, n - 1);
    }
  }

  /** The unique opcode whose old side holds a byte. */
  lemma OldOpcode(a: seq<Line>, b: seq<Line>, ops: seq<Opcode>, p: nat) returns (k: nat)
    requires Opcodes(a, b, ops) && p < |Raw(a)|
    ensures InRange(a, b, ops) && k < |ops| && Covers(OldSide(a, ops[k]), p)
    ensures forall l :: 0 <= l < |ops| && Covers(OldSide(a, ops[l]), p) ==> l == k
  {
    ContractInRange(a, b, ops);
    RawLength(a);
    OldCovered(a, b, ops, p, |ops|);
    k :| 0 <= k < |ops| && Covers(OldSide(a, ops[k]), p);
    forall l | 0 <= l < |ops| && Covers(OldSide(a, ops[l]), p)
      ensures l == k
    {
      SidesAscend(a, b, ops, if l <= k then l else k, if l <= k then k else l);
    }
  }

  /** The old sides of the equal blocks. */
  function OldSides(blocks: seq<Block>): seq<Interval> {
    seq(|blocks|, i requires 0 <= i < |blocks| => Interval(blocks[i].oldStart, blocks[i].oldStart + blocks[i].length))
  }

  function NewSides(blocks: seq<Block>): seq<Interval> {
    seq(|blocks|, i requires 0 <= i < |blocks| => Interval(blocks[i].newStart, blocks[i].newStart + blocks[i].length))
  }

  /** Blocks and hunks of a prefix of the opcodes cover exactly the bytes up to its end. */
  lemma {:induction false} PrefixTiles(a: seq<Line>, b: seq<Line>, ops: seq<Opcode>, n: nat)
    requires Opcodes(a, b, ops) && n <= |ops|
    ensures InRange(a, b, ops) && InRange(a, b, ops[..n])
    ensures var c := ChangeOf(a, b, ops[..n]);
            var endOld := if n == 0 then 0 else Off(a, ops[n - 1].i2);
            var endNew := if n == 0 then 0 else Off(b, ops[n - 1].j2);
            Measure(c.changedOld) + Measure(OldSides(c.equal)) == endOld
            && Measure(c.changedNew) + Measure(NewSides(c.equal)) == endNew
            && Bytes(c.changedOld) + Bytes(OldSides(c.equal)) == Span(0, endOld)
            && Bytes(c.changedNew) + Bytes(NewSides(c.equal)) == Span(0, endNew)
  {
    ContractInRange(a, b, ops);
    if n == 0 {
      NoBytes();
      assert ops[..0] == [];
    } else {
      PrefixTiles(a, b, ops, n - 1);
      var op := ops[n - 1];
      assert ops[..n][..n - 1] == ops[..n - 1];
      if n > 1 {
        assert ops[n - 2].i2 == ops[n - 2 + 1].i1 && ops[n - 2].j2 == ops[n - 2 + 1].j1;
      }
      StepTiles(a, b, op, ChangeOf(a, b, ops[..n - 1]));
    }
  }

  lemma MeasurePush(s: seq<Interval>, v: Interval)
    ensures Measure(s + [v]) == Measure(s) + v.hi - v.lo
    decreases |s|
  {
    if s != [] {
      MeasurePush(s[1..], v);
      assert (s + [v])[1..] == s[1..] + [v];
    }
  }

  lemma StepTiles(a: seq<Line>, b: seq<Line>, op: Opcode, c: FileChange)
    requires FitsTag(a, b, op)
    requires Measure(c.changedOld) + Measure(OldSides(c.equal)) == Off(a, op.i1)
    requires Measure(c.changedNew) + Measure(NewSides(c.equal)) == Off(b, op.j1)
    requires Bytes(c.changedOld) + Bytes(OldSides(c.equal)) == Span(0, Off(a, op.i1))
    requires Bytes(c.changedNew) + Bytes(NewSides(c.equal)) == Span(0, Off(b, op.j1))
    ensures var d := Step(a, b, op, c);
            Measure(d.changedOld) + Measure(OldSides(d.equal)) == Off(a, op.i2)
            && Measure(d.changedNew) + Measure(NewSides(d.equal)) == Off(b, op.j2)
            && Bytes(d.changedOld) + Bytes(OldSides(d.equal)) == Span(0, Off(a, op.i2))
            && Bytes(d.changedNew) + Bytes(NewSides(d.equal)) == Span(0, Off(b, op.j2))
  {
    hide Bytes, Measure, Span;
    var o, n := OldSide(a, op), NewSide(b, op);
    OffGrows(a, op.i1, op.i2);
    OffGrows(b, op.j1, op.j2);
    SpanJoin(0, o.lo, o.hi);
    SpanJoin(0, n.lo, n.hi);
    if op.tag == Equal {
      EqualLengths(a, b, op);
      var blk := Block(o.lo, n.lo, o.hi - o.lo);
      assert OldSides(c.equal + [blk]) == OldSides(c.equal) + [o];
      assert NewSides(c.equal + [blk]) == NewSides(c.equal) + [n];
      MeasurePush(OldSides(c.equal), o);
      MeasurePush(NewSides(c.equal), n);
      BytesPush(OldSides(c.equal), o);
      BytesPush(NewSides(c.equal), n);
    } else {
      var d := Step(a, b, op, c);
      SpanEmpty(o.lo, o.hi);
      SpanEmpty(n.lo, n.hi);
      MeasurePush(c.changedOld, o);
      MeasurePush(c.changedNew, n);
      BytesPush(c.changedOld, o);
      BytesPush(c.changedNew, n);
      assert d.changedOld == if op.tag == Inserted then c.changedOld else c.changedOld + [o];
      assert d.changedNew == c.changedNew + [n];
      assert d.equal == c.equal;
    }
  }

  lemma SpanEmpty(x: int, y: int)
    ensures y <= x ==> Span(x, y) == {}
  {
  }

  lemma SpanJoin(x: int, y: int, z: int)
    requires x <= y <= z
    ensures Span(x, z) == Span(x, y) + Span(y, z)
  {
  }

  lemma EqualLengths(a: seq<Line>, b: seq<Line>, op: Opcode)
    requires FitsTag(a, b, op) && op.tag == Equal
    ensures Off(a, op.i2) - Off(a, op.i1) == Off(b, op.j2) - Off(b, op.j1)
    ensures Off(a, op.i1) <= Off(a, op.i2) <= |Raw(a)| && Off(b, op.j1) <= Off(b, op.j2) <= |Raw(b)|
    ensures Raw(a)[Off(a, op.i1)..Off(a, op.i2)] == Raw(b)[Off(b, op.j1)..Off(b, op.j2)]
  {
    RawSlice(a, op.i1, op.i2);
    RawSlice(b, op.j1, op.j2);
  }

  /** Equal blocks and changed hunks tile both files: together they cover every byte, and their
      lengths add up to the file's, so no byte lies in two of them. */
  lemma MapTiles(a: seq<Line>, b: seq<Line>, ops: seq<Opcode>)
    requires Opcodes(a, b, ops)
    ensures InRange(a, b, ops)
    ensures var c := ChangeOf(a, b, ops);
            Bytes(c.changedOld) + Bytes(OldSides(c.equal)) == Span(0, |Raw(a)|)
            && Bytes(c.changedNew) + Bytes(NewSides(c.equal)) == Span(0, |Raw(b)|)
            && Measure(c.changedOld) + Measure(OldSides(c.equal)) == |Raw(a)|
            && Measure(c.changedNew) + Measure(NewSides(c.equal)) == |Raw(b)|
  {
    PrefixTiles(a, b, ops, |ops|);
    assert ops[..|ops|] == ops;
    RawLength(a);
    RawLength(b);
  }

  lemma WholeAccounts(raw: seq<Byte>)
    ensures Accounts([], raw, FileChange(Added, Whole(raw), [], []))
    ensures Accounts(raw, [], FileChange(Deleted, [], Whole(raw), []))
  {
    NoBytes();
    SpanEmpty(0, 0);
    BytesOne(Interval(0, |raw|));
    assert Measure([Interval(0, |raw|)]) == |raw|;
  }

  lemma SameAccounts(raw: seq<Byte>)
    ensures Accounts(raw, raw, FileChange(Unchanged, [], [], [Block(0, 0, |raw|)]))
  {
    var blocks := [Block(0, 0, |raw|)];
    NoBytes();
    BytesOne(Interval(0, |raw|));
    assert OldSides(blocks) == [Interval(0, |raw|)] && NewSides(blocks) == [Interval(0, |raw|)];
    assert Measure([Interval(0, |raw|)]) == |raw|;
  }

  lemma ModifiedAccounts(a: seq<Line>, b: seq<Line>, ops: seq<Opcode>)
    requires InRange(a, b, ops)
    ensures Opcodes(a, b, ops) ==> Accounts(Raw(a), Raw(b), ChangeOf(a, b, ops))
  {
    hide ChangeOf, InRange, Opcodes;
    if Opcodes(a, b, ops) {
      MapTiles(a, b, ops);
      var c := ChangeOf(a, b, ops);
      forall i | 0 <= i < |c.equal|
        ensures PairsSame(Raw(a), Raw(b), c.equal[i])
      {
        var op := BlockOpcode(a, b, ops, c.equal[i]);
        EqualLengths(a, b, op);
      }
    }
  }

  // ---- mapping a span -----------------------------------------------------------------------------------

  datatype SpanStatus = SpanIdentical | SpanMapped | SpanChanged | SpanDeleted | SpanUnresolved

  datatype Mapping = Mapping(status: SpanStatus, newSpan: Option<Interval>)

  predicate Inside(v: Interval, blk: Block) {
    blk.oldStart <= v.lo && v.hi <= blk.oldStart + blk.length
  }

  predicate Meets(v: Interval, hunk: Interval) {
    v.lo < hunk.hi && hunk.lo < v.hi
  }

  /** `ChangeMap.map_span`; `None` stands for a path outside the change map. */
  method MapSpan(change: Option<FileChange>, v: Interval) returns (m: Mapping)
    ensures m == SpanOf(change, v)
  {
    if change.None? {
      return Mapping(SpanUnresolved, None);
    }
    var c := change.value;
    if c.status == Unchanged {
      return Mapping(SpanIdentical, Some(v));
    }
    if c.status == Deleted {
      return Mapping(SpanDeleted, None);
    }
    if c.status == Added {
      return Mapping(SpanUnresolved, None);
    }
    for k := 0 to |c.equal|
      invariant FirstInside(c.equal, v) == FirstInside(c.equal[k..], v)
    {
      assert c.equal[k..][1..] == c.equal[k + 1..];
      if Inside(v, c.equal[k]) {
        var shift := c.equal[k].newStart - c.equal[k].oldStart;
        return Mapping(SpanMapped, Some(Interval(v.lo + shift, v.hi + shift)));
      }
    }
    for k := 0 to |c.changedOld|
      invariant forall l :: 0 <= l < k ==> !Meets(v, c.changedOld[l])
    {
      if Meets(v, c.changedOld[k]) {
        return Mapping(SpanChanged, None);
      }
    }
    m := Mapping(SpanUnresolved, None);
  }

  function FirstInside(blocks: seq<Block>, v: Interval): Option<Block> {
    if blocks == [] then None
    else if Inside(v, blocks[0]) then Some(blocks[0])
    else FirstInside(blocks[1..], v)
  }

  function SpanOf(change: Option<FileChange>, v: Interval): Mapping {
    match change
    case None => Mapping(SpanUnresolved, None)
    case Some(c) =>
      match c.status
      case Unchanged => Mapping(SpanIdentical, Some(v))
      case Deleted => Mapping(SpanDeleted, None)
      case Added => Mapping(SpanUnresolved, None)
      case Modified =>
        match FirstInside(c.equal, v)
        case Some(blk) =>
          Mapping(SpanMapped, Some(Interval(v.lo + blk.newStart - blk.oldStart, v.hi + blk.newStart - blk.oldStart)))
        case None =>
          if exists k :: 0 <= k < |c.changedOld| && Meets(v, c.changedOld[k]) then Mapping(SpanChanged, None)
          else Mapping(SpanUnresolved, None)
  }

  lemma {:induction false} FirstInsideIs(blocks: seq<Block>, v: Interval)
    ensures FirstInside(blocks, v).Some? <==> exists blk :: blk in blocks && Inside(v, blk)
    ensures FirstInside(blocks, v).Some? ==>
              FirstInside(blocks, v).value in blocks && Inside(v, FirstInside(blocks, v).value)
  {
    if blocks != [] {
      FirstInsideIs(blocks[1..], v);
      assert blocks == [blocks[0]] + blocks[1..];
    }
  }

  /** Two spans in range of their files, with the same bytes. */
  ghost predicate SameText(a: seq<Line>, b: seq<Line>, v: Interval, w: Interval) {
    && 0 <= v.lo <= v.hi <= |Raw(a)| && 0 <= w.lo <= w.hi <= |Raw(b)|
    && Raw(b)[w.lo..w.hi] == Raw(a)[v.lo..v.hi]
  }

  /** A span reported as mapped has the same bytes in the new file. */
  lemma MappedIsIdentical(a: seq<Line>, b: seq<Line>, ops: seq<Opcode>, v: Interval)
    requires Opcodes(a, b, ops) && v.lo <= v.hi
    ensures InRange(a, b, ops)
    ensures var m := SpanOf(Some(ChangeOf(a, b, ops)), v);
            m.status == SpanMapped ==> m.newSpan.Some? && SameText(a, b, v, m.newSpan.value)
  {
    ContractInRange(a, b, ops);
    StatusModified(a, b, ops);
    hide ChangeOf, SameText, Opcodes, InRange;
    var c := ChangeOf(a, b, ops);
    FirstInsideIs(c.equal, v);
    if FirstInside(c.equal, v).Some? {
      var blk := FirstInside(c.equal, v).value;
      var op := BlockOpcode(a, b, ops, blk);
      BlockText(a, b, op, blk, v);
    }
  }

  lemma BlockOpcode(a: seq<Line>, b: seq<Line>, ops: seq<Opcode>, blk: Block) returns (op: Opcode)
    requires Opcodes(a, b, ops) && InRange(a, b, ops) && blk in ChangeOf(a, b, ops).equal
    ensures FitsTag(a, b, op) && op.tag == Equal && IsBlock(a, b, op, blk)
  {
    Entries(a, b, ops);
    hide ChangeOf, IsBlock, InRange;
    var k :| 0 <= k < |ops| && ops[k].tag == Equal && IsBlock(a, b, ops[k], blk);
    op := ops[k];
  }

  lemma BlockText(a: seq<Line>, b: seq<Line>, op: Opcode, blk: Block, v: Interval)
    requires FitsTag(a, b, op) && op.tag == Equal && IsBlock(a, b, op, blk)
    requires v.lo <= v.hi && Inside(v, blk)
    ensures SameText(a, b, v, Interval(v.lo + blk.newStart - blk.oldStart, v.hi + blk.newStart - blk.oldStart))
  {
    EqualLengths(a, b, op);
    SubSlice(Raw(a), Off(a, op.i1), Off(a, op.i2), Raw(b), Off(b, op.j1), Off(b, op.j2), v.lo, v.hi);
  }

  lemma SubSlice(x: seq<Byte>, xl: nat, xh: nat, y: seq<Byte>, yl: nat, yh: nat, lo: nat, hi: nat)
    requires xl <= lo <= hi <= xh <= |x| && yl <= yh <= |y| && x[xl..xh] == y[yl..yh]
    ensures yl <= lo + yl - xl <= hi + yl - xl <= |y|
    ensures x[lo..hi] == y[lo + yl - xl..hi + yl - xl]
  {
    forall i | lo <= i < hi
      ensures x[i] == y[i + yl - xl]
    {
      assert x[xl..xh][i - xl] == x[i] && y[yl..yh][i - xl] == y[i + yl - xl];
    }
  }

  lemma {:induction false} StatusModified(a: seq<Line>, b: seq<Line>, ops: seq<Opcode>)
    requires InRange(a, b, ops)
    ensures ChangeOf(a, b, ops).status == Modified
  {
    if ops != [] {
      StatusModified(a, b, ops[..|ops| - 1]);
    }
  }

  /** A pure insertion strictly inside the span. */
  ghost predicate CrossesInsertion(a: seq<Line>, ops: seq<Opcode>, v: Interval) {
    exists k :: 0 <= k < |ops| && ops[k].tag == Inserted && ops[k].i1 <= |a| && v.lo < Off(a, ops[k].i1) < v.hi
  }

  ghost predicate MeetsHunk(a: seq<Line>, b: seq<Line>, ops: seq<Opcode>, v: Interval)
    requires InRange(a, b, ops)
  {
    exists k :: 0 <= k < |ops| && ops[k].tag != Equal && ops[k].i1 < ops[k].i2 && Meets(v, OldSide(a, ops[k]))
  }

  ghost predicate InsideEqual(a: seq<Line>, b: seq<Line>, ops: seq<Opcode>, v: Interval)
    requires InRange(a, b, ops)
  {
    exists k :: 0 <= k < |ops| && ops[k].tag == Equal && OldSide(a, ops[k]).lo <= v.lo && v.hi <= OldSide(a, ops[k]).hi
  }

  lemma InsideExcludes(a: seq<Line>, b: seq<Line>, ops: seq<Opcode>, v: Interval)
    requires Opcodes(a, b, ops) && v.lo < v.hi
    ensures InRange(a, b, ops)
    ensures InsideEqual(a, b, ops, v) ==> !MeetsHunk(a, b, ops, v) && !CrossesInsertion(a, ops, v)
  {
    ContractInRange(a, b, ops);
    if InsideEqual(a, b, ops, v) {
      var k :| 0 <= k < |ops| && ops[k].tag == Equal && OldSide(a, ops[k]).lo <= v.lo && v.hi <= OldSide(a, ops[k]).hi;
      forall l | 0 <= l < |ops| && l != k
        ensures !Meets(v, OldSide(a, ops[l]))
        ensures ops[l].tag == Inserted ==> !(v.lo < Off(a, ops[l].i1) < v.hi)
      {
        SidesAscend(a, b, ops, if l <= k then l else k, if l <= k then k else l);
        assert FitsTag(a, b, ops[l]);
      }
    }
  }

  /** A span inside no equal block that meets no hunk runs across an insertion point. */
  lemma CrossingFound(a: seq<Line>, b: seq<Line>, ops: seq<Opcode>, v: Interval)
    requires Opcodes(a, b, ops) && 0 <= v.lo < v.hi <= |Raw(a)|
    ensures InRange(a, b, ops)
    ensures !InsideEqual(a, b, ops, v) && !MeetsHunk(a, b, ops, v) ==> CrossesInsertion(a, ops, v)
  {
    var k := OldOpcode(a, b, ops, v.lo);
    var l := OldOpcode(a, b, ops, v.hi - 1);
    if !InsideEqual(a, b, ops, v) && !MeetsHunk(a, b, ops, v) {
      assert FitsTag(a, b, ops[k]) && FitsTag(a, b, ops[l]);
      assert ops[k].tag == Equal by { assert !Meets(v, OldSide(a, ops[k])) || ops[k].tag == Equal; }
      assert ops[l].tag == Equal by { assert !Meets(v, OldSide(a, ops[l])) || ops[l].tag == Equal; }
      if l <= k {
        if l < k { SidesAscend(a, b, ops, l, k); }
        assert false;
      }
      SidesAscend(a, b, ops, k, k + 1);
      SidesAscend(a, b, ops, k + 1, l);
      assert !(ops[k].tag == Equal && ops[k + 1].tag == Equal);
      assert FitsTag(a, b, ops[k + 1]);
      assert Off(a, ops[k + 1].i1) == OldSide(a, ops[k]).hi;
      OffGrows(a, ops[k + 1].i1, ops[k + 1].i2);
      assert ops[k + 1].tag == Inserted;
    }
  }

  /** How a nonempty span of the old file is classified: mapped exactly inside one equal block,
      changed exactly when it meets a changed hunk, and left unresolved exactly when it meets
      none but runs across a pure insertion. */
  lemma SpanClassified(a: seq<Line>, b: seq<Line>, ops: seq<Opcode>, v: Interval)
    requires Opcodes(a, b, ops) && 0 <= v.lo < v.hi <= |Raw(a)|
    ensures InRange(a, b, ops)
    ensures var s := SpanOf(Some(ChangeOf(a, b, ops)), v).status;
            (s == SpanMapped <==> InsideEqual(a, b, ops, v))
            && (s == SpanChanged <==> MeetsHunk(a, b, ops, v))
            && (s == SpanUnresolved <==> !MeetsHunk(a, b, ops, v) && CrossesInsertion(a, ops, v))
  {
    InsideExcludes(a, b, ops, v);
    CrossingFound(a, b, ops, v);
    SpanByEntries(a, b, ops, v);
  }

  lemma SpanByEntries(a: seq<Line>, b: seq<Line>, ops: seq<Opcode>, v: Interval)
    requires InRange(a, b, ops)
    ensures var s := SpanOf(Some(ChangeOf(a, b, ops)), v).status;
            s == if InsideEqual(a, b, ops, v) then SpanMapped
                 else if MeetsHunk(a, b, ops, v) then SpanChanged else SpanUnresolved
  {
    var c := ChangeOf(a, b, ops);
    StatusModified(a, b, ops);
    FirstInsideIs(c.equal, v);
    BlocksByEntries(a, b, ops, v);
    HunksByEntries(a, b, ops, v);
    hide ChangeOf, InsideEqual, MeetsHunk, Inside, Meets, InRange;
  }

  lemma BlocksByEntries(a: seq<Line>, b: seq<Line>, ops: seq<Opcode>, v: Interval)
    requires InRange(a, b, ops)
    ensures InsideEqual(a, b, ops, v) <==> exists blk :: blk in ChangeOf(a, b, ops).equal && Inside(v, blk)
  {
    Entries(a, b, ops);
    hide ChangeOf;
    if InsideEqual(a, b, ops, v) {
      var k :| 0 <= k < |ops| && ops[k].tag == Equal && OldSide(a, ops[k]).lo <= v.lo && v.hi <= OldSide(a, ops[k]).hi;
      var blk := Block(OldSide(a, ops[k]).lo, NewSide(b, ops[k]).lo, OldSide(a, ops[k]).hi - OldSide(a, ops[k]).lo);
      assert IsBlock(a, b, ops[k], blk) && Inside(v, blk);
    }
  }

  ghost predicate AnyMeets(hunks: seq<Interval>, v: Interval) {
    exists k :: 0 <= k < |hunks| && Meets(v, hunks[k])
  }

  lemma HunksByEntries(a: seq<Line>, b: seq<Line>, ops: seq<Opcode>, v: Interval)
    requires InRange(a, b, ops)
    ensures MeetsHunk(a, b, ops, v) <==> AnyMeets(ChangeOf(a, b, ops).changedOld, v)
  {
    Entries(a, b, ops);
    var hunks := ChangeOf(a, b, ops).changedOld;
    if MeetsHunk(a, b, ops, v) {
      var k :| 0 <= k < |ops| && ops[k].tag != Equal && ops[k].i1 < ops[k].i2 && Meets(v, OldSide(a, ops[k]));
      assert OldSide(a, ops[k]) in hunks;
      var l :| 0 <= l < |hunks| && hunks[l] == OldSide(a, ops[k]);
      assert Meets(v, hunks[l]);
    }
    if AnyMeets(hunks, v) {
      var k :| 0 <= k < |hunks| && Meets(v, hunks[k]);
      assert hunks[k] in hunks;
      var l :| 0 <= l < |ops| && ops[l].tag != Equal && ops[l].i1 < ops[l].i2 && hunks[k] == OldSide(a, ops[l]);
      assert Meets(v, OldSide(a, ops[l]));
    }
  }
}
