/**
 * The geometry command decoder of the Mapbox vector-tile renderer: a
 * feature's geometry is a stream of `guint32` command integers, each packing a
 * command id and a repeat count, followed by zigzag-encoded relative
 * parameters (section 4.3 "Geometry Encoding" of the Mapbox Vector Tile
 * Specification, version 2). The cairo calls of the renderer become emitted
 * path operations.
 */
module Geometry {
  import opened Bits
  import Zigzag

  const MoveTo: nat := 1
  const LineTo: nat := 2
  const ClosePath: nat := 7

  /** One relative drawing step: the cairo `rel_move_to`, `rel_line_to` and `close_path` calls. */
  datatype PathOp = MoveBy(dx: int, dy: int) | LineBy(dx: int, dy: int) | Close

  /** The geometry type of a tile feature. */
  datatype GeomType = Unknown | Point | LineString | Polygon

  /** How the finished path is painted. */
  datatype PaintOp = Stroke | StrokePreserve | Fill

  /**
   * `v & 7`: the command id in the low three bits. Stated arithmetically;
   * CommandIdIsMask shows it is C's bitwise and.
   */
  function CommandId(v: uint32): (r: nat)
    ensures r < 8
  {
    v % 8
  }

  /**
   * `v >> 3`: the repeat count in the remaining bits (a logical shift of a
   * `guint32`). RepeatCountIsShift shows it is the shift.
   */
  function RepeatCount(v: uint32): (r: nat)
    ensures r < 0x2000_0000
  {
    v / 8
  }

  /**
   * `id | (count << 3)`: the command integer for an id and a repeat count.
   * CommandIntegerIsOr shows the sum is C's bitwise or of the shifted count.
   */
  function CommandInteger(id: nat, count: nat): uint32
    requires id < 8 && count < 0x2000_0000
  {
    id + 8 * count
  }

  lemma LowBitsThree(v: nat)
    ensures LowBits(v, 3) == v % 8
  {
    var q, r := v / 8, v % 8;
    assert v == 8 * q + r && r < 8;
    var h := v / 2;
    assert h == 4 * q + r / 2 && v % 2 == r % 2;
    var f := h / 2;
    assert f == 2 * q + r / 4 && h % 2 == (r / 2) % 2;
    assert f % 2 == r / 4;
    assert LowBits(f, 1) == r / 4;
    assert LowBits(h, 2) == (r / 2) % 2 + 2 * (r / 4);
  }

  /** The command id is `v & 7` computed bit by bit on the 32-bit pattern. */
  lemma CommandIdIsMask(v: uint32)
    ensures CommandId(v) == Op32(And, v, 7)
  {
    Pow2Of32();
    AndLowMask(v, 3);
    LowBitsThree(v);
  }

  /** The repeat count is `v >> 3`. */
  lemma RepeatCountIsShift(v: uint32)
    ensures RepeatCount(v) == ShiftRight(v, 3)
  {
  }

  /** `id | (count << 3)` is the sum id + 8 * count, since the bits do not overlap. */
  lemma CommandIntegerIsOr(id: nat, count: nat)
    requires id < 8 && count < 0x2000_0000
    ensures CommandInteger(id, count) == Op32(Or, id, ShiftLeft(count, 3))
  {
    Pow2Of32();
    assert ShiftLeft(count, 3) == 8 * count;
    OrDisjoint(id, count, 3);
  }

  /** A command integer splits into an id below 8 and a count, and is recovered from them. */
  lemma CommandSplit(v: uint32)
    ensures CommandId(v) < 8 && RepeatCount(v) < 0x2000_0000
    ensures CommandInteger(CommandId(v), RepeatCount(v)) == v
  {
  }

  /** Splitting a packed command integer gives back the id and the count that were packed. */
  lemma CommandRoundTrip(id: nat, count: nat)
    requires id < 8 && count < 0x2000_0000
    ensures CommandId(CommandInteger(id, count)) == id
    ensures RepeatCount(CommandInteger(id, count)) == count
  {
    var v := CommandInteger(id, count);
    assert v == 8 * count + id;
    assert 8 * (v / 8) + v % 8 == v && 0 <= v % 8 < 8;
    assert v / 8 == count;
  }

  /** The number of parameter integers that follow the command integer v. */
  function ParamCount(v: uint32): nat {
    var id := CommandId(v);
    if id == MoveTo || id == LineTo then 2 * RepeatCount(v) else 0
  }

  /** From index p on, the stream splits exactly into commands each followed by all of its parameters. */
  predicate ParsesFrom(g: seq<uint32>, p: nat)
    requires p <= |g|
    decreases |g| - p
  {
    p == |g| || (p + 1 + ParamCount(g[p]) <= |g| && ParsesFrom(g, p + 1 + ParamCount(g[p])))
  }

  /** The whole stream splits exactly into commands each followed by all of its parameters. */
  predicate Parses(g: seq<uint32>) {
    ParsesFrom(g, 0)
  }

  /**
   * The geometry the renderer may be given: the do-while loop reads the first
   * command unconditionally, so the stream must be non-empty, and it reads
   * parameters without a bounds check, so every command's parameters must be
   * present.
   */
  predicate WellFormed(g: seq<uint32>) {
    |g| > 0 && Parses(g)
  }

  /** The operation drawn for one (x, y) parameter pair of a MoveTo or LineTo. */
  function PairOp(id: nat, x: uint32, y: uint32): PathOp {
    if id == MoveTo then MoveBy(Zigzag.Decode(x), Zigzag.Decode(y))
    else LineBy(Zigzag.Decode(x), Zigzag.Decode(y))
  }

  /** The operations drawn by the first n parameter pairs of a MoveTo or LineTo with id `id`. */
  function PairOps(id: nat, params: seq<uint32>, n: nat): (r: seq<PathOp>)
    requires 2 * n <= |params|
    ensures |r| == n
  {
    if n == 0 then []
    else PairOps(id, params, n - 1) + [PairOp(id, params[2 * n - 2], params[2 * n - 1])]
  }

  /** The operations one command integer v and its parameters draw. */
  function CommandOps(v: uint32, params: seq<uint32>): seq<PathOp>
    requires |params| == ParamCount(v)
  {
    var id := CommandId(v);
    if id == MoveTo || id == LineTo then PairOps(id, params, RepeatCount(v)) else [Close]
  }

  /** The reference decoding of a parsed stream from index p on, one command at a time. */
  function DecodeFrom(g: seq<uint32>, p: nat): seq<PathOp>
    requires p <= |g| && ParsesFrom(g, p)
    decreases |g| - p
  {
    if p == |g| then []
    else
      var next := p + 1 + ParamCount(g[p]);
      CommandOps(g[p], g[p + 1..next]) + DecodeFrom(g, next)
  }

  /** The reference decoding of a whole parsed stream. */
  function DecodeStream(g: seq<uint32>): seq<PathOp>
    requires Parses(g)
  {
    DecodeFrom(g, 0)
  }

  /** The number of command integers of a parsed stream from index p on. */
  function CountFrom(g: seq<uint32>, p: nat): nat
    requires p <= |g| && ParsesFrom(g, p)
    decreases |g| - p
  {
    if p == |g| then 0 else 1 + CountFrom(g, p + 1 + ParamCount(g[p]))
  }

  /** The number of command integers in a whole parsed stream. */
  function CommandCount(g: seq<uint32>): nat
    requires Parses(g)
  {
    CountFrom(g, 0)
  }

  /**
   * One command read at index p: the stream parses from p exactly when the
   * command's parameters are all present and the stream parses after them;
   * then the command's operations come first and it counts once.
   */
  lemma StepFrom(g: seq<uint32>, p: nat)
    requires p < |g|
    ensures ParsesFrom(g, p) <==> p + 1 + ParamCount(g[p]) <= |g| && ParsesFrom(g, p + 1 + ParamCount(g[p]))
    ensures ParsesFrom(g, p) ==>
      DecodeFrom(g, p) == CommandOps(g[p], g[p + 1..p + 1 + ParamCount(g[p])]) + DecodeFrom(g, p + 1 + ParamCount(g[p]))
    ensures ParsesFrom(g, p) ==> CountFrom(g, p) == 1 + CountFrom(g, p + 1 + ParamCount(g[p]))
  {
  }

  /**
   * Every command integer occupies at least one slot of the stream, so from
   * index p on there are at most |g| - p of them, and none only at the end.
   */
  lemma {:induction false} CountFromBound(g: seq<uint32>, p: nat)
    requires p <= |g| && ParsesFrom(g, p)
    ensures CountFrom(g, p) <= |g| - p
    ensures CountFrom(g, p) == 0 <==> p == |g|
    decreases |g| - p
  {
    if p < |g| {
      CountFromBound(g, p + 1 + ParamCount(g[p]));
    }
  }

  /** A parsed stream holds at most |g| commands, and none exactly when it is empty. */
  lemma CommandCountBound(g: seq<uint32>)
    requires Parses(g)
    ensures CommandCount(g) <= |g|
    ensures CommandCount(g) == 0 <==> |g| == 0
  {
    CountFromBound(g, 0);
  }

  /**
   * Parsing and decoding from an index of `prefix + g` is parsing and
   * decoding from the corresponding index of g: the commands before do not
   * matter.
   */
  lemma {:induction false} ShiftFrom(prefix: seq<uint32>, g: seq<uint32>, p: nat)
    requires p <= |g|
    ensures ParsesFrom(prefix + g, |prefix| + p) == ParsesFrom(g, p)
    ensures ParsesFrom(g, p) ==> DecodeFrom(prefix + g, |prefix| + p) == DecodeFrom(g, p)
    decreases |g| - p
  {
    var h := prefix + g;
    if p < |g| {
      assert h[|prefix| + p] == g[p];
      var next := p + 1 + ParamCount(g[p]);
      if next <= |g| {
        ShiftFrom(prefix, g, next);
        assert h[|prefix| + p + 1..|prefix| + next] == g[p + 1..next];
      }
    }
  }

  /**
   * The inner for loop of the renderer's do-while body for a MoveTo or LineTo
   * with id `id` whose command integer sits at index p: `length` parameter
   * pairs are read with pre-increments of the index.
   */
  method DecodePairs(g: seq<uint32>, p: nat, id: nat, length: nat) returns (drawn: seq<PathOp>, last: nat)
    requires p + 2 * length < |g|
    ensures last == p + 2 * length
    ensures drawn == PairOps(id, g[p + 1..p + 1 + 2 * length], length)
  {
    ghost var params := g[p + 1..p + 1 + 2 * length];
    drawn := [];
    last := p;
    var n := 0;
    while n < length
      invariant 0 <= n <= length
      invariant last == p + 2 * n
      invariant drawn == PairOps(id, params, n)
    {
      last := last + 1;
      var from := Zigzag.Decode(g[last]);
      last := last + 1;
      var to := Zigzag.Decode(g[last]);
      assert g[last - 1] == params[2 * n] && g[last] == params[2 * n + 1];
      if id == MoveTo {
        drawn := drawn + [MoveBy(from, to)];
      } else {
        drawn := drawn + [LineBy(from, to)];
      }
      n := n + 1;
    }
  }

  /**
   * One pass of the renderer's do-while body: the command integer at index p
   * and its parameters, with the cairo calls emitted as operations. Returns
   * the drawn operations and the index of the next command integer.
   */
  method DecodeCommand(g: seq<uint32>, p: nat) returns (drawn: seq<PathOp>, next: nat)
    requires p < |g| && p + 1 + ParamCount(g[p]) <= |g|
    ensures next == p + 1 + ParamCount(g[p]) && next <= |g|
    ensures drawn == CommandOps(g[p], g[p + 1..next])
  {
    var v := g[p];
    var id := CommandId(v);
    var length := RepeatCount(v);
    if id == MoveTo || id == LineTo {
      drawn, next := DecodePairs(g, p, id, length);
    } else {
      drawn := [Close];
      next := p;
    }
    next := next + 1;
  }

  /**
   * The loop of the feature renderer with the cairo path calls emitted as
   * operations. `commands` counts the command integers read; every read index
   * is below |g|, which is what WellFormed buys.
   */
  method DecodeGeometry(g: seq<uint32>) returns (ops: seq<PathOp>, commands: nat)
    requires WellFormed(g)
    ensures ops == DecodeStream(g)
    ensures commands == CommandCount(g)
    ensures 1 <= commands <= |g|
  {
    var p := 0;
    ops := [];
    commands := 0;
    assert ops + DecodeFrom(g, 0) == DecodeStream(g);
    // The source's do-while: the body runs once before the bound is compared.
    while true
      invariant 0 <= p < |g|
      invariant ParsesFrom(g, p)
      invariant ops + DecodeFrom(g, p) == DecodeStream(g)
      invariant commands + CountFrom(g, p) == CommandCount(g)
      decreases |g| - p
    {
      StepFrom(g, p);
      var drawn, next := DecodeCommand(g, p);
      LoopStep(g, p, ops, commands, drawn, next);
      ops := ops + drawn;
      commands := commands + 1;
      p := next;
      if p >= |g| {
        CommandCountBound(g);
        break;
      }
    }
  }

  /** The decoder loop's invariant survives one command. */
  lemma LoopStep(g: seq<uint32>, p: nat, ops: seq<PathOp>, commands: nat, drawn: seq<PathOp>, next: nat)
    requires Parses(g) && p < |g| && ParsesFrom(g, p)
    requires ops + DecodeFrom(g, p) == DecodeStream(g)
    requires commands + CountFrom(g, p) == CommandCount(g)
    requires next == p + 1 + ParamCount(g[p]) && next <= |g|
    requires drawn == CommandOps(g[p], g[p + 1..next])
    ensures ParsesFrom(g, next)
    ensures (ops + drawn) + DecodeFrom(g, next) == DecodeStream(g)
    ensures commands + 1 + CountFrom(g, next) == CommandCount(g)
    ensures next == |g| ==> ops + drawn == DecodeStream(g) && commands + 1 == CommandCount(g)
  {
    StepFrom(g, p);
    var rest := DecodeFrom(g, next);
    assert ops + (drawn + rest) == (ops + drawn) + rest;
  }

  /**
   * After the path is built: a polygon is stroked with the path preserved and
   * then filled; every other geometry type is only stroked.
   */
  function FinishPath(t: GeomType): (r: seq<PaintOp>)
    ensures |r| >= 1 && (r[0] == Stroke || r[0] == StrokePreserve)
    ensures Fill in r <==> t == Polygon
    ensures r[0] == StrokePreserve <==> Fill in r
    ensures forall i :: 0 < i < |r| ==> r[i] == Fill
  {
    if t == Polygon then [StrokePreserve, Fill] else [Stroke]
  }

  /** The stream drawing one op with a repeat count of one. */
  function EncodeOp(op: PathOp): seq<uint32>
    requires Encodable(op)
  {
    match op
    case MoveBy(dx, dy) => [CommandInteger(MoveTo, 1), Zigzag.Encode(dx), Zigzag.Encode(dy)]
    case LineBy(dx, dy) => [CommandInteger(LineTo, 1), Zigzag.Encode(dx), Zigzag.Encode(dy)]
    case Close => [CommandInteger(ClosePath, 1)]
  }

  /** The deltas of op fit the 32-bit parameters of the encoding. */
  predicate Encodable(op: PathOp) {
    op.Close? || (IsInt32(op.dx) && IsInt32(op.dy))
  }

  /** A stream drawing ops, one command integer per op. */
  function Encode(ops: seq<PathOp>): seq<uint32>
    requires forall i :: 0 <= i < |ops| ==> Encodable(ops[i])
  {
    if |ops| == 0 then [] else EncodeOp(ops[0]) + Encode(ops[1..])
  }

  /** Each encoded op parses as exactly one command and decodes back to itself. */
  lemma DecodeEncodeOp(op: PathOp, rest: seq<uint32>)
    requires Encodable(op)
    requires Parses(rest)
    ensures Parses(EncodeOp(op) + rest)
    ensures DecodeStream(EncodeOp(op) + rest) == [op] + DecodeStream(rest)
  {
    var e := EncodeOp(op);
    var g := e + rest;
    OpCommand(op);
    ShiftFrom(e, rest, 0);
    assert g[0] == e[0] && g[1..|e|] == e[1..];
    StepFrom(g, 0);
  }

  /** The command integer of an encoded op announces exactly its parameters, and they decode to op. */
  lemma OpCommand(op: PathOp)
    requires Encodable(op)
    ensures |EncodeOp(op)| == 1 + ParamCount(EncodeOp(op)[0])
    ensures CommandOps(EncodeOp(op)[0], EncodeOp(op)[1..]) == [op]
  {
    var e := EncodeOp(op);
    match op
    case MoveBy(dx, dy) =>
      CommandRoundTrip(MoveTo, 1);
      Zigzag.DecodeEncode(dx);
      Zigzag.DecodeEncode(dy);
      assert e[1..] == [Zigzag.Encode(dx), Zigzag.Encode(dy)];
    case LineBy(dx, dy) =>
      CommandRoundTrip(LineTo, 1);
      Zigzag.DecodeEncode(dx);
      Zigzag.DecodeEncode(dy);
      assert e[1..] == [Zigzag.Encode(dx), Zigzag.Encode(dy)];
    case Close =>
      CommandRoundTrip(ClosePath, 1);
  }

  /** Decoding inverts encoding; the encoding of a non-empty op list is well formed. */
  lemma {:induction false} DecodeEncode(ops: seq<PathOp>)
    requires forall i :: 0 <= i < |ops| ==> Encodable(ops[i])
    ensures Parses(Encode(ops))
    ensures DecodeStream(Encode(ops)) == ops
    ensures WellFormed(Encode(ops)) <==> |ops| > 0
  {
    if |ops| > 0 {
      DecodeEncode(ops[1..]);
      DecodeEncodeOp(ops[0], Encode(ops[1..]));
      assert [ops[0]] + ops[1..] == ops;
    }
  }

  /**
   * The absolute points reached by the MoveBy and LineBy operations of ops,
   * starting at the current point (x, y) with the current sub-path begun at
   * (sx, sy). Close returns to the start of the sub-path, as cairo's
   * `close_path` does.
   */
  function Vertices(ops: seq<PathOp>, x: int, y: int, sx: int, sy: int): (r: seq<(int, int)>)
    ensures |r| <= |ops|
  {
    if |ops| == 0 then []
    else match ops[0]
      case MoveBy(dx, dy) => [(x + dx, y + dy)] + Vertices(ops[1..], x + dx, y + dy, x + dx, y + dy)
      case LineBy(dx, dy) => [(x + dx, y + dy)] + Vertices(ops[1..], x + dx, y + dy, sx, sy)
      case Close => Vertices(ops[1..], sx, sy, sx, sy)
  }

  /**
   * The stream documented beside the renderer: a MoveTo of one pair, a LineTo
   * of two pairs and a ClosePath decode to the documented relative steps, and
   * from the origin they reach the documented points.
   */
  lemma DocumentedExample()
    ensures WellFormed([9, 6, 12, 18, 10, 12, 24, 44, 15])
    ensures DecodeStream([9, 6, 12, 18, 10, 12, 24, 44, 15])
         == [MoveBy(3, 6), LineBy(5, 6), LineBy(12, 22), Close]
    ensures Vertices(DecodeStream([9, 6, 12, 18, 10, 12, 24, 44, 15]), 0, 0, 0, 0)
         == [(3, 6), (8, 12), (20, 34)]
  {
    DocumentedDecode();
    DocumentedPoints();
  }

  /** The documented stream parses and decodes to the documented relative steps. */
  lemma DocumentedDecode()
    ensures Parses([9, 6, 12, 18, 10, 12, 24, 44, 15])
    ensures DecodeStream([9, 6, 12, 18, 10, 12, 24, 44, 15])
         == [MoveBy(3, 6), LineBy(5, 6), LineBy(12, 22), Close]
  {
    DocumentedSteps([9, 6, 12, 18, 10, 12, 24, 44, 15]);
  }

  /** The documented stream command by command: a MoveTo at 0, a LineTo at 3 and a ClosePath at 8. */
  lemma DocumentedSteps(g: seq<uint32>)
    requires g == [9, 6, 12, 18, 10, 12, 24, 44, 15]
    ensures Parses(g) && DecodeStream(g) == [MoveBy(3, 6), LineBy(5, 6), LineBy(12, 22), Close]
  {
    assert ParamCount(g[8]) == 0;
    StepFrom(g, 8);
    assert DecodeFrom(g, 8) == [Close];
    assert ParamCount(g[3]) == 4 && g[4..8] == [10, 12, 24, 44];
    assert PairOps(LineTo, [10, 12, 24, 44], 2) == [LineBy(5, 6), LineBy(12, 22)];
    StepFrom(g, 3);
    assert ParamCount(g[0]) == 2 && g[1..3] == [6, 12];
    assert PairOps(MoveTo, [6, 12], 1) == [MoveBy(3, 6)];
    StepFrom(g, 0);
  }

  /** The documented relative steps reach the documented absolute points from the origin. */
  lemma DocumentedPoints()
    ensures Vertices([MoveBy(3, 6), LineBy(5, 6), LineBy(12, 22), Close], 0, 0, 0, 0)
         == [(3, 6), (8, 12), (20, 34)]
  {
  }
}
