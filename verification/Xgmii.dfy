/** XGMII lanes and the well-formed 8-lane blocks of a 10 Gb/s stream. */
module Xgmii {
  type Byte = b: nat | b < 256 witness 0

  const IDLE: Byte := 0x07
  const START: Byte := 0xfb
  const TERMINATE: Byte := 0xfd

  datatype Lane = Lane(ctrl: bool, data: Byte)

  /** The block shapes the reference encoder is written for. */
  datatype Block =
    | Data(bytes: seq<Byte>)    // eight data bytes
    | Idle                      // eight idle characters
    | Start0(bytes: seq<Byte>)  // /S/ and seven data bytes
    | Start4(bytes: seq<Byte>)  // four idles, /S/ and three data bytes
    | Term(bytes: seq<Byte>)    // up to seven data bytes, /T/ and idles

  predicate WellFormed(b: Block) {
    match b
    case Data(bs) => |bs| == 8
    case Idle => true
    case Start0(bs) => |bs| == 7
    case Start4(bs) => |bs| == 3
    case Term(bs) => |bs| <= 7
  }

  type GoodBlock = b: Block | WellFormed(b) witness Idle

  function DataLanes(bs: seq<Byte>): (r: seq<Lane>)
    ensures |r| == |bs|
  {
    seq(|bs|, i requires 0 <= i < |bs| => Lane(false, bs[i]))
  }

  function IdleLanes(n: nat): (r: seq<Lane>)
    ensures |r| == n
  {
    seq(n, _ => Lane(true, IDLE))
  }

  /** The eight lanes of a block. */
  function Lanes(b: GoodBlock): (r: seq<Lane>)
    ensures |r| == 8
  {
    match b
    case Data(bs) => DataLanes(bs)
    case Idle => IdleLanes(8)
    case Start0(bs) => [Lane(true, START)] + DataLanes(bs)
    case Start4(bs) => IdleLanes(4) + [Lane(true, START)] + DataLanes(bs)
    case Term(bs) => DataLanes(bs) + [Lane(true, TERMINATE)] + IdleLanes(7 - |bs|)
  }

  /** The lanes of a stream of blocks. */
  function Stream(bs: seq<GoodBlock>): (r: seq<Lane>)
    ensures |r| == 8 * |bs|
  {
    if bs == [] then [] else Stream(bs[..|bs| - 1]) + Lanes(bs[|bs| - 1])
  }

  lemma {:induction false} StreamIndex(bs: seq<GoodBlock>, i: nat)
    requires i < |bs|
    ensures Stream(bs)[8 * i..8 * i + 8] == Lanes(bs[i])
  {
    var front := bs[..|bs| - 1];
    if i < |front| {
      StreamIndex(front, i);
      assert Stream(bs)[8 * i..8 * i + 8] == Stream(front)[8 * i..8 * i + 8];
    }
  }
}
