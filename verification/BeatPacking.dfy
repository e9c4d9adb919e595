/** How mem_copy of sw/lpcap.c cuts a packet into 128-bit writes with byte masks. */
module BeatPacking {
  import Bits

  /** One write to the device: two 8-byte words, their byte masks, and the packet marks. */
  datatype Write = Write(data0: seq<nat>, data1: seq<nat>, mask0: Bits.Word, mask1: Bits.Word, sop: bool, eop: bool)

  /** (1 << k) - 1, as a byte mask. */
  function LowMask(k: nat): (r: Bits.Word)
    ensures |r| == 8
  {
    seq(8, i requires 0 <= i < 8 => i < k)
  }

  /** The bytes a mask selects. */
  function Select(data: seq<nat>, mask: Bits.Word): seq<nat>
    requires |data| == |mask|
  {
    if data == [] then []
    else Select(data[..|data| - 1], mask[..|data| - 1]) + (if mask[|data| - 1] then [data[|data| - 1]] else [])
  }

  ghost predicate Sized(w: Write) {
    |w.data0| == |w.data1| == |w.mask0| == |w.mask1| == 8
  }

  ghost predicate AllSized(ws: seq<Write>) {
    forall i :: 0 <= i < |ws| ==> Sized(ws[i])
  }

  /** The bytes the writes carry. */
  ghost function Carried(ws: seq<Write>): seq<nat>
    requires AllSized(ws)
  {
    if ws == [] then []
    else
      var w := ws[|ws| - 1];
      Carried(ws[..|ws| - 1]) + Select(w.data0, w.mask0) + Select(w.data1, w.mask1)
  }

  lemma CarriedSnoc(ws: seq<Write>, w: Write)
    requires AllSized(ws) && Sized(w)
    ensures AllSized(ws + [w]) && Carried(ws + [w]) == Carried(ws) + Select(w.data0, w.mask0) + Select(w.data1, w.mask1)
  {
    assert (ws + [w])[..|ws|] == ws;
  }

  lemma {:induction false} SelectLow(data: seq<nat>, mask: Bits.Word, k: nat)
    requires |data| == |mask| && forall i :: 0 <= i < |mask| ==> mask[i] == (i < k)
    ensures Select(data, mask) == data[..if k <= |data| then k else |data|]
  {
    if data != [] {
      SelectLow(data[..|data| - 1], mask[..|data| - 1], k);
    }
  }

  function Words(n: nat): nat { (n + 7) / 8 }

  /** Bytes of word i that belong to a packet of n bytes. */
  function BytesOf(n: nat, i: nat): nat
    requires 8 * i <= n
  {
    if n - 8 * i > 8 then 8 else n - 8 * i
  }

  /** What the first ws carry when the packet has n bytes and total words. */
  ghost predicate Marked(ws: seq<Write>, total: nat) {
    forall j :: 0 <= j < |ws| ==> ws[j].sop == (j == 0) && ws[j].eop == (j == (total - 1) / 2)
  }

  /** Bytes of the packet in the writes made before word i. */
  function DoneBefore(n: nat, i: nat): nat {
    if i == Words(n) then n else 16 * (i / 2)
  }

  lemma AddsWord(buff: seq<nat>, n: nat, at: nat, i: nat, sofar: seq<nat>, word: seq<nat>)
    requires n <= |buff| && at == 8 * i && at <= n && 8 * i + 8 <= |buff|
    requires sofar == buff[..at] && word == buff[8 * i..8 * i + 8]
    ensures sofar + Select(word, LowMask(BytesOf(n, i))) == buff[..at + BytesOf(n, i)]
  {
    SelectLow(word, LowMask(BytesOf(n, i)), BytesOf(n, i));
    assert buff[..at] + buff[at..at + 8][..BytesOf(n, i)] == buff[..at + BytesOf(n, i)];
  }

  /** A write of words i - 1 and i. */
  lemma AddsBoth(buff: seq<nat>, n: nat, i: nat, ws: seq<Write>, w: Write)
    requires 8 * Words(n) <= |buff| && 0 < i < Words(n) && i % 2 == 1
    requires AllSized(ws) && Carried(ws) == buff[..8 * (i - 1)] && Sized(w)
    requires w.data0 == buff[8 * (i - 1)..8 * i] && w.mask0 == LowMask(8)
    requires w.data1 == buff[8 * i..8 * i + 8] && w.mask1 == LowMask(BytesOf(n, i))
    ensures AllSized(ws + [w]) && Carried(ws + [w]) == buff[..8 * i + BytesOf(n, i)]
  {
    CarriedSnoc(ws, w);
    AddsFirst(buff, 8 * (i - 1), 8 * i, w.data0);
    AddsWord(buff, n, 8 * i, i, buff[..8 * i], w.data1);
  }

  lemma AddsFirst(buff: seq<nat>, p: nat, q: nat, word: seq<nat>)
    requires q == p + 8 <= |buff| && word == buff[p..q]
    ensures buff[..p] + Select(word, LowMask(8)) == buff[..q]
  {
    SelectLow(word, LowMask(8), 8);
    assert word[..8] == word;
  }

  lemma SelectNone(data: seq<nat>)
    requires |data| == 8
    ensures Select(data, LowMask(0)) == []
  {
    SelectLow(data, LowMask(0), 0);
  }

  lemma AddsLast(buff: seq<nat>, n: nat, i: nat, word: seq<nat>)
    requires 8 * Words(n) <= |buff| && i + 1 == Words(n) && word == buff[8 * i..8 * i + 8]
    ensures buff[..8 * i] + Select(word, LowMask(BytesOf(n, i))) + [] == buff[..n]
  {
    AddsWord(buff, n, 8 * i, i, buff[..8 * i], word);
    assert 8 * i + BytesOf(n, i) == n;
  }

  /** A last write of word i alone. */
  lemma AddsOne(buff: seq<nat>, n: nat, i: nat, ws: seq<Write>, w: Write)
    requires 8 * Words(n) <= |buff| && i + 1 == Words(n) && i % 2 == 0
    requires AllSized(ws) && Carried(ws) == buff[..8 * i] && Sized(w)
    requires w.data0 == buff[8 * i..8 * i + 8] && w.mask0 == LowMask(BytesOf(n, i)) && w.mask1 == LowMask(0)
    ensures AllSized(ws + [w]) && Carried(ws + [w]) == buff[..n]
  {
    CarriedSnoc(ws, w);
    SelectNone(w.data1);
    AddsLast(buff, n, i, w.data0);
  }

  function ZeroWord(): (r: seq<nat>)
    ensures |r| == 8
  {
    [0, 0, 0, 0, 0, 0, 0, 0]
  }

  /** Write j of a packet of total words: two words of the memory, or one and zeros. */
  ghost predicate WordsInPlace(buff: seq<nat>, total: nat, w: Write, j: nat) {
    && 2 * j < total && 8 * total <= |buff|
    && w.data0 == buff[16 * j..16 * j + 8]
    && (if 2 * j + 1 < total then w.data1 == buff[16 * j + 8..16 * j + 16] else w.data1 == ZeroWord() && w.mask1 == LowMask(0))
  }

  ghost predicate AllInPlace(buff: seq<nat>, total: nat, ws: seq<Write>) {
    forall j :: 0 <= j < |ws| ==> WordsInPlace(buff, total, ws[j], j)
  }

  lemma InPlaceSnoc(buff: seq<nat>, total: nat, ws: seq<Write>, w: Write)
    requires AllInPlace(buff, total, ws) && WordsInPlace(buff, total, w, |ws|)
    ensures AllInPlace(buff, total, ws + [w])
  {}

  /** The writes made before word i. */
  ghost predicate Progress(buff: seq<nat>, n: nat, i: nat, ws: seq<Write>)
    requires 8 * Words(n) <= |buff|
  {
    && i <= Words(n)
    && |ws| == (if i == Words(n) then (i + 1) / 2 else i / 2) && AllSized(ws) && Marked(ws, Words(n))
    && AllInPlace(buff, Words(n), ws)
    && Carried(ws) == buff[..DoneBefore(n, i)]
  }

  lemma MarkedSnoc(ws: seq<Write>, w: Write, total: nat)
    requires Marked(ws, total) && w.sop == (|ws| == 0) && w.eop == (|ws| == (total - 1) / 2)
    ensures Marked(ws + [w], total)
  {}

  lemma ProgressFirst(buff: seq<nat>, n: nat, i: nat, ws: seq<Write>)
    requires 8 * Words(n) <= |buff| && Progress(buff, n, i, ws) && i % 2 == 0 && i + 1 < Words(n)
    ensures Progress(buff, n, i + 1, ws)
  {}

  lemma DoneAfter(n: nat, i: nat)
    requires 0 < i < Words(n) && i % 2 == 1
    ensures DoneBefore(n, i) == 8 * (i - 1) && DoneBefore(n, i + 1) == 8 * i + BytesOf(n, i)
  {}

  lemma PairInPlace(buff: seq<nat>, total: nat, i: nat, j: nat, w: Write)
    requires 8 * total <= |buff| && i == 2 * j + 1 < total
    requires w.data0 == buff[8 * (i - 1)..8 * i] && w.data1 == buff[8 * i..8 * i + 8]
    ensures WordsInPlace(buff, total, w, j)
  {}

  lemma LastInPlace(buff: seq<nat>, total: nat, i: nat, j: nat, w: Write)
    requires 8 * total <= |buff| && i == 2 * j && i + 1 == total
    requires w.data0 == buff[8 * i..8 * i + 8] && w.data1 == ZeroWord() && w.mask1 == LowMask(0)
    ensures WordsInPlace(buff, total, w, j)
  {}

  lemma ProgressBoth(buff: seq<nat>, n: nat, i: nat, ws: seq<Write>, w: Write)
    requires 8 * Words(n) <= |buff| && Progress(buff, n, i, ws) && i % 2 == 1 && i < Words(n) && Sized(w)
    requires w.data0 == buff[8 * (i - 1)..8 * i] && w.mask0 == LowMask(8)
    requires w.data1 == buff[8 * i..8 * i + 8] && w.mask1 == LowMask(BytesOf(n, i))
    requires w.sop == (i / 2 == 0) && w.eop == (i / 2 == (Words(n) - 1) / 2)
    ensures Progress(buff, n, i + 1, ws + [w])
  {
    DoneAfter(n, i);
    AddsBoth(buff, n, i, ws, w);
    MarkedSnoc(ws, w, Words(n));
    PairInPlace(buff, Words(n), i, |ws|, w);
    InPlaceSnoc(buff, Words(n), ws, w);
  }

  lemma ProgressOne(buff: seq<nat>, n: nat, i: nat, ws: seq<Write>, w: Write)
    requires 8 * Words(n) <= |buff| && Progress(buff, n, i, ws) && i % 2 == 0 && i + 1 == Words(n) && Sized(w)
    requires w.data0 == buff[8 * i..8 * i + 8] && w.mask0 == LowMask(BytesOf(n, i))
    requires w.data1 == ZeroWord() && w.mask1 == LowMask(0)
    requires w.sop == (i / 2 == 0) && w.eop
    ensures Progress(buff, n, i + 1, ws + [w])
  {
    AddsOne(buff, n, i, ws, w);
    MarkedSnoc(ws, w, Words(n));
    LastInPlace(buff, Words(n), i, |ws|, w);
    InPlaceSnoc(buff, Words(n), ws, w);
  }

  /** The writes of a whole packet: marks on the first and the last, and the packet's own bytes. */
  ghost predicate Packed(buff: seq<nat>, n: nat, ws: seq<Write>)
    requires n <= |buff|
  {
    && |ws| == (n + 15) / 16 && AllSized(ws)
    && (forall j :: 0 <= j < |ws| ==> ws[j].sop == (j == 0) && ws[j].eop == (j == |ws| - 1))
    && Carried(ws) == buff[..n] && AllInPlace(buff, Words(n), ws)
  }

  lemma ProgressDone(buff: seq<nat>, n: nat, ws: seq<Write>)
    requires 8 * Words(n) <= |buff| && Progress(buff, n, Words(n), ws)
    ensures Packed(buff, n, ws)
  {}

  /** The write due after word i, if one is: of a pair of words, or of a last word alone. */
  function WriteAfter(buff: seq<nat>, n: nat, i: nat): seq<Write>
    requires 8 * Words(n) <= |buff| && i < Words(n)
  {
    var word, mask, sop := buff[8 * i..8 * i + 8], LowMask(BytesOf(n, i)), i / 2 == 0;
    if i % 2 == 1 then [Write(buff[8 * (i - 1)..8 * i], word, LowMask(8), mask, sop, i / 2 == (Words(n) - 1) / 2)]
    else if i + 1 == Words(n) then [Write(word, ZeroWord(), mask, LowMask(0), sop, true)]
    else []
  }

  lemma WriteKeeps(buff: seq<nat>, n: nat, i: nat, next: nat, ws: seq<Write>, due: seq<Write>)
    requires 8 * Words(n) <= |buff| && i < Words(n) && Progress(buff, n, i, ws)
    requires next == i + 1 && due == WriteAfter(buff, n, i)
    ensures Progress(buff, n, next, ws + due)
  {
    if i % 2 == 1 {
      ProgressBoth(buff, n, i, ws, due[0]);
    } else if i + 1 == Words(n) {
      ProgressOne(buff, n, i, ws, due[0]);
    } else {
      ProgressFirst(buff, n, i, ws);
      assert ws + due == ws;
    }
  }

  /** Before a second word the first is held, with a full mask. */
  ghost predicate HoldsFirst(buff: seq<nat>, n: nat, i: nat, data: seq<nat>, mask: Bits.Word)
    requires 8 * Words(n) <= |buff| && i <= Words(n)
  {
    i % 2 == 1 ==> data == buff[8 * (i - 1)..8 * i] && (i < Words(n) ==> mask == LowMask(8))
  }

  /** The first half of the loop body: the next word and its mask. */
  method LoadWord(buff: seq<nat>, n: nat, i: nat, packetSize: nat, data: array<seq<nat>>, mask: array<Bits.Word>) returns (left: nat)
    requires 8 * Words(n) <= |buff| && i < Words(n) && packetSize == n - 8 * i
    requires data.Length == mask.Length == 2
    modifies data, mask
    ensures data[i % 2] == buff[8 * i..8 * i + 8] && mask[i % 2] == LowMask(BytesOf(n, i))
    ensures i % 2 == 1 ==> data[0] == old(data[0]) && mask[0] == old(mask[0])
    ensures left == if i + 1 < Words(n) then n - 8 * (i + 1) else 0
  {
    data[i % 2] := buff[8 * i..8 * i + 8];
    if packetSize > 8 {
      mask[i % 2] := LowMask(8);
      left := packetSize - 8;
    } else {
      mask[i % 2] := LowMask(packetSize);
      left := 0;
    }
  }

  /** The second half of the loop body: the writes due after word i. */
  method EmitWords(buff: seq<nat>, n: nat, i: nat, numBeats: nat, data: array<seq<nat>>, mask: array<Bits.Word>, sofar: seq<Write>)
    returns (ws: seq<Write>)
    requires 8 * Words(n) <= |buff| && i < Words(n) == numBeats
    requires data.Length == mask.Length == 2
    requires data[i % 2] == buff[8 * i..8 * i + 8] && mask[i % 2] == LowMask(BytesOf(n, i))
    requires HoldsFirst(buff, n, i, data[0], mask[0])
    modifies data, mask
    ensures data[0] == old(data[0]) && mask[0] == old(mask[0])
    ensures ws == sofar + WriteAfter(buff, n, i)
  {
    ws := sofar;
    var sop := i / 2 == 0;
    var eop := i / 2 == (numBeats - 1) / 2;
    if i % 2 != 0 {
      var w := Write(data[0], data[1], mask[0], mask[1], sop, eop);
      ws := ws + [w];
    }
    // last word, padded with zero
    if numBeats % 2 != 0 && i == numBeats - 1 {
      sop := i / 2 == 0;
      eop := true;
      data[1] := ZeroWord();
      mask[1] := LowMask(0);
      var w := Write(data[0], data[1], mask[0], mask[1], sop, eop);
      ws := ws + [w];
    }
  }

  method NumBeats(packetSize: nat) returns (numBeats: nat)
    ensures numBeats == Words(packetSize)
  {
    numBeats := packetSize / 8;
    if packetSize % 8 != 0 {
      numBeats := numBeats + 1;
    }
  }

  lemma NothingYet(buff: seq<nat>, n: nat)
    requires 8 * Words(n) <= |buff|
    ensures Progress(buff, n, 0, [])
  {}

  /** Bytes left before word i. */
  function Left(n: nat, i: nat): nat
    requires i <= Words(n)
  {
    if i < Words(n) then n - 8 * i else 0
  }

  /** The loop body. */
  method CopyWord(buff: seq<nat>, n: nat, i: nat, numBeats: nat, packetSize: nat, data: array<seq<nat>>, mask: array<Bits.Word>, sofar: seq<Write>)
    returns (left: nat, ws: seq<Write>)
    requires 8 * Words(n) <= |buff| && i < Words(n) == numBeats && packetSize == Left(n, i)
    requires data.Length == mask.Length == 2 && HoldsFirst(buff, n, i, data[0], mask[0])
    requires Progress(buff, n, i, sofar)
    modifies data, mask
    ensures left == Left(n, i + 1) && HoldsFirst(buff, n, i + 1, data[0], mask[0])
    ensures Progress(buff, n, i + 1, ws)
  {
    left := LoadWord(buff, n, i, packetSize, data, mask);
    ws := EmitWords(buff, n, i, numBeats, data, mask, sofar);
    WriteKeeps(buff, n, i, i + 1, sofar, WriteAfter(buff, n, i));
  }

  /**
    mem_copy. buff is the memory from the packet on: whole 8-byte words are
    read, so the last one may reach past the packet.
   */
  method MemCopy(buff: seq<nat>, n: nat) returns (ws: seq<Write>)
    requires 8 * Words(n) <= |buff|
    ensures Packed(buff, n, ws)
  {
    var packetSize := n;
    var data, mask := new seq<nat>[2], new Bits.Word[2];
    var numBeats := NumBeats(packetSize);
    ws := [];
    var i := 0;
    NothingYet(buff, n);
    while i < numBeats
      invariant 0 <= i <= numBeats == Words(n)
      invariant packetSize == Left(n, i)
      invariant Progress(buff, n, i, ws)
      invariant HoldsFirst(buff, n, i, data[0], mask[0])
    {
      packetSize, ws := CopyWord(buff, n, i, numBeats, packetSize, data, mask, ws);
      i := i + 1;
    }
    ProgressDone(buff, n, ws);
  }
}
