/**
  The MMU region table that sonic/cpp/dpdk.cpp sends to the DMA engine: for
  each of four page sizes a border and an index offset, from which the engine
  finds the scatter-gather entry of a byte address.
 */
module RegionTable {
  const WRAP64 := 0x1_0000_0000_0000_0000
  const WRAP32 := 0x1_0000_0000

  /** 1 << shifts[i], for the shifts 24, 20, 16, 12 and 0. */
  function PageSize(i: nat): (r: nat)
    requires i <= 4
    ensures r > 0
  {
    match i
    case 0 => 0x100_0000
    case 1 => 0x10_0000
    case 2 => 0x1_0000
    case 3 => 0x1000
    case 4 => 1
  }

  /** Entry counts for the four page sizes, as 32-bit counters. */
  ghost predicate Counts(regions: seq<nat>) {
    |regions| == 4 && forall i :: 0 <= i < 4 ==> regions[i] < WRAP32
  }

  /** Bytes and entries of the first n regions. */
  function Bytes(regions: seq<nat>, n: nat): nat
    requires n <= |regions| <= 4
  {
    if n == 0 then 0 else Bytes(regions, n - 1) + regions[n - 1] * PageSize(n - 1)
  }

  function Entries(regions: seq<nat>, n: nat): nat
    requires n <= |regions|
  {
    if n == 0 then 0 else Entries(regions, n - 1) + regions[n - 1]
  }

  /** shifts[i] - shifts[i + 1], as a factor. */
  function Ratio(i: nat): nat
    requires i < 4
  {
    if i == 3 then 0x1000 else 16
  }

  /** The regions before region i, counted in pages of region i. */
  function Pages(regions: seq<nat>, i: nat): nat
    requires i <= |regions| == 4
  {
    if i == 0 then 0 else (Pages(regions, i - 1) + regions[i - 1]) * Ratio(i - 1)
  }

  /** Regions before region i fill whole pages of region i. */
  lemma PagesAreBytes(regions: seq<nat>, i: nat)
    requires i <= |regions| == 4
    ensures Pages(regions, i) * PageSize(i) == Bytes(regions, i)
  {
    if i > 0 {
      PagesAreBytes(regions, i - 1);
      match i
      case 1 =>
      case 2 =>
      case 3 =>
      case 4 =>
    }
  }

  /** No border reaches 2^64. */
  lemma PagesFit(regions: seq<nat>, i: nat)
    requires Counts(regions) && i <= 4
    ensures Pages(regions, i) < 0x1_0000_0000_0000_0000 / 16
    ensures i < 4 ==> Pages(regions, i) < 0x4000_0000_0000
  {
    assert Pages(regions, 0) == 0;
    assert Pages(regions, 1) == regions[0] * 16;
    assert Pages(regions, 2) == (Pages(regions, 1) + regions[1]) * 16;
    assert Pages(regions, 3) == (Pages(regions, 2) + regions[2]) * 16;
    assert Pages(regions, 4) == (Pages(regions, 3) + regions[3]) * 0x1000;
    assert i == 0 || i == 1 || i == 2 || i == 3 || i == 4;
  }

  /** The border and index values of the first n page sizes. */
  ghost predicate TableFor(regions: seq<nat>, n: nat, borderVal: seq<nat>, indexVal: seq<nat>)
    requires n <= |regions| == 4
  {
    && |borderVal| == |indexVal| == n
    && forall k :: 0 <= k < n ==> RowFor(regions, k, borderVal[k], indexVal[k])
  }

  /** The border is where region k ends; the index turns pages of region k into entry numbers. */
  ghost predicate RowFor(regions: seq<nat>, k: nat, border: nat, index: nat)
    requires k < |regions| == 4
  {
    && border * PageSize(k) == Bytes(regions, k + 1)
    && index == (Entries(regions, k) - Bytes(regions, k) / PageSize(k)) % 256
  }

  /** One pass of the loop, in numbers: no 64-bit step wraps. */
  lemma RowOf(regions: seq<nat>, k: nat, entryCount: nat, border: nat)
    requires Counts(regions) && k < 4 && entryCount == Entries(regions, k) % 256 && border == Pages(regions, k)
    ensures (border + regions[k]) % WRAP64 == border + regions[k]
    ensures ((border + regions[k]) * Ratio(k)) % WRAP64 == Pages(regions, k + 1)
    ensures (entryCount + regions[k]) % 256 == Entries(regions, k + 1) % 256
    ensures RowFor(regions, k, border + regions[k], (entryCount - border) % 256)
  {
    PagesFit(regions, k);
    PagesFit(regions, k + 1);
    SmallMod(border + regions[k]);
    SmallMod((border + regions[k]) * Ratio(k));
    SumMod(regions[k], Entries(regions, k));
    RowIs(regions, k, entryCount, border);
  }

  lemma SmallMod(x: nat)
    requires x < WRAP64
    ensures x % WRAP64 == x
  {}

  lemma RowIs(regions: seq<nat>, k: nat, entryCount: nat, border: nat)
    requires Counts(regions) && k < 4 && entryCount == Entries(regions, k) % 256 && border == Pages(regions, k)
    ensures RowFor(regions, k, border + regions[k], (entryCount - border) % 256)
  {
    PagesAreBytes(regions, k);
    DivUnique(Bytes(regions, k), border, PageSize(k));
    DiffMod(Entries(regions, k), border);
    Distribute(border, regions[k], PageSize(k));
  }

  lemma Distribute(a: nat, b: nat, c: nat)
    ensures (a + b) * c == a * c + b * c
  {}

  lemma DiffMod(a: nat, b: nat)
    ensures (a % 256 - b) % 256 == (a - b) % 256
  {}

  lemma DivUnique(x: nat, q: nat, size: nat)
    requires size > 0 && q * size <= x < q * size + size
    ensures x / size == q
  {
    var d, r := x / size, x % size;
    assert x == d * size + r;
    if d < q {
      MulOrder(d, q, size);
    } else if d > q {
      MulOrder(q, d, size);
    }
  }

  lemma MulOrder(a: nat, b: nat, size: nat)
    requires a < b
    ensures a * size + size <= b * size
  {
    assert b * size == a * size + (b - a) * size;
    assert (b - a) * size == size + (b - a - 1) * size;
  }

  /**
    The loop of send_fd_to_portal over the four page sizes. border is a 64-bit
    variable, entryCount and idxOffset are single bytes.
   */
  method BorderTable(regions: seq<nat>) returns (borderVal: seq<nat>, indexVal: seq<nat>)
    requires Counts(regions)
    ensures TableFor(regions, 4, borderVal, indexVal)
  {
    var border, entryCount := 0, 0;
    borderVal, indexVal := [], [];
    for i := 0 to 4
      invariant entryCount == Entries(regions, i) % 256
      invariant border == Pages(regions, i)
      invariant TableFor(regions, i, borderVal, indexVal)
    {
      RowOf(regions, i, entryCount, border);
      var idxOffset := (entryCount - border) % 256;
      entryCount := (entryCount + regions[i]) % 256;
      border := (border + regions[i]) % WRAP64;
      borderVal := borderVal + [border];
      indexVal := indexVal + [idxOffset];
      border := (border * Ratio(i)) % WRAP64;
    }
  }

  // ---- what the table is for ----

  function Repeat(n: nat, size: nat): (r: seq<nat>)
    ensures |r| == n
  {
    seq(n, _ => size)
  }

  /** The sizes of the scatter-gather entries, in order. */
  function Layout(regions: seq<nat>, n: nat): seq<nat>
    requires n <= |regions| <= 4
  {
    if n == 0 then [] else Layout(regions, n - 1) + Repeat(regions[n - 1], PageSize(n - 1))
  }

  function Total(sizes: seq<nat>): nat {
    if sizes == [] then 0 else sizes[0] + Total(sizes[1..])
  }

  /** The entry that holds byte o, found by walking the list. */
  function Holder(sizes: seq<nat>, o: nat): nat
    requires o < Total(sizes)
  {
    if o < sizes[0] then 0 else 1 + Holder(sizes[1..], o - sizes[0])
  }

  lemma {:induction false} TotalAppend(a: seq<nat>, b: seq<nat>)
    ensures Total(a + b) == Total(a) + Total(b)
  {
    if a == [] {
      assert a + b == b;
    } else {
      TotalAppend(a[1..], b);
      assert (a + b)[1..] == a[1..] + b;
    }
  }

  lemma {:induction false} HolderSkips(a: seq<nat>, b: seq<nat>, o: nat)
    requires Total(a) <= o < Total(a) + Total(b)
    ensures o < Total(a + b) && Holder(a + b, o) == |a| + Holder(b, o - Total(a))
  {
    TotalAppend(a, b);
    if a == [] {
      assert a + b == b;
    } else {
      assert (a + b)[1..] == a[1..] + b;
      HolderSkips(a[1..], b, o - a[0]);
    }
  }

  lemma {:induction false} HolderWithin(a: seq<nat>, b: seq<nat>, o: nat)
    requires o < Total(a)
    ensures o < Total(a + b) && Holder(a + b, o) == Holder(a, o)
  {
    TotalAppend(a, b);
    assert (a + b)[1..] == a[1..] + b;
    if o >= a[0] {
      HolderWithin(a[1..], b, o - a[0]);
    }
  }

  lemma {:induction false} Uniform(n: nat, size: nat)
    requires size > 0
    ensures Total(Repeat(n, size)) == n * size
    ensures forall o: nat :: o < n * size ==> Holder(Repeat(n, size), o) == o / size
  {
    if n > 0 {
      var all, rest := Repeat(n, size), Repeat(n - 1, size);
      assert all[1..] == rest;
      Uniform(n - 1, size);
      assert n * size == (n - 1) * size + size;
      forall o: nat | o < n * size
        ensures Holder(all, o) == o / size
      {
        if o >= size {
          DivNext(o, size);
        } else {
          DivUnique(o, 0, size);
        }
      }
    }
  }

  lemma {:induction false} LayoutTotals(regions: seq<nat>, n: nat)
    requires n <= |regions| <= 4
    ensures Total(Layout(regions, n)) == Bytes(regions, n) && |Layout(regions, n)| == Entries(regions, n)
  {
    if n > 0 {
      LayoutTotals(regions, n - 1);
      Uniform(regions[n - 1], PageSize(n - 1));
      TotalAppend(Layout(regions, n - 1), Repeat(regions[n - 1], PageSize(n - 1)));
    }
  }

  /** In region i the entry number is the count of earlier entries plus whole pages into the region. */
  lemma HolderInRegion(regions: seq<nat>, i: nat, o: nat)
    requires i < |regions| == 4 && Bytes(regions, i) <= o < Bytes(regions, i + 1)
    ensures o < Total(Layout(regions, i + 1))
    ensures Holder(Layout(regions, i + 1), o) == Entries(regions, i) + (o - Bytes(regions, i)) / PageSize(i)
  {
    var a, b := Layout(regions, i), Repeat(regions[i], PageSize(i));
    LayoutTotals(regions, i);
    LayoutTotals(regions, i + 1);
    Uniform(regions[i], PageSize(i));
    HolderSkips(a, b, o);
  }

  lemma {:induction false} LaterRegions(regions: seq<nat>, n: nat, m: nat, o: nat)
    requires n <= m <= |regions| <= 4 && o < Total(Layout(regions, n))
    ensures o < Total(Layout(regions, m)) && Holder(Layout(regions, m), o) == Holder(Layout(regions, n), o)
  {
    if n < m {
      LaterRegions(regions, n, m - 1, o);
      HolderWithin(Layout(regions, m - 1), Repeat(regions[m - 1], PageSize(m - 1)), o);
    }
  }

  lemma DivNext(x: nat, size: nat)
    requires x >= size > 0
    ensures x / size == (x - size) / size + 1
  {
    var d := (x - size) / size;
    assert x - size == d * size + (x - size) % size;
    assert (d + 1) * size == d * size + size;
    DivUnique(x, d + 1, size);
  }

  lemma PagesApart(o: nat, pages: nat, size: nat)
    requires size > 0 && pages * size <= o
    ensures (o - pages * size) / size == o / size - pages
  {
    var d, r := (o - pages * size) / size, (o - pages * size) % size;
    assert o - pages * size == d * size + r;
    assert (d + pages) * size == d * size + pages * size;
    DivUnique(o, d + pages, size);
  }

  /**
    The table finds the right entry: for every byte offset o of region i, the
    page number of o plus indexVal[i] is, modulo 256, the number of the entry
    that holds o in the list of all entries.
   */
  lemma TableFindsEntry(regions: seq<nat>, borderVal: seq<nat>, indexVal: seq<nat>, i: nat, o: nat)
    requires i < |regions| == 4 && TableFor(regions, 4, borderVal, indexVal)
    requires Bytes(regions, i) <= o < Bytes(regions, i + 1)
    ensures o < Total(Layout(regions, 4))
    ensures (o / PageSize(i) + indexVal[i]) % 256 == Holder(Layout(regions, 4), o) % 256
  {
    HolderInRegion(regions, i, o);
    LaterRegions(regions, i + 1, 4, o);
    var pages := Pages(regions, i);
    PagesAreBytes(regions, i);
    PagesApart(o, pages, PageSize(i));
    DivUnique(Bytes(regions, i), pages, PageSize(i));
    SumMod(o / PageSize(i), Entries(regions, i) - pages);
  }

  lemma SumMod(a: nat, b: int)
    ensures (a + b % 256) % 256 == (a + b) % 256
  {}
}
