/** The row tables of hw/bsv/CRC32.bsv: which data and register bits each next-state bit adds up. */
module Crc32Rows {
  /** The feedback taps of the generator polynomial. */
  predicate Tap(i: nat) {
    i in {0, 1, 2, 4, 5, 7, 8, 10, 11, 12, 16, 22, 23, 26}
  }

  /** Bit j of the data enters row `row` of nextCRC32_D64. */
  predicate D64(row: nat, j: nat)
    requires row < 32
  {
    match row
    case 0 => j in {63, 61, 60, 58, 55, 54, 53, 50, 48, 47, 45, 44, 37, 34, 32, 31, 30, 29, 28, 26, 25, 24, 16, 12, 10, 9, 6, 0}
    case 1 => j in {63, 62, 60, 59, 58, 56, 53, 51, 50, 49, 47, 46, 44, 38, 37, 35, 34, 33, 28, 27, 24, 17, 16, 13, 12, 11, 9, 7, 6, 1, 0}
    case 2 => j in {59, 58, 57, 55, 53, 52, 51, 44, 39, 38, 37, 36, 35, 32, 31, 30, 26, 24, 18, 17, 16, 14, 13, 9, 8, 7, 6, 2, 1, 0}
    case 3 => j in {60, 59, 58, 56, 54, 53, 52, 45, 40, 39, 38, 37, 36, 33, 32, 31, 27, 25, 19, 18, 17, 15, 14, 10, 9, 8, 7, 3, 2, 1}
    case 4 => j in {63, 59, 58, 57, 50, 48, 47, 46, 45, 44, 41, 40, 39, 38, 33, 31, 30, 29, 25, 24, 20, 19, 18, 15, 12, 11, 8, 6, 4, 3, 2, 0}
    case 5 => j in {63, 61, 59, 55, 54, 53, 51, 50, 49, 46, 44, 42, 41, 40, 39, 37, 29, 28, 24, 21, 20, 19, 13, 10, 7, 6, 5, 4, 3, 1, 0}
    case 6 => j in {62, 60, 56, 55, 54, 52, 51, 50, 47, 45, 43, 42, 41, 40, 38, 30, 29, 25, 22, 21, 20, 14, 11, 8, 7, 6, 5, 4, 2, 1}
    case 7 => j in {60, 58, 57, 56, 54, 52, 51, 50, 47, 46, 45, 43, 42, 41, 39, 37, 34, 32, 29, 28, 25, 24, 23, 22, 21, 16, 15, 10, 8, 7, 5, 3, 2, 0}
    case 8 => j in {63, 60, 59, 57, 54, 52, 51, 50, 46, 45, 43, 42, 40, 38, 37, 35, 34, 33, 32, 31, 28, 23, 22, 17, 12, 11, 10, 8, 4, 3, 1, 0}
    case 9 => j in {61, 60, 58, 55, 53, 52, 51, 47, 46, 44, 43, 41, 39, 38, 36, 35, 34, 33, 32, 29, 24, 23, 18, 13, 12, 11, 9, 5, 4, 2, 1}
    case 10 => j in {63, 62, 60, 59, 58, 56, 55, 52, 50, 42, 40, 39, 36, 35, 33, 32, 31, 29, 28, 26, 19, 16, 14, 13, 9, 5, 3, 2, 0}
    case 11 => j in {59, 58, 57, 56, 55, 54, 51, 50, 48, 47, 45, 44, 43, 41, 40, 36, 33, 31, 28, 27, 26, 25, 24, 20, 17, 16, 15, 14, 12, 9, 4, 3, 1, 0}
    case 12 => j in {63, 61, 59, 57, 56, 54, 53, 52, 51, 50, 49, 47, 46, 42, 41, 31, 30, 27, 24, 21, 18, 17, 15, 13, 12, 9, 6, 5, 4, 2, 1, 0}
    case 13 => j in {62, 60, 58, 57, 55, 54, 53, 52, 51, 50, 48, 47, 43, 42, 32, 31, 28, 25, 22, 19, 18, 16, 14, 13, 10, 7, 6, 5, 3, 2, 1}
    case 14 => j in {63, 61, 59, 58, 56, 55, 54, 53, 52, 51, 49, 48, 44, 43, 33, 32, 29, 26, 23, 20, 19, 17, 15, 14, 11, 8, 7, 6, 4, 3, 2}
    case 15 => j in {62, 60, 59, 57, 56, 55, 54, 53, 52, 50, 49, 45, 44, 34, 33, 30, 27, 24, 21, 20, 18, 16, 15, 12, 9, 8, 7, 5, 4, 3}
    case 16 => j in {57, 56, 51, 48, 47, 46, 44, 37, 35, 32, 30, 29, 26, 24, 22, 21, 19, 17, 13, 12, 8, 5, 4, 0}
    case 17 => j in {58, 57, 52, 49, 48, 47, 45, 38, 36, 33, 31, 30, 27, 25, 23, 22, 20, 18, 14, 13, 9, 6, 5, 1}
    case 18 => j in {59, 58, 53, 50, 49, 48, 46, 39, 37, 34, 32, 31, 28, 26, 24, 23, 21, 19, 15, 14, 10, 7, 6, 2}
    case 19 => j in {60, 59, 54, 51, 50, 49, 47, 40, 38, 35, 33, 32, 29, 27, 25, 24, 22, 20, 16, 15, 11, 8, 7, 3}
    case 20 => j in {61, 60, 55, 52, 51, 50, 48, 41, 39, 36, 34, 33, 30, 28, 26, 25, 23, 21, 17, 16, 12, 9, 8, 4}
    case 21 => j in {62, 61, 56, 53, 52, 51, 49, 42, 40, 37, 35, 34, 31, 29, 27, 26, 24, 22, 18, 17, 13, 10, 9, 5}
    case 22 => j in {62, 61, 60, 58, 57, 55, 52, 48, 47, 45, 44, 43, 41, 38, 37, 36, 35, 34, 31, 29, 27, 26, 24, 23, 19, 18, 16, 14, 12, 11, 9, 0}
    case 23 => j in {62, 60, 59, 56, 55, 54, 50, 49, 47, 46, 42, 39, 38, 36, 35, 34, 31, 29, 27, 26, 20, 19, 17, 16, 15, 13, 9, 6, 1, 0}
    case 24 => j in {63, 61, 60, 57, 56, 55, 51, 50, 48, 47, 43, 40, 39, 37, 36, 35, 32, 30, 28, 27, 21, 20, 18, 17, 16, 14, 10, 7, 2, 1}
    case 25 => j in {62, 61, 58, 57, 56, 52, 51, 49, 48, 44, 41, 40, 38, 37, 36, 33, 31, 29, 28, 22, 21, 19, 18, 17, 15, 11, 8, 3, 2}
    case 26 => j in {62, 61, 60, 59, 57, 55, 54, 52, 49, 48, 47, 44, 42, 41, 39, 38, 31, 28, 26, 25, 24, 23, 22, 20, 19, 18, 10, 6, 4, 3, 0}
    case 27 => j in {63, 62, 61, 60, 58, 56, 55, 53, 50, 49, 48, 45, 43, 42, 40, 39, 32, 29, 27, 26, 25, 24, 23, 21, 20, 19, 11, 7, 5, 4, 1}
    case 28 => j in {63, 62, 61, 59, 57, 56, 54, 51, 50, 49, 46, 44, 43, 41, 40, 33, 30, 28, 27, 26, 25, 24, 22, 21, 20, 12, 8, 6, 5, 2}
    case 29 => j in {63, 62, 60, 58, 57, 55, 52, 51, 50, 47, 45, 44, 42, 41, 34, 31, 29, 28, 27, 26, 25, 23, 22, 21, 13, 9, 7, 6, 3}
    case 30 => j in {63, 61, 59, 58, 56, 53, 52, 51, 48, 46, 45, 43, 42, 35, 32, 30, 29, 28, 27, 26, 24, 23, 22, 14, 10, 8, 7, 4}
    case 31 => j in {62, 60, 59, 57, 54, 53, 52, 49, 47, 46, 44, 43, 36, 33, 31, 30, 29, 28, 27, 25, 24, 23, 15, 11, 9, 8, 5}
  }

  /** Bit j of the register enters row `row` of nextCRC32_D64. */
  predicate C64(row: nat, j: nat)
    requires row < 32
  {
    match row
    case 0 => j in {0, 2, 5, 12, 13, 15, 16, 18, 21, 22, 23, 26, 28, 29, 31}
    case 1 => j in {1, 2, 3, 5, 6, 12, 14, 15, 17, 18, 19, 21, 24, 26, 27, 28, 30, 31}
    case 2 => j in {0, 3, 4, 5, 6, 7, 12, 19, 20, 21, 23, 25, 26, 27}
    case 3 => j in {0, 1, 4, 5, 6, 7, 8, 13, 20, 21, 22, 24, 26, 27, 28}
    case 4 => j in {1, 6, 7, 8, 9, 12, 13, 14, 15, 16, 18, 25, 26, 27, 31}
    case 5 => j in {5, 7, 8, 9, 10, 12, 14, 17, 18, 19, 21, 22, 23, 27, 29, 31}
    case 6 => j in {6, 8, 9, 10, 11, 13, 15, 18, 19, 20, 22, 23, 24, 28, 30}
    case 7 => j in {0, 2, 5, 7, 9, 10, 11, 13, 14, 15, 18, 19, 20, 22, 24, 25, 26, 28}
    case 8 => j in {0, 1, 2, 3, 5, 6, 8, 10, 11, 13, 14, 18, 19, 20, 22, 25, 27, 28, 31}
    case 9 => j in {0, 1, 2, 3, 4, 6, 7, 9, 11, 12, 14, 15, 19, 20, 21, 23, 26, 28, 29}
    case 10 => j in {0, 1, 3, 4, 7, 8, 10, 18, 20, 23, 24, 26, 27, 28, 30, 31}
    case 11 => j in {1, 4, 8, 9, 11, 12, 13, 15, 16, 18, 19, 22, 23, 24, 25, 26, 27}
    case 12 => j in {9, 10, 14, 15, 17, 18, 19, 20, 21, 22, 24, 25, 27, 29, 31}
    case 13 => j in {0, 10, 11, 15, 16, 18, 19, 20, 21, 22, 23, 25, 26, 28, 30}
    case 14 => j in {0, 1, 11, 12, 16, 17, 19, 20, 21, 22, 23, 24, 26, 27, 29, 31}
    case 15 => j in {1, 2, 12, 13, 17, 18, 20, 21, 22, 23, 24, 25, 27, 28, 30}
    case 16 => j in {0, 3, 5, 12, 14, 15, 16, 19, 24, 25}
    case 17 => j in {1, 4, 6, 13, 15, 16, 17, 20, 25, 26}
    case 18 => j in {0, 2, 5, 7, 14, 16, 17, 18, 21, 26, 27}
    case 19 => j in {0, 1, 3, 6, 8, 15, 17, 18, 19, 22, 27, 28}
    case 20 => j in {1, 2, 4, 7, 9, 16, 18, 19, 20, 23, 28, 29}
    case 21 => j in {2, 3, 5, 8, 10, 17, 19, 20, 21, 24, 29, 30}
    case 22 => j in {2, 3, 4, 5, 6, 9, 11, 12, 13, 15, 16, 20, 23, 25, 26, 28, 29, 30}
    case 23 => j in {2, 3, 4, 6, 7, 10, 14, 15, 17, 18, 22, 23, 24, 27, 28, 30}
    case 24 => j in {0, 3, 4, 5, 7, 8, 11, 15, 16, 18, 19, 23, 24, 25, 28, 29, 31}
    case 25 => j in {1, 4, 5, 6, 8, 9, 12, 16, 17, 19, 20, 24, 25, 26, 29, 30}
    case 26 => j in {6, 7, 9, 10, 12, 15, 16, 17, 20, 22, 23, 25, 27, 28, 29, 30}
    case 27 => j in {0, 7, 8, 10, 11, 13, 16, 17, 18, 21, 23, 24, 26, 28, 29, 30, 31}
    case 28 => j in {1, 8, 9, 11, 12, 14, 17, 18, 19, 22, 24, 25, 27, 29, 30, 31}
    case 29 => j in {2, 9, 10, 12, 13, 15, 18, 19, 20, 23, 25, 26, 28, 30, 31}
    case 30 => j in {0, 3, 10, 11, 13, 14, 16, 19, 20, 21, 24, 26, 27, 29, 31}
    case 31 => j in {1, 4, 11, 12, 14, 15, 17, 20, 21, 22, 25, 27, 28, 30}
  }

  /** Bit j of the data enters row `row` of nextCRC32_D8. */
  predicate D8(row: nat, j: nat)
    requires row < 32
  {
    match row
    case 0 => j in {6, 0}
    case 1 => j in {7, 6, 1, 0}
    case 2 => j in {7, 6, 2, 1, 0}
    case 3 => j in {7, 3, 2, 1}
    case 4 => j in {6, 4, 3, 2, 0}
    case 5 => j in {7, 6, 5, 4, 3, 1, 0}
    case 6 => j in {7, 6, 5, 4, 2, 1}
    case 7 => j in {7, 5, 3, 2, 0}
    case 8 => j in {4, 3, 1, 0}
    case 9 => j in {5, 4, 2, 1}
    case 10 => j in {5, 3, 2, 0}
    case 11 => j in {4, 3, 1, 0}
    case 12 => j in {6, 5, 4, 2, 1, 0}
    case 13 => j in {7, 6, 5, 3, 2, 1}
    case 14 => j in {7, 6, 4, 3, 2}
    case 15 => j in {7, 5, 4, 3}
    case 16 => j in {5, 4, 0}
    case 17 => j in {6, 5, 1}
    case 18 => j in {7, 6, 2}
    case 19 => j in {7, 3}
    case 20 => j in {4}
    case 21 => j in {5}
    case 22 => j in {0}
    case 23 => j in {6, 1, 0}
    case 24 => j in {7, 2, 1}
    case 25 => j in {3, 2}
    case 26 => j in {6, 4, 3, 0}
    case 27 => j in {7, 5, 4, 1}
    case 28 => j in {6, 5, 2}
    case 29 => j in {7, 6, 3}
    case 30 => j in {7, 4}
    case 31 => j in {5}
  }

  /** Bit j of the register enters row `row` of nextCRC32_D8. */
  predicate C8(row: nat, j: nat)
    requires row < 32
  {
    match row
    case 0 => j in {24, 30}
    case 1 => j in {24, 25, 30, 31}
    case 2 => j in {24, 25, 26, 30, 31}
    case 3 => j in {25, 26, 27, 31}
    case 4 => j in {24, 26, 27, 28, 30}
    case 5 => j in {24, 25, 27, 28, 29, 30, 31}
    case 6 => j in {25, 26, 28, 29, 30, 31}
    case 7 => j in {24, 26, 27, 29, 31}
    case 8 => j in {0, 24, 25, 27, 28}
    case 9 => j in {1, 25, 26, 28, 29}
    case 10 => j in {2, 24, 26, 27, 29}
    case 11 => j in {3, 24, 25, 27, 28}
    case 12 => j in {4, 24, 25, 26, 28, 29, 30}
    case 13 => j in {5, 25, 26, 27, 29, 30, 31}
    case 14 => j in {6, 26, 27, 28, 30, 31}
    case 15 => j in {7, 27, 28, 29, 31}
    case 16 => j in {8, 24, 28, 29}
    case 17 => j in {9, 25, 29, 30}
    case 18 => j in {10, 26, 30, 31}
    case 19 => j in {11, 27, 31}
    case 20 => j in {12, 28}
    case 21 => j in {13, 29}
    case 22 => j in {14, 24}
    case 23 => j in {15, 24, 25, 30}
    case 24 => j in {16, 25, 26, 31}
    case 25 => j in {17, 26, 27}
    case 26 => j in {18, 24, 27, 28, 30}
    case 27 => j in {19, 25, 28, 29, 31}
    case 28 => j in {20, 26, 29, 30}
    case 29 => j in {21, 27, 30, 31}
    case 30 => j in {22, 28, 31}
    case 31 => j in {23, 29}
  }

  // ---- what the tables say ----

  /**
    Row i sees a bit fed one step earlier as row i - 1 and the feedback see it:
    the recurrence of a one-bit shift register with the taps of Tap.
   */
  predicate RowRecurrence(i: nat, j: nat)
    requires i < 32
  {
    && D64(i, 0) == Tap(i)
    && D64(i, j + 1) == ((i > 0 && D64(i - 1, j)) != (Tap(i) && D64(31, j)))
  }

  lemma RecurrenceRows0To3(i: nat, j: nat)
    requires 0 <= i <= 3 && j < 63
    ensures RowRecurrence(i, j)
  {}

  lemma RecurrenceRows4To7(i: nat, j: nat)
    requires 4 <= i <= 7 && j < 63
    ensures RowRecurrence(i, j)
  {}

  lemma RecurrenceRows8To11(i: nat, j: nat)
    requires 8 <= i <= 11 && j < 63
    ensures RowRecurrence(i, j)
  {}

  lemma RecurrenceRows12To15(i: nat, j: nat)
    requires 12 <= i <= 15 && j < 63
    ensures RowRecurrence(i, j)
  {}

  lemma RecurrenceRows16To19(i: nat, j: nat)
    requires 16 <= i <= 19 && j < 63
    ensures RowRecurrence(i, j)
  {}

  lemma RecurrenceRows20To23(i: nat, j: nat)
    requires 20 <= i <= 23 && j < 63
    ensures RowRecurrence(i, j)
  {}

  lemma RecurrenceRows24To27(i: nat, j: nat)
    requires 24 <= i <= 27 && j < 63
    ensures RowRecurrence(i, j)
  {}

  lemma RecurrenceRows28To31(i: nat, j: nat)
    requires 28 <= i <= 31 && j < 63
    ensures RowRecurrence(i, j)
  {}

  lemma Recurrence(i: nat, j: nat)
    requires i < 32 && j < 63
    ensures RowRecurrence(i, j)
  {
    if i <= 3 {
      RecurrenceRows0To3(i, j);
    } else if i <= 7 {
      RecurrenceRows4To7(i, j);
    } else if i <= 11 {
      RecurrenceRows8To11(i, j);
    } else if i <= 15 {
      RecurrenceRows12To15(i, j);
    } else if i <= 19 {
      RecurrenceRows16To19(i, j);
    } else if i <= 23 {
      RecurrenceRows20To23(i, j);
    } else if i <= 27 {
      RecurrenceRows24To27(i, j);
    } else {
      RecurrenceRows28To31(i, j);
    }
  }

  /** The register enters a row of nextCRC32_D64 as the upper half of the data does. */
  lemma WideRegisterRows0To7(i: nat, k: nat)
    requires 0 <= i <= 7 && k < 32
    ensures C64(i, k) == D64(i, 32 + k)
  {}

  lemma WideRegisterRows8To15(i: nat, k: nat)
    requires 8 <= i <= 15 && k < 32
    ensures C64(i, k) == D64(i, 32 + k)
  {}

  lemma WideRegisterRows16To23(i: nat, k: nat)
    requires 16 <= i <= 23 && k < 32
    ensures C64(i, k) == D64(i, 32 + k)
  {}

  lemma WideRegisterRows24To31(i: nat, k: nat)
    requires 24 <= i <= 31 && k < 32
    ensures C64(i, k) == D64(i, 32 + k)
  {}

  lemma WideRegister(i: nat, k: nat)
    requires i < 32 && k < 32
    ensures C64(i, k) == D64(i, 32 + k)
  {
    if i <= 7 {
      WideRegisterRows0To7(i, k);
    } else if i <= 15 {
      WideRegisterRows8To15(i, k);
    } else if i <= 23 {
      WideRegisterRows16To23(i, k);
    } else {
      WideRegisterRows24To31(i, k);
    }
  }

  /** A row of nextCRC32_D8 is the start of the row of nextCRC32_D64. */
  lemma NarrowDataRows0To15(i: nat, j: nat)
    requires 0 <= i <= 15 && j < 8
    ensures D8(i, j) == D64(i, j)
  {}

  lemma NarrowDataRows16To31(i: nat, j: nat)
    requires 16 <= i <= 31 && j < 8
    ensures D8(i, j) == D64(i, j)
  {}

  lemma NarrowData(i: nat, j: nat)
    requires i < 32 && j < 8
    ensures D8(i, j) == D64(i, j)
  {
    if i <= 15 {
      NarrowDataRows0To15(i, j);
    } else {
      NarrowDataRows16To31(i, j);
    }
  }

  /** The top byte of the register enters a row as the data does, and one more bit is shifted in. */
  lemma NarrowRegisterRows0To15(i: nat, k: nat)
    requires 0 <= i <= 15 && k < 32
    ensures C8(i, k) == if k >= 24 then D8(i, k - 24) else i >= 8 && k == i - 8
  {}

  lemma NarrowRegisterRows16To31(i: nat, k: nat)
    requires 16 <= i <= 31 && k < 32
    ensures C8(i, k) == if k >= 24 then D8(i, k - 24) else i >= 8 && k == i - 8
  {}

  lemma NarrowRegister(i: nat, k: nat)
    requires i < 32 && k < 32
    ensures C8(i, k) == if k >= 24 then D8(i, k - 24) else i >= 8 && k == i - 8
  {
    if i <= 15 {
      NarrowRegisterRows0To15(i, k);
    } else {
      NarrowRegisterRows16To31(i, k);
    }
  }
}
