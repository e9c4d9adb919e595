/**
  The 1 + x^39 + x^58 self-synchronous scrambler: the word-parallel reference
  scrambler (hw/tests/data/xgmii.py) and the word-parallel descrambler
  (hw/bsv/Descrambler.bsv), both measured against one bit-serial recurrence.
 */
module Scrambling {
  import opened Bits

  const HISTORY := 58

  /** Bit n of the line, where negative positions are the shared history. */
  ghost function Line(h: Word, s: Word, n: int): bool
    requires |h| == HISTORY && -HISTORY <= n < |s|
  {
    if n < 0 then h[HISTORY + n] else s[n]
  }

  /**
    The bit-serial law of the scrambler: line bit n is data bit n plus the
    line bits 39 and 58 places earlier.
   */
  ghost predicate Recurrence(h: Word, d: Word, s: Word) {
    && |h| == HISTORY
    && |d| == |s|
    && forall n :: 0 <= n < |s| ==>
                     s[n] == Xor(d[n], Xor(Line(h, s, n - 39), Line(h, s, n - 58)))
  }

  /** The 58 line bits a later word sees. */
  function Last58(h: Word, s: Word): (r: Word)
    requires |h| == HISTORY
    ensures |r| == HISTORY
  {
    (h + s)[|s|..]
  }

  lemma RecurrenceAppend(h: Word, d1: Word, s1: Word, d2: Word, s2: Word)
    requires |d1| == |s1|
    requires |h| == HISTORY
    ensures Recurrence(h, d1 + d2, s1 + s2) <==> Recurrence(h, d1, s1) && Recurrence(Last58(h, s1), d2, s2)
  {
    var h2, d, s := Last58(h, s1), d1 + d2, s1 + s2;
    forall n | 0 <= n < |s1|
      ensures s[n] == s1[n] && Line(h, s, n - 39) == Line(h, s1, n - 39) && Line(h, s, n - 58) == Line(h, s1, n - 58)
    {}
    forall n | 0 <= n < |s2|
      ensures s[|s1| + n] == s2[n]
      ensures Line(h, s, |s1| + n - 39) == Line(h2, s2, n - 39)
      ensures Line(h, s, |s1| + n - 58) == Line(h2, s2, n - 58)
    {}
    if |d2| == |s2| {
      assert forall n :: 0 <= n < |s1| ==> d[n] == d1[n];
      assert forall n :: 0 <= n < |s2| ==> d[|s1| + n] == d2[n];
      if Recurrence(h, d, s) {
        forall n | 0 <= n < |s2|
          ensures s2[n] == Xor(d2[n], Xor(Line(h2, s2, n - 39), Line(h2, s2, n - 58)))
        {
          assert s[|s1| + n] == s2[n];
        }
      }
      if Recurrence(h, d1, s1) && Recurrence(h2, d2, s2) {
        forall n | 0 <= n < |s|
          ensures s[n] == Xor(d[n], Xor(Line(h, s, n - 39), Line(h, s, n - 58)))
        {
          if n >= |s1| {
            assert s[|s1| + (n - |s1|)] == s2[n - |s1|];
          }
        }
      }
    }
  }

  /** The line determines the data, given the history. */
  lemma DataUnique(h: Word, d: Word, d': Word, s: Word)
    requires Recurrence(h, d, s) && Recurrence(h, d', s)
    ensures d == d'
  {}

  /** The data determines the line, given the history. */
  lemma {:induction false} LineUnique(h: Word, d: Word, s: Word, s': Word)
    requires Recurrence(h, d, s) && Recurrence(h, d, s')
    ensures s == s'
  {
    LineUniqueUpTo(h, d, s, s', |d|);
  }

  /** Line bits that agree so far go on agreeing. */
  lemma LineUniqueNext(h: Word, d: Word, s: Word, s': Word, k: nat)
    requires Recurrence(h, d, s) && Recurrence(h, d, s') && k < |d|
    requires forall i :: 0 <= i < k ==> s[i] == s'[i]
    ensures s[k] == s'[k]
  {
    assert Line(h, s, k - 39) == Line(h, s', k - 39);
    assert Line(h, s, k - 58) == Line(h, s', k - 58);
  }

  lemma {:induction false} LineUniqueUpTo(h: Word, d: Word, s: Word, s': Word, n: nat)
    requires Recurrence(h, d, s) && Recurrence(h, d, s')
    requires n <= |d|
    ensures forall i :: 0 <= i < n ==> s[i] == s'[i]
  {
    if n > 0 {
      LineUniqueUpTo(h, d, s, s', n - 1);
      LineUniqueNext(h, d, s, s', n - 1);
    }
  }

  /**
    Self-synchronisation: a descrambler that starts from the wrong history
    recovers every data bit from bit 58 on.
   */
  lemma SelfSynchronises(h: Word, h': Word, d: Word, d': Word, s: Word)
    requires Recurrence(h, d, s) && Recurrence(h', d', s)
    ensures forall n :: HISTORY <= n < |s| ==> d[n] == d'[n]
  {
    forall n | HISTORY <= n < |s|
      ensures d[n] == d'[n]
    {
      assert Line(h, s, n - 39) == Line(h', s, n - 39);
      assert Line(h, s, n - 58) == Line(h', s, n - 58);
    }
  }

  /** Error spread: one line bit flipped flips exactly three data bits. */
  lemma ErrorSpread(h: Word, d: Word, d': Word, s: Word, s': Word, e: nat)
    requires Recurrence(h, d, s) && Recurrence(h, d', s')
    requires e < |s| && s' == s[e := !s[e]]
    ensures forall n :: 0 <= n < |s| ==> (d[n] != d'[n] <==> n == e || n == e + 39 || n == e + 58)
  {
    forall n | 0 <= n < |s|
      ensures d[n] != d'[n] <==> n == e || n == e + 39 || n == e + 58
    {
      assert Line(h, s, n - 39) != Line(h, s', n - 39) <==> n - 39 == e;
      assert Line(h, s, n - 58) != Line(h, s', n - 58) <==> n - 58 == e;
    }
  }

  // ---- the word-parallel reference scrambler ----

  /** One iteration of the reference scrambler: the new state is the scrambled word. */
  function ScrambleWord(state: Word, data: Word): (w: Word)
    requires |state| == 64 && |data| == 64
    ensures |w| == 64
  {
    var r := XorW(XorW(Shr(state, 6), Shr(state, 25)), data);
    XorW(XorW(r, Shl(r, 39)), Shl(r, 58))
  }

  /** The closed form of one scrambler iteration is 64 steps of the bit-serial law. */
  lemma ScrambleWordIsSerial(state: Word, data: Word)
    requires |state| == 64 && |data| == 64
    ensures Recurrence(state[6..], data, ScrambleWord(state, data))
  {
    var r := XorW(XorW(Shr(state, 6), Shr(state, 25)), data);
    var w := ScrambleWord(state, data);
    var h := state[6..];
    forall j | 0 <= j < 64
      ensures r[j] == Xor(data[j], Xor(j < 58 && state[j + 6], j < 39 && state[j + 25]))
      ensures w[j] == Xor(r[j], Xor(j >= 39 && r[j - 39], j >= 58 && r[j - 58]))
    {}
    forall n | 0 <= n < 64
      ensures w[n] == Xor(data[n], Xor(Line(h, w, n - 39), Line(h, w, n - 58)))
    {
      if n >= 39 {
        assert w[n - 39] == r[n - 39];
      }
      if n >= 58 {
        assert w[n - 58] == r[n - 58];
      }
    }
  }

  /** The reference scrambler: the whole output stream obeys the bit-serial law. */
  method Scramble(data: seq<Word>) returns (scrambled: seq<Word>)
    requires AllWide(data, 64)
    ensures |scrambled| == |data| && AllWide(scrambled, 64)
    ensures Recurrence(Ones(HISTORY), Concat(data), Concat(scrambled))
  {
    var state := Ones(64);
    scrambled := [];
    assert data[..0] == [];
    for i := 0 to |data|
      invariant |state| == 64 && |scrambled| == i && AllWide(scrambled, 64)
      invariant Recurrence(Ones(HISTORY), Concat(data[..i]), Concat(scrambled))
      invariant state[6..] == Last58(Ones(HISTORY), Concat(scrambled))
    {
      ghost var before := scrambled;
      ScrambleWordIsSerial(state, data[i]);
      var r := XorW(XorW(Shr(state, 6), Shr(state, 25)), data[i]);
      state := XorW(XorW(r, Shl(r, 39)), Shl(r, 58));
      scrambled := scrambled + [state];
      assert data[..i + 1] == data[..i] + [data[i]];
      ConcatSnoc(data[..i], data[i]);
      ConcatSnoc(before, state);
      RecurrenceAppend(Ones(HISTORY), Concat(data[..i]), Concat(before), data[i], state);
    }
    assert data[..|data|] == data;
  }
}
