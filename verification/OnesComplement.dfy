/** One's-complement sums of 16-bit words, as section 2 of RFC 1071 defines them, and the
    deferred-carry way to compute them.
 */
module OnesComplement {
  import opened Bits

  /** Addition with the end-around carry. */
  function EndAroundAdd(a: u16, b: u16): u16 {
    if a + b < U16 then a + b else a + b - U16 + 1
  }

  /** The sum word by word, each carry added at once. */
  function OnesSum(acc: u16, ws: seq<u16>): u16
    decreases |ws|
  {
    if ws == [] then acc else OnesSum(EndAroundAdd(acc, ws[0]), ws[1..])
  }

  function WordSum(ws: seq<u16>): nat {
    if ws == [] then 0 else ws[0] + WordSum(ws[1..])
  }

  /** The carries of a sum, folded in at the end until none is left. */
  function FoldCarries(s: nat): u16 {
    if s < U16 then s else FoldCarries(s % U16 + s / U16)
  }

  /** The representative of `s` modulo 65535 in 1..65535, or 0 for 0. */
  function Residue(s: nat): (r: u16)
    ensures r == 0 <==> s == 0
  {
    if s == 0 then 0 else 1 + (s - 1) % 65535
  }

  lemma ResidueStep(s: nat, q: nat)
    requires s > q * 65535
    ensures Residue(s - q * 65535) == Residue(s)
  {
  }

  lemma {:induction false} FoldIsResidue(s: nat)
    ensures FoldCarries(s) == Residue(s)
  {
    if s < U16 {
    } else {
      var q := s / U16;
      assert s % U16 + q == s - q * 65535;
      ResidueStep(s, q);
      FoldIsResidue(s % U16 + q);
    }
  }

  lemma {:induction false} OnesSumIsResidue(acc: u16, ws: seq<u16>)
    ensures OnesSum(acc, ws) == Residue(acc + WordSum(ws))
    decreases |ws|
  {
    if ws == [] {
    } else {
      var next := EndAroundAdd(acc, ws[0]);
      OnesSumIsResidue(next, ws[1..]);
      if acc + ws[0] >= U16 {
        ResidueStep(acc + WordSum(ws), 1);
      }
    }
  }

  /** Deferred carries refine the word-by-word sum. */
  lemma DeferredCarries(ws: seq<u16>)
    ensures FoldCarries(WordSum(ws)) == OnesSum(0, ws) == Residue(WordSum(ws))
  {
    FoldIsResidue(WordSum(ws));
    OnesSumIsResidue(0, ws);
  }

  lemma {:induction false} WordSumAppend(a: seq<u16>, b: seq<u16>)
    ensures WordSum(a + b) == WordSum(a) + WordSum(b)
  {
    if a == [] {
      assert a + b == b;
    } else {
      assert (a + b)[1..] == a[1..] + b;
      WordSumAppend(a[1..], b);
    }
  }

  /** Adding the complement of a nonzero sum, or 0xFFFF where the complement is 0, gives 0xFFFF. */
  lemma ComplementVerifies(s: nat, c: u16)
    requires s > 0
    requires c == 0xFFFF - Residue(s) || (Residue(s) == 0xFFFF && c == 0xFFFF)
    ensures Residue(s + c) == 0xFFFF
  {
  }

  // ---------------------------------------------------------------- words of a byte string

  /** The big-endian word at an offset; a last odd byte is padded with zero. */
  function WordAt(b: seq<u8>, i: nat): u16
    requires i < |b|
  {
    var hi: int := b[i];
    var lo: int := if i + 1 < |b| then b[i + 1] else 0;
    hi * 0x100 + lo
  }

  /** The words from an even offset on, without the word at offset `skip`. */
  function WordsFrom(b: seq<u8>, i: nat, skip: int): seq<u16>
    decreases |b| - i
  {
    if i >= |b| then []
    else if i == skip then WordsFrom(b, i + 2, skip)
    else [WordAt(b, i)] + WordsFrom(b, i + 2, skip)
  }

  function Words(b: seq<u8>): seq<u16> { WordsFrom(b, 0, -1) }

  /** The words from an offset on are the pairs of bytes from there on; a last odd byte makes a
      word with zero. */
  lemma {:induction false} WordsAreBytePairs(b: seq<u8>, i: nat)
    requires i <= |b| + 1
    ensures |WordsFrom(b, i, -1)| == (|b| + 1 - i) / 2
    ensures forall k :: 0 <= k < (|b| + 1 - i) / 2 ==>
      WordsFrom(b, i, -1)[k] == b[i + 2 * k] as int * 256 + if i + 2 * k + 1 < |b| then b[i + 2 * k + 1] else 0
    decreases |b| - i
  {
    if i < |b| {
      WordsAreBytePairs(b, i + 2);
      var rest := WordsFrom(b, i + 2, -1);
      forall k | 0 < k < (|b| + 1 - i) / 2
        ensures WordsFrom(b, i, -1)[k] == rest[k - 1]
      {
      }
    }
  }

  lemma {:induction false} WordSumBound(b: seq<u8>, i: nat, skip: int)
    requires i <= |b| + 1
    ensures WordSum(WordsFrom(b, i, skip)) <= 0x8000 * (|b| + 1 - i)
    decreases |b| - i
  {
    if i >= |b| {
    } else {
      WordSumBound(b, i + 2, skip);
      if i != skip {
        assert WordsFrom(b, i, skip)[1..] == WordsFrom(b, i + 2, skip);
      }
    }
  }

  lemma WordSumStep(b: seq<u8>, i: nat, skip: int)
    requires i < |b|
    ensures WordSum(WordsFrom(b, i, skip))
         == (if i == skip then 0 else WordAt(b, i)) + WordSum(WordsFrom(b, i + 2, skip))
  {
  }

  lemma PatchedWord(b: seq<u8>, i: nat, skip: nat, hi: u8, lo: u8)
    requires i < |b| && skip + 1 < |b| && i % 2 == skip % 2
    ensures WordAt(b[skip := hi][skip + 1 := lo], i) == if i == skip then hi * 0x100 + lo else WordAt(b, i)
  {
  }

  /** Writing a word at the skipped offset adds it to the sum. */
  lemma {:induction false} WordSumPatched(b: seq<u8>, i: nat, skip: nat, hi: u8, lo: u8)
    requires skip + 1 < |b| && i % 2 == skip % 2
    ensures var patched := b[skip := hi][skip + 1 := lo];
      WordSum(WordsFrom(patched, i, -1))
      == WordSum(WordsFrom(b, i, skip)) + if i <= skip then hi * 0x100 + lo else 0
    decreases |b| - i
  {
    var patched := b[skip := hi][skip + 1 := lo];
    if i >= |b| {
    } else {
      WordSumPatched(b, i + 2, skip, hi, lo);
      WordSumStep(patched, i, -1);
      WordSumStep(b, i, skip);
      PatchedWord(b, i, skip, hi, lo);
    }
  }
}
