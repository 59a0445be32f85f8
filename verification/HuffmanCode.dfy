/** Huffman code words as bit strings, and what the codec requires of a table of them. */
module HuffmanCode {
  import opened Bytes
  import opened BitStrings

  /** The end-of-string symbol. */
  const EOS: nat := 256

  /** The length of a code word and the word itself, left-justified in 32 bits. */
  datatype HuffmanSym = HuffmanSym(bits: nat, code: nat)

  function WordOf(h: HuffmanSym): (w: bits)
    ensures |w| == h.bits
  {
    ToBits(Shr(h.code, if h.bits <= 32 then 32 - h.bits else 0), h.bits)
  }

  predicate LeftJustified(h: HuffmanSym) {
    h.bits <= 32 && h.code == Value(WordOf(h)) * Pow2(32 - h.bits)
  }

  predicate StartsWith(s: bits, h: HuffmanSym) {
    WordOf(h) <= s
  }

  ghost predicate PrefixFree(t: seq<HuffmanSym>) {
    forall a, b, s :: 0 <= a < |t| && 0 <= b < |t| && StartsWith(s, t[a]) && StartsWith(s, t[b]) ==> a == b
  }

  predicate LongEnough(s: bits) {
    |s| >= 30
  }

  /** Thirty bits always start with a code word. */
  ghost predicate Complete(t: seq<HuffmanSym>) {
    forall s :: LongEnough(s) ==> exists sym :: 0 <= sym < |t| && StartsWith(s, t[sym])
  }

  ghost predicate GoodTable(t: seq<HuffmanSym>) {
    && |t| == EOS + 1
    && (forall sym :: 0 <= sym < |t| ==> 5 <= t[sym].bits <= 30 && LeftJustified(t[sym]))
    && PrefixFree(t)
    && Complete(t)
    && WordOf(t[EOS]) == Ones(30)
  }

  lemma OnesExtend(k: nat, h: HuffmanSym)
    requires k <= 30 && StartsWith(Ones(k), h)
    ensures StartsWith(Ones(30), h)
  {
    assert Ones(30) == Ones(k) + Ones(30 - k);
  }

  /** The end-of-string symbol is thirty ones, so padding never starts a code word. */
  lemma PaddingStartsNothing(t: seq<HuffmanSym>, sym: nat, k: nat)
    requires GoodTable(t) && sym <= EOS && k <= 7
    ensures !StartsWith(Ones(k), t[sym])
  {
    assert StartsWith(Ones(30), t[EOS]);
    if StartsWith(Ones(k), t[sym]) {
      OnesExtend(k, t[sym]);
    }
  }
}
