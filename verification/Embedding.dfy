/**
 The text embedder shared by the semantic cache and the retrieval engine: words are hashed into
 64 buckets, character trigrams add half weight, and the vector is divided by its norm.
 */
module Embedding {
  import opened Sums
  import opened Selections
  import opened Vectors

  const DIM := 64
  const MASK := 0x8000_0000

  // ----- words -----

  /** The characters kept by the word pattern. */
  predicate IsWordChar(c: char) {
    'a' <= c <= 'z' || '0' <= c <= '9' || c == '_' || c == '.'
  }

  /** The pieces between characters that are not word characters; some may be empty. */
  function Pieces(s: string, isWordChar: char -> bool): (r: seq<string>)
    ensures |r| >= 1
  {
    if s == "" then [""]
    else
      var rest := Pieces(s[1..], isWordChar);
      if isWordChar(s[0]) then [[s[0]] + rest[0]] + rest[1..] else [""] + rest
  }

  function AtLeast(pieces: seq<string>, n: nat): seq<string> {
    if pieces == [] then []
    else if |pieces[0]| >= n then [pieces[0]] + AtLeast(pieces[1..], n)
    else AtLeast(pieces[1..], n)
  }

  /** The words of lower-cased text. */
  function Words(text: string): seq<string> {
    AtLeast(Pieces(text, IsWordChar), 2)
  }

  /** A text is cut at every character that is no word character; what lies between is one piece. */
  lemma {:induction false} PiecesAtCut(a: string, c: char, b: string, isWordChar: char -> bool)
    requires !isWordChar(c)
    ensures Pieces(a + [c] + b, isWordChar) == Pieces(a, isWordChar) + Pieces(b, isWordChar)
  {
    var s := a + [c] + b;
    if a == "" {
      assert s[1..] == b;
    } else {
      assert s[1..] == a[1..] + [c] + b;
      PiecesAtCut(a[1..], c, b, isWordChar);
    }
  }

  lemma {:induction false} OnePiece(w: string, isWordChar: char -> bool)
    requires forall i :: 0 <= i < |w| ==> isWordChar(w[i])
    ensures Pieces(w, isWordChar) == [w]
  {
    if w != "" {
      OnePiece(w[1..], isWordChar);
      assert [w[0]] + w[1..] == w;
    }
  }

  lemma {:induction false} AtLeastConcat(a: seq<string>, b: seq<string>, n: nat)
    ensures AtLeast(a + b, n) == AtLeast(a, n) + AtLeast(b, n)
  {
    if a == [] {
      assert a + b == b;
    } else {
      assert (a + b)[1..] == a[1..] + b;
      AtLeastConcat(a[1..], b, n);
    }
  }

  /** The words of a text: cut at every character but letters, digits, underscore and dot, a run of those
      is a word if it has at least two. */
  lemma WordsOnText(a: string, c: char, b: string, w: string)
    requires !('a' <= c <= 'z' || '0' <= c <= '9' || c == '_' || c == '.')
    requires forall i :: 0 <= i < |w| ==> 'a' <= w[i] <= 'z' || '0' <= w[i] <= '9' || w[i] == '_' || w[i] == '.'
    ensures Words(a + [c] + b) == Words(a) + Words(b)
    ensures Words(w) == if |w| >= 2 then [w] else []
  {
    PiecesAtCut(a, c, b, IsWordChar);
    AtLeastConcat(Pieces(a, IsWordChar), Pieces(b, IsWordChar), 2);
    OnePiece(w, IsWordChar);
    assert AtLeast([w][1..], 2) == [];
  }

  // ----- hashing -----

  /** The rolling hash of the first `n` characters, cut to 31 bits after every step. */
  function Hash(w: string, base: nat, n: nat): nat
    requires n <= |w|
  {
    if n == 0 then 0 else (Hash(w, base, n - 1) * base + w[n - 1] as nat) % MASK
  }

  /** The same polynomial without the cuts. */
  function Polynomial(w: string, base: nat, n: nat): nat
    requires n <= |w|
  {
    if n == 0 then 0 else Polynomial(w, base, n - 1) * base + w[n - 1] as nat
  }

  lemma MaskKeepsBucket(x: nat)
    ensures (x % MASK) % DIM == x % DIM
  {
    var q, r := x / MASK, x % MASK;
    assert x == DIM * (q * (MASK / DIM)) + r;
    DropMultiple(q * (MASK / DIM), r);
  }

  lemma DropMultiple(k: int, y: int)
    ensures (DIM * k + y) % DIM == y % DIM
  {
  }

  lemma BucketStep(x: nat, y: nat, base: nat, c: nat)
    requires x % DIM == y % DIM
    ensures (x * base + c) % DIM == (y * base + c) % DIM
  {
    var k := x / DIM - y / DIM;
    assert x == DIM * k + y;
    assert x * base + c == DIM * (k * base) + (y * base + c);
    DropMultiple(k * base, y * base + c);
  }

  /** Cutting to 31 bits never changes the bucket. */
  lemma {:induction false} BucketIgnoresMask(w: string, base: nat, n: nat)
    requires n <= |w|
    ensures Hash(w, base, n) % DIM == Polynomial(w, base, n) % DIM
  {
    if n > 0 {
      BucketIgnoresMask(w, base, n - 1);
      MaskKeepsBucket(Hash(w, base, n - 1) * base + w[n - 1] as nat);
      BucketStep(Hash(w, base, n - 1), Polynomial(w, base, n - 1), base, w[n - 1] as nat);
    }
  }

  // ----- the accumulated vector -----

  function Bucket(w: string): nat {
    Hash(w, 31, |w|) % DIM
  }

  function TrigramBucket(w: string, i: nat): nat
    requires i + 3 <= |w|
  {
    Hash(w[i..i + 3], 37, 3) % DIM
  }

  /** What the first `n` trigrams of a word add to bucket `b`. */
  function Trigrams(w: string, b: nat, n: nat): real
    requires n == 0 || n + 2 <= |w|
  {
    if n == 0 then 0.0
    else Trigrams(w, b, n - 1) + (if TrigramBucket(w, n - 1) == b then 0.5 else 0.0)
  }

  /** What one word adds to bucket `b`. */
  function WordWeight(w: string, b: nat): real {
    (if Bucket(w) == b then 1.0 else 0.0) + (if |w| >= 3 then Trigrams(w, b, |w| - 2) else 0.0)
  }

  /** The bucket of a word is that of its characters as digits in base 31, one appended at a time. */
  lemma BucketOnCharacters(w: string, c: char)
    ensures Bucket("") == 0 && Bucket(w + [c]) == (Bucket(w) * 31 + c as nat) % 64
  {
    BucketIgnoresMask(w, 31, |w|);
    BucketIgnoresMask(w + [c], 31, |w| + 1);
    SamePolynomial(w, c, 31, |w|);
    BucketStep(Polynomial(w, 31, |w|), Bucket(w), 31, c as nat);
    hide Bucket;
  }

  lemma {:induction false} SamePolynomial(w: string, c: char, base: nat, n: nat)
    requires n <= |w|
    ensures Polynomial(w + [c], base, n) == Polynomial(w, base, n)
  {
    if n > 0 {
      SamePolynomial(w, c, base, n - 1);
    }
  }

  /** The start of a trigram that falls into bucket `b`: three characters as digits in base 37. */
  predicate TrigramAt(w: string, b: nat, i: nat) {
    i + 3 <= |w| && ((w[i] as nat * 37 + w[i + 1] as nat) * 37 + w[i + 2] as nat) % 64 == b
  }

  ghost function TrigramsAt(w: string, b: nat, n: nat): set<nat> {
    set i: nat | i < n && TrigramAt(w, b, i)
  }

  lemma TrigramOnCharacters(w: string, i: nat)
    requires i + 3 <= |w|
    ensures TrigramBucket(w, i) == ((w[i] as nat * 37 + w[i + 1] as nat) * 37 + w[i + 2] as nat) % 64
  {
    var t := w[i..i + 3];
    BucketIgnoresMask(t, 37, 3);
    assert Polynomial(t, 37, 1) == w[i] as nat;
    assert Polynomial(t, 37, 2) == w[i] as nat * 37 + w[i + 1] as nat;
  }

  lemma {:induction false} TrigramsCounted(w: string, b: nat, n: nat)
    requires n == 0 || n + 2 <= |w|
    ensures Trigrams(w, b, n) == 0.5 * |TrigramsAt(w, b, n)| as real
  {
    if n == 0 {
      assert TrigramsAt(w, b, n) == {};
    } else {
      TrigramsCounted(w, b, n - 1);
      TrigramIff(w, b, n - 1);
      OneMoreTrigram(w, b, n);
      hide TrigramBucket, TrigramAt, TrigramsAt;
    }
  }

  lemma TrigramIff(w: string, b: nat, i: nat)
    requires i + 3 <= |w|
    ensures TrigramAt(w, b, i) <==> TrigramBucket(w, i) == b
  {
    TrigramOnCharacters(w, i);
    hide TrigramBucket;
  }

  lemma OneMoreTrigram(w: string, b: nat, n: nat)
    requires n > 0
    ensures |TrigramsAt(w, b, n)| == |TrigramsAt(w, b, n - 1)| + if TrigramAt(w, b, n - 1) then 1 else 0
  {
    hide TrigramAt;
    assert TrigramsAt(w, b, n) == TrigramsAt(w, b, n - 1) + if TrigramAt(w, b, n - 1) then {n - 1} else {};
  }

  /** What a word adds to a bucket: one if it falls there itself, and a half for each of its trigrams that
      does. */
  lemma WordWeightOnCharacters(w: string, b: nat)
    ensures WordWeight(w, b) == (if Bucket(w) == b then 1.0 else 0.0) + 0.5 * |TrigramsAt(w, b, |w|)| as real
  {
    hide Bucket;
    if |w| >= 3 {
      TrigramsCounted(w, b, |w| - 2);
      assert TrigramsAt(w, b, |w| - 2) == TrigramsAt(w, b, |w|);
    } else {
      assert TrigramsAt(w, b, |w|) == {};
    }
  }

  function Weight(words: seq<string>, b: nat): real {
    Total(words, w => WordWeight(w, b))
  }

  function Counts(words: seq<string>): seq<real> {
    seq(DIM, b requires 0 <= b < DIM => Weight(words, b))
  }

  function Embed(words: seq<string>, sqrt: real -> real): seq<real> {
    Normalize(Counts(words), sqrt)
  }

  /** The embedding depends only on which words occur how often, not on their order. */
  lemma EmbeddingIgnoresOrder(a: seq<string>, c: seq<string>, sqrt: real -> real)
    requires multiset(a) == multiset(c)
    ensures Embed(a, sqrt) == Embed(c, sqrt)
  {
    forall b | 0 <= b < DIM ensures Counts(a)[b] == Counts(c)[b] {
      TotalPermutes(a, c, w => WordWeight(w, b));
    }
    assert Counts(a) == Counts(c);
  }

  lemma {:induction false} TrigramsNonNegative(w: string, b: nat, n: nat)
    requires n == 0 || n + 2 <= |w|
    ensures Trigrams(w, b, n) >= 0.0
  {
    if n > 0 {
      TrigramsNonNegative(w, b, n - 1);
    }
  }

  lemma {:induction false} WeightNonNegative(words: seq<string>, b: nat)
    ensures Weight(words, b) >= 0.0
    ensures words != [] && Bucket(words[|words| - 1]) == b ==> Weight(words, b) >= 1.0
  {
    if words != [] {
      WeightNonNegative(words[..|words| - 1], b);
      var w := words[|words| - 1];
      if |w| >= 3 {
        TrigramsNonNegative(w, b, |w| - 2);
      }
    }
  }

  /** Every embedding is non-negative, of norm one unless there are no words, and then zero. */
  lemma EmbeddingIsUnit(words: seq<string>, sqrt: real -> real)
    requires IsSqrt(sqrt)
    ensures |Embed(words, sqrt)| == DIM && UnitOrZero(Embed(words, sqrt))
    ensures Zero(Embed(words, sqrt)) <==> words == []
  {
    var counts := Counts(words);
    forall b | 0 <= b < DIM ensures counts[b] >= 0.0 {
      WeightNonNegative(words, b);
    }
    NormalizeIsUnit(counts, sqrt);
    if words != [] {
      var b := Bucket(words[|words| - 1]);
      WeightNonNegative(words, b);
      assert counts[b] != 0.0;
    }
  }

  // ----- the embedder -----

  method RollingHash(w: string, base: nat) returns (h: nat)
    ensures h == Hash(w, base, |w|)
    ensures h % DIM == Polynomial(w, base, |w|) % DIM
  {
    h := 0;
    for i := 0 to |w|
      invariant h == Hash(w, base, i)
    {
      h := (h * base + w[i] as nat) % MASK;
    }
    BucketIgnoresMask(w, base, |w|);
  }

  /** One word: one for the word, a half for each of its trigrams. */
  method AddWord(vec: array<real>, word: string)
    requires vec.Length == DIM
    modifies vec
    ensures forall b: nat :: b < DIM ==> vec[b] == old(vec[b]) + WordWeight(word, b)
  {
    var h1 := RollingHash(word, 31);
    vec[h1 % DIM] := vec[h1 % DIM] + 1.0;
    if |word| >= 3 {
      var i := 0;
      while i < |word| - 2
        invariant 0 <= i <= |word| - 2
        invariant forall b: nat :: b < DIM ==>
                    vec[b] == old(vec[b]) + (if Bucket(word) == b then 1.0 else 0.0) + Trigrams(word, b, i)
      {
        var h2 := RollingHash(word[i..i + 3], 37);
        vec[h2 % DIM] := vec[h2 % DIM] + 0.5;
        i := i + 1;
      }
    }
  }

  /** Division by the norm, in place. */
  method NormalizeInPlace(vec: array<real>, sqrt: real -> real)
    modifies vec
    ensures vec[..] == Normalize(old(vec[..]), sqrt)
  {
    ghost var counts := vec[..];
    var norm := 0.0;
    for i := 0 to vec.Length
      invariant norm == DotTo(counts, counts, i) && vec[..] == counts
    {
      norm := norm + vec[i] * vec[i];
    }
    norm := sqrt(norm);
    if norm > 0.0 {
      var inv := 1.0 / norm;
      for i := 0 to vec.Length
        invariant forall b :: 0 <= b < vec.Length ==> vec[b] == if b < i then counts[b] * inv else counts[b]
      {
        vec[i] := vec[i] * inv;
      }
      ghost var scaled := Scale(counts, inv);
      assert forall b :: 0 <= b < vec.Length ==> vec[b] == scaled[b];
      assert vec[..] == scaled;
    }
  }

  method EmbedText(text: string, sqrt: real -> real) returns (vec: array<real>)
    ensures fresh(vec) && vec[..] == Embed(Words(text), sqrt)
  {
    vec := new real[DIM](i => 0.0);
    var words := Words(text);
    for k := 0 to |words|
      invariant forall b: nat :: b < DIM ==> vec[b] == Weight(words[..k], b)
    {
      assert words[..k + 1][..k] == words[..k];
      AddWord(vec, words[k]);
    }
    assert words[..|words|] == words;
    assert vec[..] == Counts(words);
    NormalizeInPlace(vec, sqrt);
  }
}
