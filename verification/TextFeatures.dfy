/**
 The text features of the threat classifier: every word of at least three characters raises one of
 44 buckets by a quarter, up to one.
 */
module TextFeatures {
  import opened Embedding
  import opened Numbers
  import opened Sums
  import opened Selections

  const FIRST := 20
  const BUCKETS := 44

  /** The characters kept by the classifier's word pattern; unlike the embedder it has no dot. */
  predicate IsFeatureChar(c: char) {
    'a' <= c <= 'z' || '0' <= c <= '9' || c == '_'
  }

  /** The hashed words of lower-cased text. */
  function FeatureWords(text: string): seq<string> {
    AtLeast(Pieces(text, IsFeatureChar), 3)
  }

  /** The words hashed: cut at every character but letters, digits and underscore, a run of those counts if
      it has at least three. */
  lemma FeatureWordsOnText(a: string, c: char, b: string, w: string)
    requires !('a' <= c <= 'z' || '0' <= c <= '9' || c == '_')
    requires forall i :: 0 <= i < |w| ==> 'a' <= w[i] <= 'z' || '0' <= w[i] <= '9' || w[i] == '_'
    ensures FeatureWords(a + [c] + b) == FeatureWords(a) + FeatureWords(b)
    ensures FeatureWords(w) == if |w| >= 3 then [w] else []
  {
    PiecesAtCut(a, c, b, IsFeatureChar);
    AtLeastConcat(Pieces(a, IsFeatureChar), Pieces(b, IsFeatureChar), 3);
    OnePiece(w, IsFeatureChar);
    assert AtLeast([w][1..], 3) == [];
  }

  function FeatureBucket(w: string): nat {
    FIRST + Hash(w, 31, |w|) % BUCKETS
  }

  /** How often a bucket is hit. */
  function Hits(words: seq<string>, b: nat): real {
    Total(words, w => if FeatureBucket(w) == b then 1.0 else 0.0)
  }

  /** A bucket after the words, without regard to their order: a quarter a word, at most one. */
  function Feature(words: seq<string>, b: nat): real {
    Min(1.0, 0.25 * Hits(words, b))
  }

  /** A feature is a quarter for each word in its bucket, at most one. Unlike the embedder's 64, the 44
      buckets do not divide the 31-bit cut, so the bucket is that of the hash after the cuts. */
  lemma FeatureOnWords(words: seq<string>, b: nat)
    ensures var n := Number(words, (w: string) => 20 + Hash(w, 31, |w|) % 44 == b);
            Feature(words, b) == if n < 4 then 0.25 * n as real else 1.0
  {
    HitsCounted(words, b, (w: string) => 20 + Hash(w, 31, |w|) % 44 == b);
    hide Number, Hits;
  }

  /** The hash of a word: its characters as digits in base 31, cut to 31 bits after each. */
  lemma HashOnCharacters(w: string, c: char)
    ensures Hash("", 31, 0) == 0
    ensures Hash(w + [c], 31, |w| + 1) == (Hash(w, 31, |w|) * 31 + c as nat) % 2147483648
  {
    SameHash(w, c, |w|);
  }

  lemma {:induction false} SameHash(w: string, c: char, n: nat)
    requires n <= |w|
    ensures Hash(w + [c], 31, n) == Hash(w, 31, n)
  {
    if n > 0 {
      SameHash(w, c, n - 1);
    }
  }

  lemma {:induction false} HitsCounted(words: seq<string>, b: nat, hit: string -> bool)
    requires forall w :: hit(w) <==> 20 + Hash(w, 31, |w|) % 44 == b
    ensures Hits(words, b) == Number(words, hit) as real
  {
    hide Number;
    if words == [] {
      NumberNone(words, hit);
    } else {
      var short, last := words[..|words| - 1], words[|words| - 1];
      HitsCounted(short, b, hit);
      NumberMore(short, last, hit);
      assert words == short + [last];
    }
  }

  lemma HitsNonNegative(words: seq<string>, b: nat)
    ensures Hits(words, b) >= 0.0
  {
    if words != [] {
      HitsNonNegative(words[..|words| - 1], b);
    }
  }

  /** Cutting off at one after every word gives the same as cutting off once at the end. */
  lemma SaturatesOnce(words: seq<string>, w: string, b: nat)
    ensures Feature(words + [w], b)
         == if FeatureBucket(w) == b then Min(1.0, Feature(words, b) + 0.25) else Feature(words, b)
  {
    assert (words + [w])[..|words|] == words;
  }

  /** The text features are between zero and one and do not depend on the order of the words. */
  lemma FeaturesIgnoreOrder(a: seq<string>, c: seq<string>, b: nat)
    requires multiset(a) == multiset(c)
    ensures Feature(a, b) == Feature(c, b) && 0.0 <= Feature(a, b) <= 1.0
  {
    TotalPermutes(a, c, w => if FeatureBucket(w) == b then 1.0 else 0.0);
    HitsNonNegative(a, b);
  }

  /** Adds the words of `text` to a vector whose text features are still zero. */
  method HashText(vec: array<real>, text: string)
    requires vec.Length == FIRST + BUCKETS
    requires forall b :: FIRST <= b < vec.Length ==> vec[b] == 0.0
    modifies vec
    ensures forall b :: 0 <= b < FIRST ==> vec[b] == old(vec[b])
    ensures forall b: nat :: FIRST <= b < vec.Length ==> vec[b] == Feature(FeatureWords(text), b)
  {
    var words := FeatureWords(text);
    for k := 0 to |words|
      invariant forall b :: 0 <= b < FIRST ==> vec[b] == old(vec[b])
      invariant forall b: nat :: FIRST <= b < vec.Length ==> vec[b] == Feature(words[..k], b)
    {
      var hash := RollingHash(words[k], 31);
      var bucket := FIRST + hash % BUCKETS;
      forall b: nat ensures Feature(words[..k + 1], b)
         == if FeatureBucket(words[k]) == b then Min(1.0, Feature(words[..k], b) + 0.25) else Feature(words[..k], b) {
        SaturatesOnce(words[..k], words[k], b);
        assert words[..k] + [words[k]] == words[..k + 1];
      }
      vec[bucket] := Min(1.0, vec[bucket] + 0.25);
    }
    assert words[..|words|] == words;
  }
}
