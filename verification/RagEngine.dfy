/**
 The retrieval engine: documents are embedded when indexed; a search scores every document by
 embedding similarity and by keyword overlap, and returns the best ones.
 */
module RagEngine {
  import opened Text
  import opened Numbers
  import opened Vectors
  import opened Embedding
  import opened Sorting
  import opened Selections
  import SemanticCache

  datatype Chunk = Chunk(
    id: string,
    title: string,
    content: string,
    commands: seq<string>,
    tags: seq<string>,
    embedding: Option<seq<real>>)

  datatype Scored = Scored(chunk: Chunk, dense: real, sparse: real, combined: real)

  /** `source` is the document the answer is written from. */
  datatype Response =
    Response(retrieved: seq<Scored>, source: Option<Chunk>, commands: seq<string>, confidence: real)

  function JoinSpaces(parts: seq<string>): string {
    if |parts| == 0 then "" else if |parts| == 1 then parts[0] else parts[0] + " " + JoinSpaces(parts[1..])
  }

  /** The text that is embedded, and the text that is searched for keywords. */
  function IndexedText(c: Chunk): string {
    c.title + ". " + c.content + " Tags: " + JoinSpaces(c.tags)
  }

  /** What is embedded for a chunk that was stored without an embedding. */
  function PlainText(c: Chunk): string {
    c.title + " " + c.content
  }

  function KeywordText(c: Chunk): string {
    c.title + " " + c.content + " " + JoinSpaces(c.tags)
  }

  lemma IncludedAt(front: string, part: string, back: string)
    ensures Includes(front + part + back, part)
  {
    var text, i := front + part + back, |front|;
    assert text[i..i + |part|] == part;
    assert OccursAt(text, part, i);
  }

  lemma {:induction false} JoinedParts(parts: seq<string>, part: string) returns (front: string, back: string)
    requires part in parts
    ensures JoinSpaces(parts) == front + part + back
  {
    if parts[0] == part {
      front, back := "", if |parts| == 1 then "" else " " + JoinSpaces(parts[1..]);
    } else {
      front, back := JoinedParts(parts[1..], part);
      front := parts[0] + " " + front;
    }
  }

  /** Title, content and every tag are in the text that is embedded and in the text searched for keywords;
      a chunk stored without an embedding is compared by title and content. */
  lemma TextsHoldParts(c: Chunk)
    ensures Includes(IndexedText(c), c.title) && Includes(IndexedText(c), c.content)
    ensures Includes(KeywordText(c), c.title) && Includes(KeywordText(c), c.content)
    ensures forall t :: t in c.tags ==> Includes(IndexedText(c), t) && Includes(KeywordText(c), t)
    ensures Includes(PlainText(c), c.title) && Includes(PlainText(c), c.content)
  {
    hide Includes;
    var tags := JoinSpaces(c.tags);
    IncludedAt("", c.title, ". " + c.content + " Tags: " + tags);
    assert IndexedText(c) == "" + c.title + (". " + c.content + " Tags: " + tags);
    IncludedAt(c.title + ". ", c.content, " Tags: " + tags);
    assert IndexedText(c) == c.title + ". " + c.content + (" Tags: " + tags);
    IncludedAt("", c.title, " " + c.content + " " + tags);
    assert KeywordText(c) == "" + c.title + (" " + c.content + " " + tags);
    IncludedAt(c.title + " ", c.content, " " + tags);
    assert KeywordText(c) == c.title + " " + c.content + (" " + tags);
    IncludedAt("", c.title, " " + c.content);
    assert PlainText(c) == "" + c.title + (" " + c.content);
    IncludedAt(c.title + " ", c.content, "");
    assert PlainText(c) == c.title + " " + c.content + "";
    forall t | t in c.tags ensures Includes(IndexedText(c), t) && Includes(KeywordText(c), t) {
      TagIncluded(c, t);
    }
  }

  lemma TagIncluded(c: Chunk, t: string)
    requires t in c.tags
    ensures Includes(IndexedText(c), t) && Includes(KeywordText(c), t)
  {
    var front, back := JoinedParts(c.tags, t);
    hide Includes, JoinSpaces;
    IncludedBehind(c.title + ". " + c.content + " Tags: ", front, t, back);
    IncludedBehind(c.title + " " + c.content + " ", front, t, back);
  }

  lemma IncludedBehind(head: string, front: string, part: string, back: string)
    ensures Includes(head + (front + part + back), part)
  {
    IncludedAt(head + front, part, back);
    hide Includes;
    assert head + (front + part + back) == head + front + part + back;
  }

  // ----- first occurrences -----

  /** The different elements, each where it first occurs. */
  function Distinct(xs: seq<string>): seq<string> {
    if xs == [] then []
    else
      var rest, x := Distinct(xs[..|xs| - 1]), xs[|xs| - 1];
      if x in rest then rest else rest + [x]
  }

  lemma {:induction false} DistinctIsSet(xs: seq<string>)
    ensures forall x :: x in Distinct(xs) <==> x in xs
    ensures forall i, j :: 0 <= i < j < |Distinct(xs)| ==> Distinct(xs)[i] != Distinct(xs)[j]
  {
    if xs != [] {
      DistinctIsSet(xs[..|xs| - 1]);
      assert xs == xs[..|xs| - 1] + [xs[|xs| - 1]];
    }
  }

  lemma {:induction false} DistinctInOrder(xs: seq<string>)
    ensures FirstOccurrences(xs, Distinct(xs))
  {
    hide FirstOccurrences;
    if xs == [] {
      FirstsNone(xs);
    } else {
      var n := |xs| - 1;
      DistinctInOrder(xs[..n]);
      DistinctIsSet(xs[..n]);
      FirstsMore(xs[..n], xs[n], Distinct(xs[..n]));
      assert xs == xs[..n] + [xs[n]];
    }
  }

  // ----- keyword overlap -----

  predicate OccursAt(text: string, part: string, i: int) {
    0 <= i <= |text| - |part| && text[i..i + |part|] == part
  }

  /** `text.includes(part)`. */
  predicate Includes(text: string, part: string) {
    exists i :: 0 <= i <= |text| - |part| && OccursAt(text, part, i)
  }

  function Tokens(query: string): seq<string> {
    Distinct(AtLeast(Pieces(query, IsWordChar), 3))
  }

  /** The tokens of a query: cut like the words embedded, but a run counts if it has at least three. */
  lemma TokensOnText(a: string, c: char, b: string, w: string)
    requires !('a' <= c <= 'z' || '0' <= c <= '9' || c == '_' || c == '.')
    requires forall i :: 0 <= i < |w| ==> 'a' <= w[i] <= 'z' || '0' <= w[i] <= '9' || w[i] == '_' || w[i] == '.'
    ensures forall t :: t in Tokens(a + [c] + b) <==> t in Tokens(a) || t in Tokens(b)
    ensures Tokens(w) == if |w| >= 3 then [w] else []
    ensures forall i, j :: 0 <= i < j < |Tokens(a)| ==> Tokens(a)[i] != Tokens(a)[j]
  {
    var left, right := Pieces(a, IsWordChar), Pieces(b, IsWordChar);
    PiecesAtCut(a, c, b, IsWordChar);
    AtLeastConcat(left, right, 3);
    DistinctIsSet(AtLeast(left, 3) + AtLeast(right, 3));
    DistinctIsSet(AtLeast(left, 3));
    DistinctIsSet(AtLeast(right, 3));
    OnePiece(w, IsWordChar);
    OnlyToken(w);
    hide Pieces, AtLeast, Distinct;
  }

  lemma OnlyToken(w: string)
    ensures Distinct(AtLeast([w], 3)) == if |w| >= 3 then [w] else []
  {
    assert AtLeast([w][1..], 3) == [];
    assert Distinct([w][..0]) == [];
  }

  function HitsIn(tokens: seq<string>, doc: string): (n: nat)
    ensures n <= |tokens|
    ensures n == |tokens| <==> forall t :: t in tokens ==> Includes(doc, t)
    ensures n == 0 <==> forall t :: t in tokens ==> !Includes(doc, t)
  {
    if tokens == [] then 0
    else
      var rest, t := tokens[..|tokens| - 1], tokens[|tokens| - 1];
      assert tokens == rest + [t];
      HitsIn(rest, doc) + (if Includes(doc, t) then 1 else 0)
  }

  /** The share of the tokens that occur in the text; 0 without tokens. */
  function Sparse(tokens: seq<string>, doc: string): real {
    if tokens == [] then 0.0 else Min(1.0, HitsIn(tokens, doc) as real / |tokens| as real)
  }

  lemma SparseRange(tokens: seq<string>, doc: string)
    ensures 0.0 <= Sparse(tokens, doc) <= 1.0
    ensures Sparse(tokens, doc) == 1.0 <==> tokens != [] && forall t :: t in tokens ==> Includes(doc, t)
    ensures Sparse(tokens, doc) == 0.0 <==> forall t :: t in tokens ==> !Includes(doc, t)
  {
    hide Includes;
    if tokens != [] {
      assert tokens[0] in tokens;
      Share(HitsIn(tokens, doc), |tokens|);
    }
  }

  lemma Share(part: nat, whole: nat)
    requires part <= whole && whole > 0
    ensures var share := Min(1.0, part as real / whole as real);
            0.0 <= share <= 1.0 && (share == 1.0 <==> part == whole) && (share == 0.0 <==> part == 0)
  {
    RateRange(part, whole);
    assert part as real / whole as real * whole as real == part as real;
  }

  // ----- ranking -----

  /** A chunk with the vector it is compared by. */
  datatype Document = Document(chunk: Chunk, vector: seq<real>)

  function Mix(w: real, x: real, y: real): real {
    w * x + (1.0 - w) * y
  }

  function ScoreOf(d: Document, q: seq<real>, tokens: seq<string>, lower: string -> string, denseWeight: real): Scored
    requires |q| == DIM && |d.vector| == DIM
  {
    var dense := SemanticCache.Similarity(q, d.vector);
    var sparse := Sparse(tokens, lower(KeywordText(d.chunk)));
    Scored(d.chunk, Round3(dense), Round3(sparse), Round3(Mix(denseWeight, dense, sparse)))
  }

  /** `shown` is the number of thousandths nearest to `exact`. */
  ghost predicate Thousandths(shown: real, exact: real) {
    shown - 0.0005 <= exact < shown + 0.0005
  }

  lemma {:induction false} HitsAreNumbered(tokens: seq<string>, doc: string, included: string -> bool)
    requires forall t :: included(t) <==> Includes(doc, t)
    ensures HitsIn(tokens, doc) == Number(tokens, included)
  {
    hide Number, Includes;
    if tokens == [] {
      NumberNone(tokens, included);
    } else {
      var n := |tokens| - 1;
      HitsAreNumbered(tokens[..n], doc, included);
      NumberMore(tokens[..n], tokens[n], included);
      assert tokens == tokens[..n] + [tokens[n]];
    }
  }

  /** The scores of a document, to the thousandth: the dot product of the vectors cut off at 0 and 1, the
      share of the tokens that occur in the lower-cased text, and the two weighted, the first with the
      weight given and the second with the rest. */
  lemma ScoreOnInputs(d: Document, q: seq<real>, tokens: seq<string>, lower: string -> string, denseWeight: real)
    returns (dense: real, sparse: real)
    requires |q| == DIM && |d.vector| == DIM
    ensures var s, dot := ScoreOf(d, q, tokens, lower, denseWeight), Dot(q, d.vector);
            && dense == (if dot < 0.0 then 0.0 else if dot > 1.0 then 1.0 else dot)
            && Times(sparse, |tokens| as real) == Number(tokens, t => Includes(lower(KeywordText(d.chunk)), t)) as real
            && (tokens == [] ==> sparse == 0.0)
            && s.chunk == d.chunk && Thousandths(s.dense, dense) && Thousandths(s.sparse, sparse)
            && Thousandths(s.combined, Times(denseWeight, dense) + Times(1.0 - denseWeight, sparse))
  {
    hide *;
    var doc := lower(KeywordText(d.chunk));
    dense, sparse := SemanticCache.Similarity(q, d.vector), Sparse(tokens, doc);
    SemanticCache.SimilarityIsCosine(q, d.vector);
    SparseOnTokens(tokens, doc);
    CosineOnVectors(q, d.vector);
    ScoreParts(d, q, tokens, lower, denseWeight, dense, sparse);
  }

  lemma ScoreParts(d: Document, q: seq<real>, tokens: seq<string>, lower: string -> string, denseWeight: real,
                   dense: real, sparse: real)
    requires |q| == DIM && |d.vector| == DIM && dense == SemanticCache.Similarity(q, d.vector)
    requires sparse == Sparse(tokens, lower(KeywordText(d.chunk)))
    ensures var s := ScoreOf(d, q, tokens, lower, denseWeight);
            && s.chunk == d.chunk && Thousandths(s.dense, dense) && Thousandths(s.sparse, sparse)
            && Thousandths(s.combined, Times(denseWeight, dense) + Times(1.0 - denseWeight, sparse))
  {
    assert ScoreOf(d, q, tokens, lower, denseWeight) ==
           Scored(d.chunk, Round3(dense), Round3(sparse), Round3(Mix(denseWeight, dense, sparse))) by {
      hide Round3, Mix, Sparse, SemanticCache.Similarity, KeywordText;
    }
    hide *;
    MixIs(denseWeight, dense, sparse);
    RoundedThousandths(dense);
    RoundedThousandths(sparse);
    RoundedThousandths(Mix(denseWeight, dense, sparse));
  }

  lemma MixIs(w: real, x: real, y: real)
    ensures Mix(w, x, y) == Times(w, x) + Times(1.0 - w, y)
  {
  }

  lemma CosineOnVectors(a: seq<real>, b: seq<real>)
    requires |a| == |b|
    ensures var dot := Dot(a, b);
            SemanticCache.Cosine(a, b) == if dot < 0.0 then 0.0 else if dot > 1.0 then 1.0 else dot
  {
  }

  lemma SparseOnTokens(tokens: seq<string>, doc: string)
    ensures Times(Sparse(tokens, doc), |tokens| as real) == Number(tokens, t => Includes(doc, t)) as real
    ensures tokens == [] ==> Sparse(tokens, doc) == 0.0
  {
    HitsAreNumbered(tokens, doc, t => Includes(doc, t));
    SparseTimes(tokens, doc);
    hide *;
  }

  lemma SparseTimes(tokens: seq<string>, doc: string)
    ensures Times(Sparse(tokens, doc), |tokens| as real) == HitsIn(tokens, doc) as real
    ensures tokens == [] ==> Sparse(tokens, doc) == 0.0
  {
    var hits := HitsIn(tokens, doc);
    hide HitsIn;
    if tokens != [] {
      ShareTimes(hits, |tokens|);
      hide Min;
    } else {
      assert hits == 0;
    }
  }

  lemma ShareTimes(part: nat, whole: nat)
    requires part <= whole && whole > 0
    ensures Min(1.0, part as real / whole as real) * whole as real == part as real
  {
    RateRange(part, whole);
    assert part as real / whole as real * whole as real == part as real;
  }

  lemma RoundedThousandths(x: real)
    ensures Thousandths(Round3(x), x)
  {
  }

  ghost predicate Embedded(docs: seq<Document>) {
    forall i :: 0 <= i < |docs| ==> |docs[i].vector| == DIM
  }

  ghost function Scores(docs: seq<Document>, q: seq<real>, tokens: seq<string>, lower: string -> string,
                        denseWeight: real): (r: seq<Scored>)
    requires |q| == DIM && Embedded(docs)
    ensures |r| == |docs|
  {
    seq(|docs|, i requires 0 <= i < |docs| => ScoreOf(docs[i], q, tokens, lower, denseWeight))
  }

  function Combined(s: Scored): real {
    s.combined
  }

  /** `xs.slice(0, k)`: a negative `k` counts from the end. */
  function Slice<T>(xs: seq<T>, k: int): seq<T> {
    if k >= 0 then xs[..if k < |xs| then k else |xs|]
    else if |xs| + k > 0 then xs[..|xs| + k] else []
  }

  /** At most `k` from the front; with a negative `k`, all but that many at the end. */
  lemma SliceIsPrefix<T>(xs: seq<T>, k: int)
    ensures Slice(xs, k) <= xs
    ensures k >= |xs| ==> Slice(xs, k) == xs
    ensures 0 <= k <= |xs| ==> |Slice(xs, k)| == k
    ensures k < 0 ==> |Slice(xs, k)| == if |xs| + k > 0 then |xs| + k else 0
  {
  }

  ghost function Ranked(docs: seq<Document>, q: seq<real>, tokens: seq<string>, lower: string -> string,
                        denseWeight: real, topK: int): seq<Scored>
    requires |q| == DIM && Embedded(docs)
  {
    Slice(SortDescending(Scores(docs, q, tokens, lower, denseWeight), Combined), topK)
  }

  /** A search returns the best-scored chunks in descending order; nothing left out scores higher
      than anything returned, and equal scores keep the order in which chunks were indexed. */
  lemma SearchReturnsTheBest(docs: seq<Document>, q: seq<real>, tokens: seq<string>, lower: string -> string,
                             denseWeight: real, topK: nat)
    requires |q| == DIM && Embedded(docs)
    ensures var found := Ranked(docs, q, tokens, lower, denseWeight, topK);
            var all := Scores(docs, q, tokens, lower, denseWeight);
            && |found| == (if topK < |docs| then topK else |docs|)
            && exists rest :: RestOf(found, rest, all)
  {
    hide Embedded, Combined;
    var all := Scores(docs, q, tokens, lower, denseWeight);
    var rest := Beaten(all, Combined, topK);
    assert RestOf(Ranked(docs, q, tokens, lower, denseWeight, topK), rest, all);
  }

  /** All of `all`, ranked, with the found ones first. */
  ghost predicate RestOf(found: seq<Scored>, rest: seq<Scored>, all: seq<Scored>) {
    && multiset(found + rest) == multiset(all)
    && Descending(found + rest, Combined)
    && forall v :: Ties(found + rest, Combined, v) == Ties(all, Combined, v)
  }

  lemma Beaten<T>(all: seq<T>, key: T -> real, topK: nat) returns (rest: seq<T>)
    ensures var found := Slice(SortDescending(all, key), topK);
            && |found| == (if topK < |all| then topK else |all|)
            && multiset(found + rest) == multiset(all)
            && Descending(found + rest, key)
            && forall v :: Ties(found + rest, key, v) == Ties(all, key, v)
  {
    var sorted := SortDescending(all, key);
    SortIsStable(all, key);
    hide SortDescending, Descending, Ties;
    var found := Slice(sorted, topK);
    rest := sorted[|found|..];
    assert sorted == found + rest;
  }

  /** With a weight between 0 and 1 the combined score is between 0 and 1. */
  lemma CombinedRange(d: Document, q: seq<real>, tokens: seq<string>, lower: string -> string, denseWeight: real)
    requires |q| == DIM && |d.vector| == DIM && 0.0 <= denseWeight <= 1.0
    ensures 0.0 <= ScoreOf(d, q, tokens, lower, denseWeight).combined <= 1.0
  {
    hide Sparse;
    var dense, sparse := SemanticCache.Similarity(q, d.vector), Sparse(tokens, lower(KeywordText(d.chunk)));
    SparseRange(tokens, lower(KeywordText(d.chunk)));
    Mixture(denseWeight, dense, sparse);
    var combined := Mix(denseWeight, dense, sparse);
    Round3Monotone(0.0, combined);
    Round3Monotone(combined, 1.0);
  }

  lemma Mixture(w: real, x: real, y: real)
    requires 0.0 <= w <= 1.0 && 0.0 <= x <= 1.0 && 0.0 <= y <= 1.0
    ensures 0.0 <= Mix(w, x, y) <= 1.0
  {
    assert 0.0 <= w * x <= w;
    assert 0.0 <= (1.0 - w) * y <= 1.0 - w;
  }

  /** Searching for the very text that was indexed gives full dense similarity, and only the same
      embedding does. */
  lemma OwnTextIsNearest(d: Document, other: Document, sqrt: real -> real, normalize: string -> string)
    requires IsSqrt(sqrt) && Words(normalize(IndexedText(d.chunk))) != []
    requires d.vector == Embed(Words(normalize(IndexedText(d.chunk))), sqrt)
    requires |other.vector| == DIM && UnitOrZero(other.vector)
    ensures |d.vector| == DIM && SemanticCache.Similarity(d.vector, d.vector) == 1.0
    ensures SemanticCache.Similarity(d.vector, other.vector) == 1.0 <==> other.vector == d.vector
  {
    EmbeddingIsUnit(Words(normalize(IndexedText(d.chunk))), sqrt);
    SemanticCache.SimilarityRange(d.vector, d.vector);
    SemanticCache.SimilarityRange(d.vector, other.vector);
  }

  /** Searching for the text of an indexed document always ranks something first that scores at
      least the dense weight. */
  lemma IndexedTextIsAnswered(docs: seq<Document>, i: nat, tokens: seq<string>, lower: string -> string,
                              denseWeight: real, topK: nat)
    requires Embedded(docs) && i < |docs| && UnitOrZero(docs[i].vector) && !Zero(docs[i].vector)
    requires 0.0 <= denseWeight <= 1.0 && topK > 0
    ensures var found := Ranked(docs, docs[i].vector, tokens, lower, denseWeight, topK);
            found != [] && found[0].combined >= Round3(denseWeight)
  {
    var q := docs[i].vector;
    var all := Scores(docs, q, tokens, lower, denseWeight);
    OwnScore(docs[i], tokens, lower, denseWeight);
    assert all[i].combined >= Round3(denseWeight);
    SortIsStable(all, Combined);
    hide SortDescending, Embedded, Ties, Scores;
    FirstIsLargest(SortDescending(all, Combined), all, Combined, i);
  }

  lemma OwnScore(d: Document, tokens: seq<string>, lower: string -> string, denseWeight: real)
    requires |d.vector| == DIM && UnitOrZero(d.vector) && !Zero(d.vector) && 0.0 <= denseWeight <= 1.0
    ensures ScoreOf(d, d.vector, tokens, lower, denseWeight).combined >= Round3(denseWeight)
  {
    hide Sparse, UnitOrZero;
    SemanticCache.SimilarityRange(d.vector, d.vector);
    SparseRange(tokens, lower(KeywordText(d.chunk)));
    MixAbove(denseWeight, Sparse(tokens, lower(KeywordText(d.chunk))));
    Round3Monotone(denseWeight, Mix(denseWeight, 1.0, Sparse(tokens, lower(KeywordText(d.chunk)))));
  }

  lemma MixAbove(w: real, y: real)
    requires w <= 1.0 && y >= 0.0
    ensures Mix(w, 1.0, y) >= w
  {
    assert (1.0 - w) * y >= 0.0;
  }

  lemma FirstIsLargest<T>(sorted: seq<T>, all: seq<T>, key: T -> real, i: nat)
    requires Descending(sorted, key) && multiset(sorted) == multiset(all) && i < |all|
    ensures sorted != [] && key(sorted[0]) >= key(all[i])
  {
    assert all[i] in multiset(sorted);
    var k :| 0 <= k < |sorted| && sorted[k] == all[i];
  }

  // ----- the answer -----

  /** The results of at least the minimum confidence. */
  function Relevant(found: seq<Scored>, minConf: real): seq<Scored> {
    if found == [] then []
    else
      Relevant(found[..|found| - 1], minConf) +
      (if found[|found| - 1].combined >= minConf then [found[|found| - 1]] else [])
  }

  function CommandsOf(results: seq<Scored>): seq<string> {
    if results == [] then [] else CommandsOf(results[..|results| - 1]) + results[|results| - 1].chunk.commands
  }

  /** The commands of the results, one list behind the other. */
  lemma {:induction false} CommandsOnResults(results: seq<Scored>, r: Scored)
    ensures CommandsOf(results + [r]) == CommandsOf(results) + r.chunk.commands && CommandsOf([]) == []
    ensures forall c :: c in CommandsOf(results) <==> exists s :: s in results && c in s.chunk.commands
  {
    assert (results + [r])[..|results|] == results;
    if results != [] {
      var short, last := results[..|results| - 1], results[|results| - 1];
      CommandsOnResults(short, last);
      assert results == short + [last];
      hide CommandsOf;
    }
  }

  /** Cut where the confidence falls below the minimum. */
  ghost predicate IsCut(found: seq<Scored>, kept: seq<Scored>, minConf: real) {
    && kept <= found
    && (forall i :: 0 <= i < |kept| ==> found[i].combined >= minConf)
    && (forall i :: |kept| <= i < |found| ==> found[i].combined < minConf)
  }

  lemma CutStep(found: seq<Scored>, kept: seq<Scored>, minConf: real)
    requires found != [] && Descending(found, Combined) && IsCut(found[..|found| - 1], kept, minConf)
    ensures var last := found[|found| - 1];
            IsCut(found, if last.combined >= minConf then kept + [last] else kept, minConf)
  {
    var n := |found| - 1;
    assert n > 0 ==> Combined(found[n - 1]) >= Combined(found[n]);
    hide Descending;
    assert forall i :: 0 <= i < n ==> found[..n][i] == found[i];
    if found[n].combined >= minConf {
      assert |kept| == n && kept == found[..n];
    }
  }

  /** The relevant results of a ranked list are a prefix of it, the longest of that confidence. */
  lemma {:induction false} RelevantIsPrefix(found: seq<Scored>, minConf: real)
    requires Descending(found, Combined)
    ensures IsCut(found, Relevant(found, minConf), minConf)
  {
    if found != [] {
      var n := |found| - 1;
      assert Descending(found[..n], Combined);
      hide IsCut, Descending;
      RelevantIsPrefix(found[..n], minConf);
      CutStep(found, Relevant(found[..n], minConf), minConf);
      assert Relevant(found[..n], minConf) + [] == Relevant(found[..n], minConf);
    }
  }

  /** An embedding, where there is one, has at least the numbers that are compared. */
  predicate GoodChunk(c: Chunk) {
    c.embedding.Some? ==> |c.embedding.value| >= DIM
  }

  function WithId(order: seq<string>, id: string): seq<string> {
    if id in order then order else order + [id]
  }

  function WithIds(order: seq<string>, list: seq<Chunk>): seq<string> {
    if list == [] then order else WithId(WithIds(order, list[..|list| - 1]), list[|list| - 1].id)
  }

  function WithChunks(chunks: map<string, Chunk>, list: seq<Chunk>): map<string, Chunk> {
    if list == [] then chunks
    else WithChunks(chunks, list[..|list| - 1])[list[|list| - 1].id := list[|list| - 1]]
  }

  function IdsOf(list: seq<Chunk>): seq<string> {
    seq(|list|, i requires 0 <= i < |list| => list[i].id)
  }

  /** Loading a list: ids stand in the order in which they first occur, behind those known before. */
  lemma {:induction false} IdsOnList(order: seq<string>, list: seq<Chunk>)
    requires FirstOccurrences(order, order)
    ensures FirstOccurrences(order + IdsOf(list), WithIds(order, list))
    ensures forall id :: id in WithIds(order, list) <==> id in order + IdsOf(list)
  {
    hide FirstOccurrences;
    if list == [] {
      assert order + IdsOf(list) == order;
    } else {
      var n := |list| - 1;
      IdsOnList(order, list[..n]);
      FirstsMore(order + IdsOf(list[..n]), list[n].id, WithIds(order, list[..n]));
      assert order + IdsOf(list) == order + IdsOf(list[..n]) + [list[n].id];
    }
  }

  /** The last chunk of the list with this id, if there is one. */
  ghost predicate LastWith(list: seq<Chunk>, id: string, i: nat) {
    i < |list| && list[i].id == id && forall j :: i < j < |list| ==> list[j].id != id
  }

  /** Each id read has the chunk read last for it, every other the chunk it had. */
  lemma {:induction false} ChunksOnList(chunks: map<string, Chunk>, list: seq<Chunk>, id: string)
    ensures forall i: nat :: LastWith(list, id, i) ==>
                          id in WithChunks(chunks, list) && WithChunks(chunks, list)[id] == list[i]
    ensures (forall i :: 0 <= i < |list| ==> list[i].id != id) ==>
              && (id in WithChunks(chunks, list) <==> id in chunks)
              && (id in chunks ==> WithChunks(chunks, list)[id] == chunks[id])
  {
    if list != [] {
      var n := |list| - 1;
      ChunksOnList(chunks, list[..n], id);
      assert forall i :: 0 <= i < n ==> list[..n][i] == list[i];
      forall i: nat | LastWith(list, id, i)
        ensures id in WithChunks(chunks, list) && WithChunks(chunks, list)[id] == list[i]
      {
        assert i < n ==> LastWith(list[..n], id, i) && list[n].id != id;
      }
    }
  }

  class RagEngine {
    /** The indexed documents, and their ids in the order first indexed. */
    var documentChunks: map<string, Chunk>
    var order: seq<string>
    const sqrt: real -> real
    const lower: string -> string
    const trim: string -> string

    ghost predicate Valid()
      reads this
    {
      && IsSqrt(sqrt)
      && (forall id :: id in order <==> id in documentChunks)
      && (forall i, j :: 0 <= i < j < |order| ==> order[i] != order[j])
      && (forall id :: id in documentChunks ==> GoodChunk(documentChunks[id]))
    }

    /** The chunks in the order first stored, with their vectors. */
    ghost function Documents(): (r: seq<Document>)
      requires forall id :: id in order ==> id in documentChunks && GoodChunk(documentChunks[id])
      reads this
      ensures |r| == |order|
    {
      seq(|order|, i requires 0 <= i < |order| && order[i] in documentChunks && GoodChunk(documentChunks[order[i]])
                     reads this =>
        Document(documentChunks[order[i]], VectorOf(documentChunks[order[i]])))
    }

    function Embedding(text: string): seq<real> {
      Embed(Words(trim(lower(text))), sqrt)
    }

    /** The stored embedding, or one of title and content where there is none. */
    function VectorOf(c: Chunk): seq<real>
      requires GoodChunk(c)
    {
      if c.embedding.Some? then c.embedding.value[..DIM] else Embedding(PlainText(c))
    }

    lemma DocumentsEmbedded()
      requires Valid()
      ensures Embedded(Documents())
    {
      forall i | 0 <= i < |order| ensures |Documents()[i].vector| == DIM {
        EmbeddingIsUnit(Words(trim(lower(PlainText(documentChunks[order[i]])))), sqrt);
      }
    }

    constructor (sqrt: real -> real, lower: string -> string, trim: string -> string)
      requires IsSqrt(sqrt)
      ensures Valid() && order == [] && this.sqrt == sqrt && this.lower == lower && this.trim == trim
    {
      this.sqrt, this.lower, this.trim := sqrt, lower, trim;
      documentChunks, order := map[], [];
    }

    /** A new id goes behind all others; a known one is replaced where it is. */
    method Store(chunk: Chunk)
      requires Valid() && GoodChunk(chunk)
      modifies this
      ensures Valid() && order == WithId(old(order), chunk.id)
      ensures documentChunks == old(documentChunks)[chunk.id := chunk]
    {
      hide GoodChunk, IsSqrt;
      if chunk.id !in documentChunks {
        order := order + [chunk.id];
      }
      documentChunks := documentChunks[chunk.id := chunk];
    }

    /** Chunks read from the store, with or without an embedding; a later one replaces an earlier. */
    method LoadStored(list: seq<Chunk>)
      requires Valid() && forall i :: 0 <= i < |list| ==> GoodChunk(list[i])
      modifies this
      ensures Valid() && order == WithIds(old(order), list)
      ensures documentChunks == WithChunks(old(documentChunks), list)
    {
      hide GoodChunk, IsSqrt, WithId;
      assert list[..0] == [];
      for k := 0 to |list|
        invariant Valid() && order == WithIds(old(order), list[..k])
        invariant documentChunks == WithChunks(old(documentChunks), list[..k])
      {
        assert list[..k + 1][..k] == list[..k];
        Store(list[k]);
      }
      assert list[..|list|] == list;
    }

    method IndexDocument(chunk: Chunk)
      requires Valid()
      modifies this
      ensures Valid() && order == WithId(old(order), chunk.id)
      ensures documentChunks ==
              old(documentChunks)[chunk.id := chunk.(embedding := Some(Embedding(IndexedText(chunk))))]
    {
      var vec := EmbedText(trim(lower(IndexedText(chunk))), sqrt);
      EmbeddingIsUnit(Words(trim(lower(IndexedText(chunk)))), sqrt);
      Store(chunk.(embedding := Some(vec[..])));
    }

    method ComputeSparseScore(query: string, chunk: Chunk) returns (score: real)
      ensures score == Sparse(Tokens(lower(query)), lower(KeywordText(chunk)))
    {
      hide Includes, Tokens;
      var tokens := Tokens(lower(query));
      if |tokens| == 0 {
        return 0.0;
      }
      var fullDoc := lower(KeywordText(chunk));
      var hits := 0;
      for i := 0 to |tokens|
        invariant hits == HitsIn(tokens[..i], fullDoc)
      {
        assert tokens[..i + 1][..i] == tokens[..i];
        if Includes(fullDoc, tokens[i]) {
          hits := hits + 1;
        }
      }
      assert tokens[..|tokens|] == tokens;
      score := Min(1.0, hits as real / |tokens| as real);
    }

    method Score(query: string, queryVec: seq<real>, chunk: Chunk, denseWeight: real) returns (r: Scored)
      requires |queryVec| == DIM && GoodChunk(chunk) && |VectorOf(chunk)| == DIM
      ensures r == ScoreOf(Document(chunk, VectorOf(chunk)), queryVec, Tokens(lower(query)), lower, denseWeight)
    {
      hide Sparse, Tokens, Round3, Mix, SemanticCache.Similarity, Embed, Words;
      var chunkVec;
      if chunk.embedding.Some? {
        chunkVec := chunk.embedding.value[..DIM];
      } else {
        var vec := EmbedText(trim(lower(PlainText(chunk))), sqrt);
        chunkVec := vec[..];
      }
      var dense := SemanticCache.Similarity(queryVec, chunkVec);
      var sparse := ComputeSparseScore(query, chunk);
      var combined := Mix(denseWeight, dense, sparse);
      r := Scored(chunk, Round3(dense), Round3(sparse), Round3(combined));
    }

    method Search(query: string, topK: int, denseWeight: real) returns (found: seq<Scored>)
      requires Valid()
      ensures |Embedding(query)| == DIM && Embedded(Documents())
      ensures found == Ranked(Documents(), Embedding(query), Tokens(lower(query)), lower, denseWeight, topK)
    {
      hide Sparse, UnitOrZero, IsSqrt, Embed, Words, Tokens, ScoreOf;
      EmbeddingIsUnit(Words(trim(lower(query))), sqrt);
      DocumentsEmbedded();
      var vec := EmbedText(trim(lower(query)), sqrt);
      var queryVec := vec[..];
      ghost var scores := Scores(Documents(), queryVec, Tokens(lower(query)), lower, denseWeight);
      var results := [];
      for i := 0 to |order|
        invariant |results| == i && forall j :: 0 <= j < i ==> results[j] == scores[j]
      {
        var chunk := documentChunks[order[i]];
        assert Documents()[i] == Document(chunk, VectorOf(chunk)) && |Documents()[i].vector| == DIM;
        var score := Score(query, queryVec, chunk, denseWeight);
        results := results + [score];
      }
      assert results == scores;
      found := Slice(SortDescending(results, Combined), topK);
    }

    /** `topK` and `minConfidence` as given by the caller; a zero `topK` means 3. */
    method Query(prompt: string, topK: int, minConf: real) returns (r: Response)
      requires Valid()
      ensures |Embedding(prompt)| == DIM && Embedded(Documents())
      ensures var k := if topK == 0 then 3 else topK;
              var found := Ranked(Documents(), Embedding(prompt), Tokens(lower(prompt)), lower, 0.7, k);
              && r.retrieved == Relevant(found, minConf) && r.retrieved <= found
              && r.commands == Distinct(CommandsOf(r.retrieved))
              && (forall i, j :: 0 <= i < j < |r.commands| ==> r.commands[i] != r.commands[j])
              && (forall c :: c in r.commands <==> c in CommandsOf(r.retrieved))
              && (r.retrieved == [] ==> r.source == None && r.confidence == 0.0)
              && (r.retrieved != [] ==> r.source == Some(found[0].chunk) && r.confidence == found[0].combined)
    {
      var k := if topK == 0 then 3 else topK;
      var found := Search(prompt, k, 0.7);
      RankedDescends(Documents(), Embedding(prompt), Tokens(lower(prompt)), lower, 0.7, k);
      RelevantIsPrefix(found, minConf);
      var relevant := Relevant(found, minConf);
      var commands := CollectCommands(relevant);
      DistinctIsSet(CommandsOf(relevant));
      if |relevant| > 0 {
        r := Response(relevant, Some(relevant[0].chunk), commands, relevant[0].combined);
      } else {
        r := Response(relevant, None, commands, 0.0);
      }
    }
  }

  /** Every command once, in the order in which the results first give it. */
  method CollectCommands(relevant: seq<Scored>) returns (commands: seq<string>)
    ensures commands == Distinct(CommandsOf(relevant))
  {
    commands := [];
    assert Distinct([]) == [];
    hide Distinct;
    for i := 0 to |relevant|
      invariant commands == Distinct(CommandsOf(relevant[..i]))
    {
      assert relevant[..i + 1][..i] == relevant[..i];
      commands := AddDistinct(CommandsOf(relevant[..i]), commands, relevant[i].chunk.commands);
    }
    assert relevant[..|relevant|] == relevant;
  }

  /** Adds the commands of one result to those of the results `before`. */
  method AddDistinct(ghost before: seq<string>, known: seq<string>, cmds: seq<string>) returns (commands: seq<string>)
    requires known == Distinct(before)
    ensures commands == Distinct(before + cmds)
  {
    commands := known;
    assert before + cmds[..0] == before;
    for j := 0 to |cmds|
      invariant commands == Distinct(before + cmds[..j])
    {
      assert (before + cmds[..j + 1])[..|before| + j] == before + cmds[..j];
      if cmds[j] !in commands {
        commands := commands + [cmds[j]];
      }
    }
    assert cmds[..|cmds|] == cmds;
  }

  lemma RankedDescends(docs: seq<Document>, q: seq<real>, tokens: seq<string>, lower: string -> string,
                       denseWeight: real, topK: int)
    requires |q| == DIM && Embedded(docs)
    ensures Descending(Ranked(docs, q, tokens, lower, denseWeight, topK), Combined)
  {
    SortIsStable(Scores(docs, q, tokens, lower, denseWeight), Combined);
  }
}
