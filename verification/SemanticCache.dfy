/**
 The semantic answer cache: entries carry an embedding and an expiry; a lookup drops what has
 expired, finds the most similar entry, and answers when it is similar enough.
 */
module SemanticCache {
  import opened Numbers
  import opened Vectors
  import opened Embedding
  import opened Selections

  datatype CacheEntry<T> = CacheEntry(
    id: string,
    query: string,
    response: T,
    category: string,
    embedding: seq<real>,
    hitCount: nat,
    expiresAt: int)

  datatype Lookup<T> = Hit(response: T, matchedQuery: string, similarity: real) | Miss

  datatype Stats = Stats(entries: nat, totalHits: nat, totalMisses: nat, hitRatio: real)

  function Clamp(x: real): real {
    Max(0.0, Min(1.0, x))
  }

  /** The clamped dot product of two embeddings. */
  function Similarity(a: seq<real>, b: seq<real>): real
    requires |a| == DIM && |b| == DIM
  {
    Clamp(DotTo(a, b, DIM))
  }

  ghost predicate Sized<T>(entries: seq<CacheEntry<T>>) {
    forall i :: 0 <= i < |entries| ==> |entries[i].embedding| == DIM
  }

  /** Entries have their own ids, and embeddings as the embedder makes them. */
  ghost predicate WellFormed<T>(entries: seq<CacheEntry<T>>) {
    && Sized(entries)
    && (forall i :: 0 <= i < |entries| ==> UnitOrZero(entries[i].embedding))
    && (forall i, j :: 0 <= i < j < |entries| ==> entries[i].id != entries[j].id)
  }

  /** The entries that have not expired, in insertion order. */
  function Live<T>(entries: seq<CacheEntry<T>>, now: int): seq<CacheEntry<T>> {
    if entries == [] then []
    else
      var last := entries[|entries| - 1];
      Live(entries[..|entries| - 1], now) + (if last.expiresAt <= now then [] else [last])
  }

  /** Position of the best entry, the earlier one on equality; -1 without entries. */
  function BestIndex<T>(entries: seq<CacheEntry<T>>, q: seq<real>): (b: int)
    requires |q| == DIM && Sized(entries)
    ensures -1 <= b < |entries| && (b < 0 <==> entries == [])
  {
    if entries == [] then -1
    else
      var n := |entries| - 1;
      var b := BestIndex(entries[..n], q);
      if b < 0 || Similarity(q, entries[n].embedding) > Similarity(q, entries[b].embedding) then n else b
  }

  lemma {:induction false} BestIsFirstMaximum<T>(entries: seq<CacheEntry<T>>, q: seq<real>)
    requires |q| == DIM && Sized(entries) && entries != []
    ensures var b := BestIndex(entries, q);
            && (forall j :: 0 <= j < |entries| ==>
                              Similarity(q, entries[j].embedding) <= Similarity(q, entries[b].embedding))
            && (forall j :: 0 <= j < b ==> Similarity(q, entries[j].embedding) < Similarity(q, entries[b].embedding))
  {
    hide Similarity;
    var n := |entries| - 1;
    if n > 0 {
      BestIsFirstMaximum(entries[..n], q);
    }
  }

  /** The entry a lookup answers with, or -1. */
  function Chosen<T>(live: seq<CacheEntry<T>>, q: seq<real>, minSimilarity: real): (b: int)
    requires |q| == DIM && Sized(live)
    ensures -1 <= b < |live|
  {
    var b := BestIndex(live, q);
    if b >= 0 && Similarity(q, live[b].embedding) >= minSimilarity then b else -1
  }

  lemma {:induction false} LiveMembers<T>(entries: seq<CacheEntry<T>>, now: int, e: CacheEntry<T>)
    ensures e in Live(entries, now) <==> e in entries && e.expiresAt > now
  {
    if entries != [] {
      var n := |entries| - 1;
      LiveMembers(entries[..n], now, e);
      assert entries == entries[..n] + [entries[n]];
    }
  }

  lemma {:induction false} LiveWellFormed<T>(entries: seq<CacheEntry<T>>, now: int)
    requires WellFormed(entries)
    ensures WellFormed(Live(entries, now))
  {
    if entries != [] {
      var n := |entries| - 1;
      var rest := Live(entries[..n], now);
      LiveWellFormed(entries[..n], now);
      forall k | 0 <= k < |rest| ensures rest[k].id != entries[n].id {
        LiveMembers(entries[..n], now, rest[k]);
        var i :| 0 <= i < |entries[..n]| && entries[..n][i] == rest[k];
      }
    }
  }

  /** The entries after a lookup: the live ones, the one answered with counted. */
  function AfterGet<T>(entries: seq<CacheEntry<T>>, q: seq<real>, minSimilarity: real, now: int): seq<CacheEntry<T>>
    requires |q| == DIM && Sized(Live(entries, now))
  {
    var live := Live(entries, now);
    var b := Chosen(live, q, minSimilarity);
    if b < 0 then live else live[b := live[b].(hitCount := live[b].hitCount + 1)]
  }

  function Answer<T>(entries: seq<CacheEntry<T>>, q: seq<real>, minSimilarity: real, now: int): Lookup<T>
    requires |q| == DIM && Sized(Live(entries, now))
  {
    var live := Live(entries, now);
    var b := Chosen(live, q, minSimilarity);
    if b < 0 then Miss
    else Hit(live[b].response, live[b].query, Round3(Similarity(q, live[b].embedding)))
  }

  lemma {:induction false} LiveOnFields<T(!new)>(entries: seq<CacheEntry<T>>, now: int,
                                                 live: CacheEntry<T> -> bool)
    requires forall e :: live(e) <==> e.expiresAt > now
    ensures Selects(entries, live, Live(entries, now))
  {
    hide Selects;
    if entries == [] {
      SelectsNone(live);
    } else {
      var n := |entries| - 1;
      LiveOnFields(entries[..n], now, live);
      var kept := Live(entries[..n], now);
      SelectsMore(entries[..n], entries[n], live, kept);
      assert entries == entries[..n] + [entries[n]] && kept + [] == kept;
    }
  }

  /** The dot product of two embeddings, cut off at 0 and at 1. */
  ghost function Cosine(a: seq<real>, b: seq<real>): real
    requires |a| == |b|
  {
    var d := Dot(a, b);
    if d < 0.0 then 0.0 else if d > 1.0 then 1.0 else d
  }

  /** The first entry closest to `q`, which is close enough. */
  ghost predicate IsChosen<T>(live: seq<CacheEntry<T>>, q: seq<real>, minSimilarity: real, k: nat)
    requires |q| == DIM && Sized(live)
  {
    && k < |live| && Cosine(q, live[k].embedding) >= minSimilarity
    && (forall j :: 0 <= j < |live| ==> Cosine(q, live[j].embedding) <= Cosine(q, live[k].embedding))
    && (forall j :: 0 <= j < k ==> Cosine(q, live[j].embedding) < Cosine(q, live[k].embedding))
  }

  ghost predicate CloseEnough<T>(e: CacheEntry<T>, q: seq<real>, minSimilarity: real)
    requires |q| == DIM
  {
    |e.embedding| == DIM && Cosine(q, e.embedding) >= minSimilarity
  }

  ghost predicate AnswersWith<T>(live: seq<CacheEntry<T>>, q: seq<real>, k: nat, r: Lookup<T>,
                                 after: seq<CacheEntry<T>>)
    requires |q| == DIM && Sized(live) && k < |live|
  {
    && r.Hit? && r.response == live[k].response && r.matchedQuery == live[k].query
    && r.similarity - 0.0005 <= Cosine(q, live[k].embedding) < r.similarity + 0.0005
    && |after| == |live| && after[k] == live[k].(hitCount := live[k].hitCount + 1)
    && forall j :: 0 <= j < |live| && j != k ==> after[j] == live[j]
  }

  /** A lookup told by the entries: it hits exactly when an entry that has not expired is close enough, and
      then the first closest one answers and alone is counted; otherwise what has not expired stays as it is. */
  lemma LookupOnEntries<T>(entries: seq<CacheEntry<T>>, q: seq<real>, minSimilarity: real, now: int)
    requires |q| == DIM && Sized(entries) && Sized(Live(entries, now))
    ensures var live, r := Live(entries, now), Answer(entries, q, minSimilarity, now);
            var after := AfterGet(entries, q, minSimilarity, now);
            && (r.Hit? <==> exists e :: e in entries && e.expiresAt > now && CloseEnough(e, q, minSimilarity))
            && (r.Hit? ==> exists k :: IsChosen(live, q, minSimilarity, k) && AnswersWith(live, q, k, r, after))
            && (r.Miss? ==> after == live)
  {
    AnswerFrom(entries, q, minSimilarity, now);
    var live, r := Live(entries, now), Answer(entries, q, minSimilarity, now);
    LiveCloseIff(entries, q, minSimilarity, now);
    hide *;
    LookupOnLive(live, q, minSimilarity, r, AfterGet(entries, q, minSimilarity, now));
  }

  lemma LiveCloseIff<T>(entries: seq<CacheEntry<T>>, q: seq<real>, minSimilarity: real, now: int)
    requires |q| == DIM
    ensures (exists e :: e in Live(entries, now) && CloseEnough(e, q, minSimilarity)) <==>
            exists e :: e in entries && e.expiresAt > now && CloseEnough(e, q, minSimilarity)
  {
    forall e ensures e in Live(entries, now) <==> e in entries && e.expiresAt > now {
      LiveMembers(entries, now, e);
    }
    hide Live, CloseEnough;
  }

  lemma LookupOnLive<T>(live: seq<CacheEntry<T>>, q: seq<real>, minSimilarity: real, r: Lookup<T>,
                        after: seq<CacheEntry<T>>)
    requires |q| == DIM && Sized(live)
    requires var b := BestIndex(live, q);
             if b >= 0 && BestScore(live, q) >= minSimilarity
             then r == Hit(live[b].response, live[b].query, Round3(BestScore(live, q)))
                  && after == live[b := live[b].(hitCount := live[b].hitCount + 1)]
             else r == Miss && after == live
    ensures r.Hit? <==> exists e :: e in live && CloseEnough(e, q, minSimilarity)
    ensures r.Hit? ==> exists k :: IsChosen(live, q, minSimilarity, k) && AnswersWith(live, q, k, r, after)
    ensures r.Miss? ==> after == live
  {
    var b := BestIndex(live, q);
    hide BestIndex, BestScore, Cosine;
    if live != [] {
      ClosestFirst(live, q, b);
    }
    if r.Hit? {
      RoundedThousandths(Cosine(q, live[b].embedding));
      hide Round3;
      assert live[b] in live;
      assert IsChosen(live, q, minSimilarity, b) && AnswersWith(live, q, b, r, after);
    } else {
      NoneClose(live, q, minSimilarity, b);
    }
  }

  lemma ClosestFirst<T>(live: seq<CacheEntry<T>>, q: seq<real>, b: int)
    requires |q| == DIM && Sized(live) && live != [] && b == BestIndex(live, q)
    ensures BestScore(live, q) == Cosine(q, live[b].embedding)
    ensures forall j :: 0 <= j < |live| ==> Cosine(q, live[j].embedding) <= Cosine(q, live[b].embedding)
    ensures forall j :: 0 <= j < b ==> Cosine(q, live[j].embedding) < Cosine(q, live[b].embedding)
  {
    BestIsFirstMaximum(live, q);
    forall j | 0 <= j < |live| ensures Similarity(q, live[j].embedding) == Cosine(q, live[j].embedding) {
      SimilarityIsCosine(q, live[j].embedding);
    }
    hide Similarity, Cosine, BestIndex;
  }

  lemma SimilarityIsCosine(a: seq<real>, b: seq<real>)
    requires |a| == DIM && |b| == DIM
    ensures Similarity(a, b) == Cosine(a, b)
  {
    hide DotTo;
  }

  lemma NoneClose<T>(live: seq<CacheEntry<T>>, q: seq<real>, minSimilarity: real, b: int)
    requires |q| == DIM && Sized(live) && -1 <= b < |live| && (b < 0 ==> live == [])
    requires b >= 0 ==> Cosine(q, live[b].embedding) < minSimilarity
    requires b >= 0 ==>
               forall j :: 0 <= j < |live| ==> Cosine(q, live[j].embedding) <= Cosine(q, live[b].embedding)
    ensures forall e :: e in live ==> !CloseEnough(e, q, minSimilarity)
  {
    hide Cosine;
    forall e | e in live ensures !CloseEnough(e, q, minSimilarity) {
      var j :| 0 <= j < |live| && live[j] == e;
    }
  }

  lemma RoundedThousandths(x: real)
    ensures Round3(x) - 0.0005 <= x < Round3(x) + 0.0005
  {
  }

  // ----- the steps of the lookup loop -----

  /** The similarity of the best entry, or -1. */
  ghost function BestScore<T>(entries: seq<CacheEntry<T>>, q: seq<real>): real
    requires |q| == DIM && Sized(entries)
  {
    var b := BestIndex(entries, q);
    if b < 0 then -1.0 else Similarity(q, entries[b].embedding)
  }

  lemma SizedWhenWellFormed<T>(entries: seq<CacheEntry<T>>)
    requires WellFormed(entries)
    ensures Sized(entries)
  {
  }

  lemma LiveStart<T>(was: seq<CacheEntry<T>>, now: int, q: seq<real>)
    requires |q| == DIM
    ensures Live(was[..0], now) == [] && Sized(Live(was[..0], now))
    ensures BestIndex(Live(was[..0], now), q) == -1 && BestScore(Live(was[..0], now), q) == -1.0
    ensures was == [] + was[0..]
  {
  }

  lemma NextEntry<T>(was: seq<CacheEntry<T>>, seen: nat, kept: seq<CacheEntry<T>>, entries: seq<CacheEntry<T>>,
                     now: int)
    requires seen <= |was| && entries == kept + was[seen..] && |kept| < |entries|
    requires Sized(was) && kept == Live(was[..seen], now) && Sized(kept)
    ensures seen < |was|
    ensures var i := |kept|;
            && entries[i] == was[seen] && |entries[i].embedding| == DIM
            && entries[..i] + entries[i + 1..] == kept + was[seen + 1..]
            && entries == kept + [entries[i]] + was[seen + 1..]
    ensures var e := was[seen];
            if e.expiresAt <= now then Live(was[..seen + 1], now) == kept
            else Live(was[..seen + 1], now) == kept + [e] && Sized(kept + [e])
  {
    assert was[..seen + 1][..seen] == was[..seen];
    assert was[seen..] == [was[seen]] + was[seen + 1..];
  }

  lemma LookupDone<T>(was: seq<CacheEntry<T>>, seen: nat, kept: seq<CacheEntry<T>>, entries: seq<CacheEntry<T>>)
    requires seen <= |was| && entries == kept + was[seen..] && |kept| >= |entries|
    ensures was[..seen] == was && kept == entries
  {
  }

  lemma BestStep<T>(kept: seq<CacheEntry<T>>, e: CacheEntry<T>, q: seq<real>)
    requires |q| == DIM && Sized(kept) && |e.embedding| == DIM
    ensures Sized(kept + [e])
    ensures var sim := Similarity(q, e.embedding);
            if sim > BestScore(kept, q)
            then BestIndex(kept + [e], q) == |kept| && BestScore(kept + [e], q) == sim
            else BestIndex(kept + [e], q) == BestIndex(kept, q) && BestScore(kept + [e], q) == BestScore(kept, q)
  {
    assert (kept + [e])[..|kept|] == kept;
  }

  lemma AnswerFrom<T>(entries: seq<CacheEntry<T>>, q: seq<real>, minSimilarity: real, now: int)
    requires |q| == DIM && Sized(Live(entries, now))
    ensures var live := Live(entries, now);
            var b := BestIndex(live, q);
            if b >= 0 && BestScore(live, q) >= minSimilarity then
              && Answer(entries, q, minSimilarity, now) ==
                 Hit(live[b].response, live[b].query, Round3(BestScore(live, q)))
              && AfterGet(entries, q, minSimilarity, now) == live[b := live[b].(hitCount := live[b].hitCount + 1)]
            else
              Answer(entries, q, minSimilarity, now) == Miss && AfterGet(entries, q, minSimilarity, now) == live
  {
  }

  lemma HitCounted<T>(entries: seq<CacheEntry<T>>, b: nat)
    requires WellFormed(entries) && b < |entries|
    ensures WellFormed(entries[b := entries[b].(hitCount := entries[b].hitCount + 1)])
  {
    hide UnitOrZero;
  }

  class SemanticVectorCache<T> {
    var entries: seq<CacheEntry<T>>
    var totalHits: nat
    var totalMisses: nat
    const sqrt: real -> real
    const normalize: string -> string

    /** Lookups see the text through `normalize`: lower-cased and trimmed. */
    ghost predicate Valid()
      reads this
    {
      IsSqrt(sqrt) && WellFormed(entries)
    }

    function Embedded(query: string): seq<real> {
      Embed(Words(normalize(query)), sqrt)
    }

    constructor (sqrt: real -> real, normalize: string -> string)
      requires IsSqrt(sqrt)
      ensures Valid() && entries == [] && totalHits == totalMisses == 0
      ensures this.sqrt == sqrt && this.normalize == normalize
    {
      this.sqrt, this.normalize := sqrt, normalize;
      entries, totalHits, totalMisses := [], 0, 0;
    }

    method ComputeCosineSimilarity(a: array<real>, b: seq<real>) returns (sim: real)
      requires a.Length == DIM && |b| == DIM
      ensures sim == Similarity(a[..], b)
    {
      var dot := 0.0;
      for i := 0 to DIM
        invariant dot == DotTo(a[..], b, i)
      {
        dot := dot + a[i] * b[i];
      }
      sim := Max(0.0, Min(1.0, dot));
    }

    method Get(query: string, minSimilarity: real, now: int) returns (r: Lookup<T>)
      requires Valid()
      modifies this
      ensures Valid()
      ensures WellFormed(Live(old(entries), now)) && |Embedded(query)| == DIM
      ensures r == Answer(old(entries), Embedded(query), minSimilarity, now)
      ensures entries == AfterGet(old(entries), Embedded(query), minSimilarity, now)
      ensures totalHits == old(totalHits) + (if r.Hit? then 1 else 0)
      ensures totalMisses == old(totalMisses) + (if r.Hit? then 0 else 1)
    {
      hide *;
      ValidParts();
      var queryVec := EmbedText(normalize(query), sqrt);
      ghost var q := Embedded(query);
      QueryEmbedding(query);
      LiveWellFormed(entries, now);
      SizedWhenWellFormed(Live(entries, now));
      AnswerFrom(entries, q, minSimilarity, now);
      var best, bestSimilarity := FindBest(queryVec, now);
      if best >= 0 && bestSimilarity >= minSimilarity {
        var hit := entries[best];
        HitCounted(entries, best);
        entries := entries[best := hit.(hitCount := hit.hitCount + 1)];
        totalHits := totalHits + 1;
        ValidAgain();
        return Hit(hit.response, hit.query, Round3(bestSimilarity));
      }
      totalMisses := totalMisses + 1;
      ValidAgain();
      return Miss;
    }

    /** The scan of a lookup: drops what has expired and finds the best of the rest, or -1. */
    method FindBest(queryVec: array<real>, now: int) returns (best: int, bestSimilarity: real)
      requires queryVec.Length == DIM && WellFormed(entries)
      modifies this`entries
      ensures entries == Live(old(entries), now) && Sized(entries)
      ensures best == BestIndex(entries, queryVec[..]) && bestSimilarity == BestScore(entries, queryVec[..])
    {
      hide *;
      ghost var q := queryVec[..];
      ghost var was, seen, kept := entries, 0, [];
      SizedWhenWellFormed(was);
      LiveStart(was, now, q);
      bestSimilarity, best := -1.0, -1;
      var i: nat := 0;
      while i < |entries|
        invariant 0 <= seen <= |was| && i == |kept|
        invariant entries == kept + was[seen..] && kept == Live(was[..seen], now) && Sized(kept)
        invariant best == BestIndex(kept, q)
        invariant bestSimilarity == BestScore(kept, q)
        decreases |was| - seen
      {
        var entry := entries[i];
        NextEntry(was, seen, kept, entries, now);
        if entry.expiresAt <= now {
          entries := entries[..i] + entries[i + 1..];
        } else {
          var sim := ComputeCosineSimilarity(queryVec, entry.embedding);
          BestStep(kept, entry, q);
          if sim > bestSimilarity {
            bestSimilarity, best := sim, i;
          }
          kept := kept + [entry];
          i := i + 1;
        }
        seen := seen + 1;
      }
      LookupDone(was, seen, kept, entries);
    }

    lemma ValidParts()
      requires Valid()
      ensures IsSqrt(sqrt) && WellFormed(entries)
    {
    }

    lemma ValidAgain()
      requires IsSqrt(sqrt) && WellFormed(entries)
      ensures Valid()
    {
    }

    lemma QueryEmbedding(query: string)
      requires IsSqrt(sqrt)
      ensures Embedded(query) == Embed(Words(normalize(query)), sqrt)
      ensures |Embedded(query)| == DIM && UnitOrZero(Embedded(query))
    {
      EmbeddingIsUnit(Words(normalize(query)), sqrt);
    }

    /** `id` is fresh; `trim` is applied to the stored query by the caller. */
    method Set(id: string, query: string, trimmed: string, response: T, ttlMs: int, category: string, now: int)
      returns (entry: CacheEntry<T>)
      requires Valid()
      requires forall i :: 0 <= i < |entries| ==> entries[i].id != id
      modifies this`entries
      ensures Valid() && entries == old(entries) + [entry]
      ensures entry == CacheEntry(id, trimmed, response, category, Embedded(query), 0, now + ttlMs)
    {
      var queryVec := EmbedText(normalize(query), sqrt);
      EmbeddingIsUnit(Words(normalize(query)), sqrt);
      entry := CacheEntry(id, trimmed, response, category, queryVec[..], 0, now + ttlMs);
      entries := entries + [entry];
    }

    method Clear()
      modifies this`entries
      ensures entries == []
    {
      entries := [];
    }

    method GetStats() returns (s: Stats)
      ensures s.entries == |entries| && s.totalHits == totalHits && s.totalMisses == totalMisses
      ensures 0.0 <= s.hitRatio <= 1.0
      ensures totalHits + totalMisses > 0 ==>
                s.hitRatio == Round2(totalHits as real / (totalHits + totalMisses) as real)
      ensures totalHits + totalMisses == 0 ==> s.hitRatio == 0.0
    {
      var total := totalHits + totalMisses;
      var ratio := 0.0;
      if total > 0 {
        RateRange(totalHits, total);
        Round2Within(0, totalHits as real / total as real, 100);
        ratio := Round2(totalHits as real / total as real);
      }
      s := Stats(|entries|, totalHits, totalMisses, ratio);
    }
  }

  // ----- what a lookup means -----

  /** Between embeddings the clamp changes nothing, and similarity 1 means the same embedding. */
  lemma SimilarityRange(a: seq<real>, b: seq<real>)
    requires |a| == DIM && |b| == DIM && UnitOrZero(a) && UnitOrZero(b)
    ensures Similarity(a, b) == Dot(a, b) && 0.0 <= Similarity(a, b) <= 1.0
    ensures Similarity(a, b) == 1.0 <==> a == b && !Zero(a)
    ensures Zero(a) ==> Similarity(a, b) == 0.0
  {
    CosineRange(a, b);
  }

  /** The similarity a stored query has to itself. */
  function SelfSimilarity(words: seq<string>): real {
    if words == [] then 0.0 else 1.0
  }

  /** While an entry with the query's embedding is live, a lookup hits exactly when the threshold is
      at most 1, or at most 0 for a query without words. */
  lemma HitIff<T>(entries: seq<CacheEntry<T>>, e: CacheEntry<T>, words: seq<string>, sqrt: real -> real,
                  minSimilarity: real, now: int)
    requires IsSqrt(sqrt) && WellFormed(entries)
    requires e in entries && e.expiresAt > now && e.embedding == Embed(words, sqrt)
    ensures var q := Embed(words, sqrt);
            && |q| == DIM && Sized(Live(entries, now))
            && (Answer(entries, q, minSimilarity, now).Hit? <==> minSimilarity <= SelfSimilarity(words))
  {
    hide Vectors.Dot, Vectors.DotTo, Embed;
    var q, live := Embed(words, sqrt), Live(entries, now);
    EmbeddingIsUnit(words, sqrt);
    LiveWellFormed(entries, now);
    LiveMembers(entries, now, e);
    var k :| 0 <= k < |live| && live[k] == e;
    BestIsFirstMaximum(live, q);
    var b := BestIndex(live, q);
    SimilarityRange(q, q);
    SimilarityRange(q, live[b].embedding);
    assert Similarity(q, live[k].embedding) <= Similarity(q, live[b].embedding);
  }

  datatype Operation<T> =
    | Getting(words: seq<string>, minSimilarity: real, now: int)
    | Setting(id: string, query: string, words: seq<string>, response: T, category: string, expiresAt: int)

  /** The entries after an operation on well-formed entries; ids set are fresh. */
  function Apply<T>(entries: seq<CacheEntry<T>>, op: Operation<T>, sqrt: real -> real): seq<CacheEntry<T>> {
    match op
    case Getting(words, minSimilarity, now) =>
      var live := Live(entries, now);
      var q := Embed(words, sqrt);
      if |q| == DIM && forall i :: 0 <= i < |live| ==> |live[i].embedding| == DIM
      then AfterGet(entries, q, minSimilarity, now) else live
    case Setting(id, query, words, response, category, expiresAt) =>
      entries + [CacheEntry(id, query, response, category, Embed(words, sqrt), 0, expiresAt)]
  }

  function Run<T>(entries: seq<CacheEntry<T>>, ops: seq<Operation<T>>, sqrt: real -> real): seq<CacheEntry<T>>
    decreases |ops|
  {
    if ops == [] then entries else Run(Apply(entries, ops[0], sqrt), ops[1..], sqrt)
  }

  ghost predicate Fresh<T>(entries: seq<CacheEntry<T>>, op: Operation<T>) {
    op.Setting? ==> forall i :: 0 <= i < |entries| ==> entries[i].id != op.id
  }

  /** Every `set` in the run uses an id not in the cache at that moment. */
  ghost predicate FreshRun<T>(entries: seq<CacheEntry<T>>, ops: seq<Operation<T>>, sqrt: real -> real)
    decreases |ops|
  {
    ops == [] || (Fresh(entries, ops[0]) && FreshRun(Apply(entries, ops[0], sqrt), ops[1..], sqrt))
  }

  lemma ApplyWellFormed<T>(entries: seq<CacheEntry<T>>, op: Operation<T>, sqrt: real -> real)
    requires IsSqrt(sqrt) && WellFormed(entries) && Fresh(entries, op)
    ensures WellFormed(Apply(entries, op, sqrt))
  {
    EmbeddingIsUnit(op.words, sqrt);
    if op.Getting? {
      LiveWellFormed(entries, op.now);
    }
  }

  /** The entry `e` is still stored, up to its hit count. */
  ghost predicate Stored<T>(entries: seq<CacheEntry<T>>, e: CacheEntry<T>) {
    exists n: nat :: e.(hitCount := n) in entries
  }

  lemma ApplyKeeps<T>(entries: seq<CacheEntry<T>>, op: Operation<T>, sqrt: real -> real, e: CacheEntry<T>)
    requires IsSqrt(sqrt) && WellFormed(entries) && Stored(entries, e)
    requires op.Getting? ==> op.now < e.expiresAt
    ensures Stored(Apply(entries, op, sqrt), e)
  {
    if op.Getting? {
      EmbeddingIsUnit(op.words, sqrt);
      LiveWellFormed(entries, op.now);
      LookupKeeps(entries, Embed(op.words, sqrt), op.minSimilarity, op.now, e);
    } else {
      var n: nat :| e.(hitCount := n) in entries;
      assert e.(hitCount := n) in Apply(entries, op, sqrt);
    }
  }

  lemma LookupKeeps<T>(entries: seq<CacheEntry<T>>, q: seq<real>, minSimilarity: real, now: int, e: CacheEntry<T>)
    requires |q| == DIM && Sized(Live(entries, now)) && Stored(entries, e) && now < e.expiresAt
    ensures Stored(AfterGet(entries, q, minSimilarity, now), e)
  {
    var n: nat :| e.(hitCount := n) in entries;
    var kept := e.(hitCount := n);
    LiveMembers(entries, now, kept);
    var live := Live(entries, now);
    var k :| 0 <= k < |live| && live[k] == kept;
    var b := Chosen(live, q, minSimilarity);
    if b == k {
      assert AfterGet(entries, q, minSimilarity, now)[k] == e.(hitCount := n + 1);
    } else {
      assert AfterGet(entries, q, minSimilarity, now)[k] == kept;
    }
  }

  /** While an entry is stored, looking up its query hits: after any run of lookups and insertions
      before it expires, some entry answers exactly for thresholds up to its self-similarity. */
  lemma {:induction false} StoredQueryHits<T>(entries: seq<CacheEntry<T>>, ops: seq<Operation<T>>, sqrt: real -> real,
                                              e: CacheEntry<T>, words: seq<string>, minSimilarity: real, now: int)
    requires IsSqrt(sqrt) && WellFormed(entries) && FreshRun(entries, ops, sqrt) && Stored(entries, e)
    requires forall k :: 0 <= k < |ops| && ops[k].Getting? ==> ops[k].now < e.expiresAt
    requires e.embedding == Embed(words, sqrt) && now < e.expiresAt
    ensures var after, q := Run(entries, ops, sqrt), Embed(words, sqrt);
            && WellFormed(after) && |q| == DIM && Sized(Live(after, now))
            && (Answer(after, q, minSimilarity, now).Hit? <==> minSimilarity <= SelfSimilarity(words))
    decreases |ops|
  {
    if ops == [] {
      var n: nat :| e.(hitCount := n) in entries;
      HitIff(entries, e.(hitCount := n), words, sqrt, minSimilarity, now);
    } else {
      ApplyWellFormed(entries, ops[0], sqrt);
      ApplyKeeps(entries, ops[0], sqrt, e);
      StoredQueryHits(Apply(entries, ops[0], sqrt), ops[1..], sqrt, e, words, minSimilarity, now);
    }
  }

  // ----- which answer comes back -----

  /** The first entry with exactly this embedding. */
  ghost predicate IsFirstWith<T>(live: seq<CacheEntry<T>>, q: seq<real>, k: nat) {
    k < |live| && live[k].embedding == q && forall j :: 0 <= j < k ==> live[j].embedding != q
  }

  /** Among live entries with the query's embedding the first one answers, with similarity 1. */
  lemma AnswerIsTheFirst<T>(entries: seq<CacheEntry<T>>, words: seq<string>, sqrt: real -> real, minSimilarity: real,
                            now: int, k: nat)
    requires IsSqrt(sqrt) && WellFormed(entries) && words != [] && minSimilarity <= 1.0
    requires IsFirstWith(Live(entries, now), Embed(words, sqrt), k)
    ensures var q, live := Embed(words, sqrt), Live(entries, now);
            && |q| == DIM && Sized(live) && Chosen(live, q, minSimilarity) == k
            && Answer(entries, q, minSimilarity, now) == Hit(live[k].response, live[k].query, 1.0)
  {
    hide Vectors.Dot, Vectors.DotTo, Embed;
    var q, live := Embed(words, sqrt), Live(entries, now);
    EmbeddingIsUnit(words, sqrt);
    LiveWellFormed(entries, now);
    BestIsFirstMaximum(live, q);
    var b := BestIndex(live, q);
    SimilarityRange(q, q);
    SimilarityRange(q, live[b].embedding);
    assert Similarity(q, live[k].embedding) <= Similarity(q, live[b].embedding);
    assert Similarity(q, live[b].embedding) == 1.0 && live[b].embedding == q;
    assert b == k;
  }

  /** Setting a query twice leaves the first answer in front until it expires. */
  lemma SecondSetIsShadowed<T>(first: CacheEntry<T>, second: CacheEntry<T>, words: seq<string>, sqrt: real -> real,
                               minSimilarity: real, now: int)
    requires IsSqrt(sqrt) && words != [] && minSimilarity <= 1.0 && first.id != second.id
    requires first.embedding == second.embedding == Embed(words, sqrt) && now < second.expiresAt
    ensures var q := Embed(words, sqrt);
            && |q| == DIM && Sized(Live([first, second], now))
            && Answer([first, second], q, minSimilarity, now) ==
               if now < first.expiresAt then Hit(first.response, first.query, 1.0)
               else Hit(second.response, second.query, 1.0)
  {
    var entries := [first, second];
    EmbeddingIsUnit(words, sqrt);
    assert WellFormed(entries);
    assert entries[..1] == [first] && [first][..0] == [];
    assert Live([first], now) == if now < first.expiresAt then [first] else [];
    assert Live(entries, now) == if now < first.expiresAt then [first, second] else [second];
    hide Live, Embed, WellFormed, Answer;
    AnswerIsTheFirst(entries, words, sqrt, minSimilarity, now, 0);
  }

  // ----- the same over a run -----

  /** An entry but for its hit count. */
  function Uncounted<T>(e: CacheEntry<T>): CacheEntry<T> {
    e.(hitCount := 0)
  }

  function Plain<T>(entries: seq<CacheEntry<T>>): (r: seq<CacheEntry<T>>)
    ensures |r| == |entries|
  {
    seq(|entries|, i requires 0 <= i < |entries| => Uncounted(entries[i]))
  }

  /** A run on entries without hit counts: lookups only drop, insertions only append. */
  function PlainRun<T>(entries: seq<CacheEntry<T>>, ops: seq<Operation<T>>, sqrt: real -> real): seq<CacheEntry<T>>
    decreases |ops|
  {
    if ops == [] then entries
    else
      match ops[0]
      case Getting(_, _, now) => PlainRun(Live(entries, now), ops[1..], sqrt)
      case Setting(_, _, _, _, _, _) => PlainRun(Apply(entries, ops[0], sqrt), ops[1..], sqrt)
  }

  /** What a run leaves of the entries it starts with. */
  function Kept<T>(entries: seq<CacheEntry<T>>, ops: seq<Operation<T>>): seq<CacheEntry<T>>
    decreases |ops|
  {
    if ops == [] then entries
    else Kept(if ops[0].Getting? then Live(entries, ops[0].now) else entries, ops[1..])
  }

  lemma {:induction false} LiveConcat<T>(a: seq<CacheEntry<T>>, b: seq<CacheEntry<T>>, now: int)
    ensures Live(a + b, now) == Live(a, now) + Live(b, now)
  {
    if b == [] {
      assert a + b == a;
    } else {
      assert (a + b)[..|a + b| - 1] == a + b[..|b| - 1];
      LiveConcat(a, b[..|b| - 1], now);
    }
  }

  lemma {:induction false} LivePlain<T>(entries: seq<CacheEntry<T>>, now: int)
    ensures Live(Plain(entries), now) == Plain(Live(entries, now))
  {
    if entries != [] {
      var n := |entries| - 1;
      LivePlain(entries[..n], now);
      assert Plain(entries)[..n] == Plain(entries[..n]);
    }
  }

  lemma {:induction false} RunIsPlainRun<T>(entries: seq<CacheEntry<T>>, ops: seq<Operation<T>>, sqrt: real -> real)
    requires IsSqrt(sqrt) && WellFormed(entries) && FreshRun(entries, ops, sqrt)
    ensures Plain(Run(entries, ops, sqrt)) == PlainRun(Plain(entries), ops, sqrt)
    ensures WellFormed(Run(entries, ops, sqrt))
    decreases |ops|
  {
    if ops != [] {
      ApplyWellFormed(entries, ops[0], sqrt);
      ApplyPlain(entries, ops[0], sqrt);
      RunIsPlainRun(Apply(entries, ops[0], sqrt), ops[1..], sqrt);
    }
  }

  lemma ApplyPlain<T>(entries: seq<CacheEntry<T>>, op: Operation<T>, sqrt: real -> real)
    requires IsSqrt(sqrt) && WellFormed(entries)
    ensures op.Getting? ==> Plain(Apply(entries, op, sqrt)) == Live(Plain(entries), op.now)
    ensures op.Setting? ==> Plain(Apply(entries, op, sqrt)) == Apply(Plain(entries), op, sqrt)
  {
    if op.Getting? {
      LivePlain(entries, op.now);
      EmbeddingIsUnit(op.words, sqrt);
      LiveWellFormed(entries, op.now);
      LookupIsPlain(Live(entries, op.now), Embed(op.words, sqrt), op.minSimilarity);
    } else {
      hide Embed, Live;
      assert Plain(Apply(entries, op, sqrt)) == Apply(Plain(entries), op, sqrt);
    }
  }

  lemma LookupIsPlain<T>(live: seq<CacheEntry<T>>, q: seq<real>, minSimilarity: real)
    requires |q| == DIM && Sized(live)
    ensures var b := Chosen(live, q, minSimilarity);
            b >= 0 ==> Plain(live[b := live[b].(hitCount := live[b].hitCount + 1)]) == Plain(live)
  {
    hide Chosen;
  }

  lemma {:induction false} PlainRunConcat<T>(a: seq<CacheEntry<T>>, b: seq<CacheEntry<T>>, ops: seq<Operation<T>>,
                                             sqrt: real -> real)
    ensures PlainRun(a + b, ops, sqrt) == Kept(a, ops) + PlainRun(b, ops, sqrt)
    decreases |ops|
  {
    if ops != [] {
      if ops[0].Getting? {
        LiveConcat(a, b, ops[0].now);
        PlainRunConcat(Live(a, ops[0].now), Live(b, ops[0].now), ops[1..], sqrt);
      } else {
        assert Apply(a + b, ops[0], sqrt) == a + Apply(b, ops[0], sqrt);
        PlainRunConcat(a, Apply(b, ops[0], sqrt), ops[1..], sqrt);
      }
    }
  }

  /** A lookup of the run, or the one at `now`, comes after `e` has expired. */
  ghost predicate Gone<T>(e: CacheEntry<T>, ops: seq<Operation<T>>, now: int) {
    e.expiresAt <= now || exists k :: 0 <= k < |ops| && ops[k].Getting? && e.expiresAt <= ops[k].now
  }

  lemma {:induction false} KeptMembers<T>(entries: seq<CacheEntry<T>>, ops: seq<Operation<T>>, e: CacheEntry<T>,
                                          now: int)
    ensures e in Live(Kept(entries, ops), now) <==> e in entries && !Gone(e, ops, now)
    decreases |ops|
  {
    if ops == [] {
      LiveMembers(entries, now, e);
    } else {
      if ops[0].Getting? {
        LiveMembers(entries, ops[0].now, e);
      }
      KeptMembers(if ops[0].Getting? then Live(entries, ops[0].now) else entries, ops[1..], e, now);
      GoneLater(e, ops, now);
    }
  }

  lemma GoneLater<T>(e: CacheEntry<T>, ops: seq<Operation<T>>, now: int)
    requires ops != []
    ensures Gone(e, ops, now) <==> (ops[0].Getting? && e.expiresAt <= ops[0].now) || Gone(e, ops[1..], now)
  {
    var rest := ops[1..];
    if k :| 0 <= k < |ops| && ops[k].Getting? && e.expiresAt <= ops[k].now && k > 0 {
      assert rest[k - 1] == ops[k];
    }
    if k :| 0 <= k < |rest| && rest[k].Getting? && e.expiresAt <= rest[k].now {
      assert ops[k + 1] == rest[k];
    }
  }

  lemma {:induction false} KeptAlone<T>(e: CacheEntry<T>, ops: seq<Operation<T>>, now: int)
    requires !Gone(e, ops, now)
    ensures Kept([e], ops) == [e]
    decreases |ops|
  {
    if ops != [] {
      GoneLater(e, ops, now);
      assert [e][..0] == [];
      assert ops[0].Getting? ==> Live([e], ops[0].now) == [e];
      KeptAlone(e, ops[1..], now);
    }
  }

  /** After a run the live entries are what is left of those stored before `e`, then `e`, then later ones. */
  lemma LiveAfterRun<T>(before: seq<CacheEntry<T>>, e: CacheEntry<T>, ops: seq<Operation<T>>, sqrt: real -> real,
                        now: int)
    returns (older: seq<CacheEntry<T>>, newer: seq<CacheEntry<T>>)
    requires IsSqrt(sqrt) && WellFormed(before + [e]) && FreshRun(before + [e], ops, sqrt) && !Gone(e, ops, now)
    ensures Plain(Live(Run(before + [e], ops, sqrt), now)) == older + [Uncounted(e)] + newer
    ensures forall x :: x in older <==> x in Plain(before) && !Gone(x, ops, now)
  {
    var e0 := Uncounted(e);
    var rest := RunParts(before, e, ops, sqrt, now);
    hide *;
    LivePlain(Run(before + [e], ops, sqrt), now);
    older, newer := Live(Kept(Plain(before), ops), now), Live(rest, now);
    assert now < e0.expiresAt by {
      NotExpired(e, ops, now);
    }
    LiveParts(Kept(Plain(before), ops), e0, rest, now);
    forall x ensures x in older <==> x in Plain(before) && !Gone(x, ops, now) {
      KeptMembers(Plain(before), ops, x, now);
    }
  }

  lemma NotExpired<T>(e: CacheEntry<T>, ops: seq<Operation<T>>, now: int)
    requires !Gone(e, ops, now)
    ensures now < Uncounted(e).expiresAt && !Gone(Uncounted(e), ops, now)
  {
  }

  lemma RunParts<T>(before: seq<CacheEntry<T>>, e: CacheEntry<T>, ops: seq<Operation<T>>, sqrt: real -> real, now: int)
    returns (rest: seq<CacheEntry<T>>)
    requires IsSqrt(sqrt) && WellFormed(before + [e]) && FreshRun(before + [e], ops, sqrt) && !Gone(e, ops, now)
    ensures Plain(Run(before + [e], ops, sqrt)) == Kept(Plain(before), ops) + ([Uncounted(e)] + rest)
  {
    var e0 := Uncounted(e);
    PlainMore(before, e);
    NotExpired(e, ops, now);
    hide *;
    RunIsPlainRun(before + [e], ops, sqrt);
    PlainRunConcat(Plain(before), [e0], ops, sqrt);
    KeptAlone(e0, ops, now);
    rest := PlainRun([], ops, sqrt);
    assert [e0] + [] == [e0];
    PlainRunConcat([e0], [], ops, sqrt);
  }

  lemma PlainMore<T>(before: seq<CacheEntry<T>>, e: CacheEntry<T>)
    ensures Plain(before + [e]) == Plain(before) + [Uncounted(e)]
  {
  }

  lemma LiveParts<T>(a: seq<CacheEntry<T>>, x: CacheEntry<T>, b: seq<CacheEntry<T>>, now: int)
    requires now < x.expiresAt
    ensures Live(a + ([x] + b), now) == Live(a, now) + [x] + Live(b, now)
  {
    hide *;
    LiveConcat(a, [x] + b, now);
    LiveConcat([x], b, now);
    LiveAlone(x, now);
    ThreeParts(Live(a, now), x, Live(b, now));
  }

  lemma ThreeParts<T>(a: seq<T>, x: T, b: seq<T>)
    ensures a + ([x] + b) == a + [x] + b
  {
  }

  lemma LiveAlone<T>(e: CacheEntry<T>, now: int)
    requires now < e.expiresAt
    ensures Live([e], now) == [e]
  {
    assert Live([e][..0], now) == [];
  }

  lemma {:induction false} FirstWithEmbedding<T>(entries: seq<CacheEntry<T>>, q: seq<real>, n: nat) returns (k: nat)
    requires n < |entries| && entries[n].embedding == q
    ensures k <= n && IsFirstWith(entries, q, k)
  {
    if j :| 0 <= j < n && entries[j].embedding == q {
      k := FirstWithEmbedding(entries, q, j);
    } else {
      k := n;
    }
  }

  /** No entry stored earlier with this embedding is left. */
  ghost predicate Unshadowed<T>(before: seq<CacheEntry<T>>, q: seq<real>, ops: seq<Operation<T>>, now: int) {
    forall f :: f in before && f.embedding == q ==> Gone(f, ops, now)
  }

  /** A stored answer is found again: after any run of lookups and insertions before it expires, a
      lookup of its query hits with similarity 1, and it is this very entry that answers exactly when
      no entry stored before it with the same embedding is left. */
  lemma StoredAnswerIsFound<T>(before: seq<CacheEntry<T>>, e: CacheEntry<T>, ops: seq<Operation<T>>, sqrt: real -> real,
                               words: seq<string>, minSimilarity: real, now: int)
    requires IsSqrt(sqrt) && WellFormed(before + [e]) && FreshRun(before + [e], ops, sqrt) && !Gone(e, ops, now)
    requires words != [] && e.embedding == Embed(words, sqrt) && minSimilarity <= 1.0
    ensures var q, after := Embed(words, sqrt), Run(before + [e], ops, sqrt);
            var live := Live(after, now);
            && |q| == DIM && Sized(live)
            && var b := Chosen(live, q, minSimilarity);
               && b >= 0 && Answer(after, q, minSimilarity, now) == Hit(live[b].response, live[b].query, 1.0)
               && (live[b].id == e.id <==> Unshadowed(before, q, ops, now))
               && (Unshadowed(before, q, ops, now) ==>
                   Answer(after, q, minSimilarity, now) == Hit(e.response, e.query, 1.0))
  {
    var q, after := Embed(words, sqrt), Run(before + [e], ops, sqrt);
    var live := Live(after, now);
    var older, newer := LiveAfterRun(before, e, ops, sqrt, now);
    RunIsPlainRun(before + [e], ops, sqrt);
    hide Live, Run, Embed, Gone, FreshRun, Answer, Chosen;
    var m := |older|;
    assert forall j :: 0 <= j < |live| ==> Plain(live)[j] == Uncounted(live[j]);
    assert Plain(live)[m] == Uncounted(e);
    var k := FirstWithEmbedding(live, q, m);
    AnswerIsTheFirst(after, words, sqrt, minSimilarity, now, k);
    OlderIff(before, older, q, ops, now);
    if k < m {
      assert Plain(live)[k] == older[k] && older[k] in Plain(before);
      OlderHasOtherId(before, e, older[k]);
    } else {
      assert forall j :: 0 <= j < m ==> older[j] == Plain(live)[j];
    }
  }

  lemma OlderIff<T>(before: seq<CacheEntry<T>>, older: seq<CacheEntry<T>>, q: seq<real>, ops: seq<Operation<T>>,
                    now: int)
    requires forall x :: x in older <==> x in Plain(before) && !Gone(x, ops, now)
    ensures Unshadowed(before, q, ops, now) <==> forall j :: 0 <= j < |older| ==> older[j].embedding != q
  {
    forall f | f in before
      ensures Uncounted(f) in Plain(before) && (Gone(f, ops, now) <==> Gone(Uncounted(f), ops, now))
    {
      var i :| 0 <= i < |before| && before[i] == f;
      assert Plain(before)[i] == Uncounted(f);
    }
    forall j | 0 <= j < |older| ensures exists f :: f in before && older[j] == Uncounted(f) {
      assert older[j] in older;
      var i :| 0 <= i < |before| && Plain(before)[i] == older[j];
      assert before[i] in before;
    }
    if f :| f in before && f.embedding == q && !Gone(f, ops, now) {
      assert Uncounted(f) in older;
    }
  }

  lemma OlderHasOtherId<T>(before: seq<CacheEntry<T>>, e: CacheEntry<T>, x: CacheEntry<T>)
    requires WellFormed(before + [e]) && x in Plain(before)
    ensures x.id != e.id
  {
    var i :| 0 <= i < |before| && Plain(before)[i] == x;
    assert (before + [e])[i] == before[i] && (before + [e])[|before|] == e;
  }
}
