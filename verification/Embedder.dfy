/** The recursion of embedSingle (src/embedder.ts:859-977): embed, and on a context-length error chunk
    the text and embed the chunks one level deeper. The provider may answer anything, differently on
    every call; the cache may drop any entry at any time. */
module Embedder {
  import opened Common
  import Chunker

  datatype Reply = Vector(v: seq<real>) | ContextError | OtherError

  datatype Result = Embedded(v: seq<real>) | Failed

  // How an embedding came about.
  datatype Origin = Answered(time: nat) | FromHalf(half: Origin)
    | FromChunks(vectors: seq<seq<real>>, parts: seq<Origin>)

  datatype Request = Request(text: string, depth: nat)

  const MAX_EMBED_DEPTH := 3

  function Power2(n: nat): nat {
    if n == 0 then 1 else 2 * Power2(n - 1)
  }

  // part is a contiguous piece of text.
  ghost predicate IsSlice(part: string, text: string) {
    exists i: nat, j: nat :: i <= j <= |text| && part == text[i..j]
  }

  lemma DropTake(s: string, k: nat, m: nat, i: nat, j: nat)
    requires k <= m <= |s| && i <= j <= m - k
    ensures s[k..m][i..j] == s[k + i..k + j]
  {
    var inner := s[k..m];
    assert forall x :: i <= x < j ==> inner[x] == s[k + x];
  }

  lemma SliceOfSlice(a: string, b: string, c: string)
    requires IsSlice(a, b) && IsSlice(b, c)
    ensures IsSlice(a, c)
  {
    var i: nat, j: nat :| i <= j <= |b| && a == b[i..j];
    var k: nat, m: nat :| k <= m <= |c| && b == c[k..m];
    DropTake(c, k, m, i, j);
    assert a == c[k + i..k + j];
  }

  // How often a request at this depth has seen its text halved.
  function Halvings(from: nat, depth: nat): nat {
    var first := if from < MAX_EMBED_DEPTH then MAX_EMBED_DEPTH else from;
    if depth < first then 0 else depth - first + 1
  }

  // What holds of every text sent to the provider while embedding the given one.
  ghost predicate RequestOk(r: Request, text: string, depth: nat) {
    && r.depth >= depth
    && IsSlice(r.text, text)
    && (r.depth >= MAX_EMBED_DEPTH ==> |r.text| >= 100)
    && |r.text| * Power2(Halvings(depth, r.depth)) <= |text|
  }

  ghost predicate RequestsOk(rs: seq<Request>, text: string, depth: nat) {
    forall r :: r in rs ==> RequestOk(r, text, depth)
  }

  lemma MulMono(a: nat, b: nat, k: nat)
    requires a <= b
    ensures a * k <= b * k
  {
  }

  // From a piece embedded one level deeper to the text it was cut from.
  lemma Deeper(r: Request, part: string, text: string, depth: nat)
    requires RequestOk(r, part, depth + 1) && IsSlice(part, text)
    requires if depth >= MAX_EMBED_DEPTH then 2 * |part| <= |text| else |part| <= |text|
    ensures RequestOk(r, text, depth)
  {
    SliceOfSlice(r.text, part, text);
    var h, h' := Halvings(depth + 1, r.depth), Halvings(depth, r.depth);
    if depth >= MAX_EMBED_DEPTH {
      assert h' == h + 1;
      assert |r.text| * Power2(h') == 2 * (|r.text| * Power2(h));
    } else {
      assert h' == h;
    }
  }

  lemma AllDeeper(rs: seq<Request>, part: string, text: string, depth: nat)
    requires RequestsOk(rs, part, depth + 1) && IsSlice(part, text)
    requires if depth >= MAX_EMBED_DEPTH then 2 * |part| <= |text| else |part| <= |text|
    ensures RequestsOk(rs, text, depth)
  {
    forall r | r in rs ensures RequestOk(r, text, depth) {
      Deeper(r, part, text, depth);
    }
  }

  lemma HereOk(part: string, text: string, depth: nat)
    requires IsSlice(part, text)
    requires if depth >= MAX_EMBED_DEPTH then 2 * |part| <= |text| && |part| >= 100 else part == text
    ensures RequestOk(Request(part, depth), text, depth)
  {
    if depth >= MAX_EMBED_DEPTH { assert Power2(1) == 2; }
  }

  lemma ChunkIsPiece(part: string, cfg: Chunker.Config, c: Chunker.Chunk, text: string)
    requires c in Chunker.DocumentChunks(part, cfg) && IsSlice(part, text)
    ensures IsSlice(c.text, text) && |c.text| <= |part|
  {
    Chunker.ChunksAreSlices(part, cfg, c);
    assert c.text == part[c.startIndex..c.endIndex];
    SliceOfSlice(c.text, part, text);
  }

  function Column(vectors: seq<seq<real>>, k: nat): real {
    if vectors == [] then 0.0
    else
      var n := |vectors| - 1;
      Column(vectors[..n], k) + (if k < |vectors[n]| then vectors[n][k] else 0.0)
  }

  function Mean(vectors: seq<seq<real>>, dimensions: nat): seq<real>
    requires vectors != []
  {
    seq(dimensions, k requires 0 <= k < dimensions => Column(vectors, k) / |vectors| as real)
  }

  // The component-wise mean of the chunk embeddings.
  method Average(vectors: seq<seq<real>>, dimensions: nat) returns (mean: seq<real>)
    requires vectors != [] && forall v :: v in vectors ==> |v| == dimensions
    ensures mean == Mean(vectors, dimensions)
  {
    var sum := seq(dimensions, _ => 0.0);
    for i := 0 to |vectors|
      invariant |sum| == dimensions && forall k :: 0 <= k < dimensions ==> sum[k] == Column(vectors[..i], k)
    {
      assert vectors[..i + 1][..i] == vectors[..i];
      assert vectors[i] in vectors;
      sum := seq(dimensions, k requires 0 <= k < dimensions => sum[k] + vectors[i][k]);
    }
    assert vectors[..|vectors|] == vectors;
    mean := seq(dimensions, k requires 0 <= k < dimensions => sum[k] / |vectors| as real);
  }

  class Embedder {
    const dimensions: nat
    const autoChunk: bool
    const base: nat
    const cjkHeavy: string -> bool
    // The provider's answer, and whether the cache has dropped an entry, at the given point in time.
    const provider: (nat, string) -> Reply
    const dropped: nat -> bool
    var clock: nat
    var cache: map<string, seq<real>>
    ghost var requests: seq<Request>

    constructor (dimensions: nat, autoChunk: bool, base: nat, cjkHeavy: string -> bool,
                 provider: (nat, string) -> Reply, dropped: nat -> bool)
      ensures Valid() && requests == []
    {
      this.dimensions, this.autoChunk, this.base := dimensions, autoChunk, base;
      this.cjkHeavy, this.provider, this.dropped := cjkHeavy, provider, dropped;
      clock, cache, requests := 0, map[], [];
    }

    function ChunksOf(text: string): seq<Chunker.Chunk> {
      Chunker.DocumentChunks(text, Chunker.SmartConfig(base, cjkHeavy(text)))
    }

    // v embeds the text: the provider answered it for the text, or it embeds the first half, or it is the
    // mean of embeddings of the chunks. The chunks need not cover the text (Chunker.SmartChunkCoversAllIff), and
    // the first half does not: then v says nothing about the rest.
    ghost predicate Embeds(v: seq<real>, text: string, origin: Origin)
      decreases origin
    {
      |v| == dimensions &&
      match origin
      case Answered(time) => provider(time, text) == Vector(v)
      case FromHalf(half) => Embeds(v, text[..|text| / 2], half)
      case FromChunks(vectors, parts) =>
        && |vectors| == |parts| == |ChunksOf(text)| > 0 && v == Mean(vectors, dimensions)
        && forall i :: 0 <= i < |parts| ==> Embeds(vectors[i], ChunksOf(text)[i].text, parts[i])
    }

    ghost predicate Means(v: seq<real>, text: string) {
      exists origin :: Embeds(v, text, origin)
    }

    // The first chunks, embedded one by one.
    ghost predicate AllMean(vectors: seq<seq<real>>, chunks: seq<Chunker.Chunk>) {
      |vectors| <= |chunks| && forall i :: 0 <= i < |vectors| ==> Means(vectors[i], chunks[i].text)
    }

    lemma OneMoreMeans(vectors: seq<seq<real>>, chunks: seq<Chunker.Chunk>, v: seq<real>)
      requires AllMean(vectors, chunks) && |vectors| < |chunks| && Means(v, chunks[|vectors|].text)
      ensures AllMean(vectors + [v], chunks)
    {
    }

    ghost predicate Valid()
      reads this
    {
      forall text :: text in cache ==> Means(cache[text], text)
    }

    lemma HalfMeans(v: seq<real>, text: string)
      requires Means(v, text[..|text| / 2])
      ensures Means(v, text)
    {
      var half :| Embeds(v, text[..|text| / 2], half);
      assert Embeds(v, text, FromHalf(half));
    }

    lemma {:induction false} Origins(vectors: seq<seq<real>>, chunks: seq<Chunker.Chunk>) returns (parts: seq<Origin>)
      requires AllMean(vectors, chunks)
      ensures |parts| == |vectors| && forall i :: 0 <= i < |parts| ==> Embeds(vectors[i], chunks[i].text, parts[i])
    {
      parts := [];
      if vectors != [] {
        var k := |vectors| - 1;
        parts := Origins(vectors[..k], chunks);
        assert Means(vectors[k], chunks[k].text);
        var last :| Embeds(vectors[k], chunks[k].text, last);
        parts := parts + [last];
      }
    }

    lemma MeanMeans(vectors: seq<seq<real>>, text: string)
      requires |vectors| == |ChunksOf(text)| > 0 && AllMean(vectors, ChunksOf(text))
      ensures Means(Mean(vectors, dimensions), text)
    {
      var parts := Origins(vectors, ChunksOf(text));
      assert Embeds(Mean(vectors, dimensions), text, FromChunks(vectors, parts));
    }

    // The provider always answers with a vector of the right dimension.
    ghost predicate Reliable() {
      forall time, text :: provider(time, text).Vector? && |provider(time, text).v| == dimensions
    }

    // It takes every text up to the limit, and refuses a longer one only for its length.
    ghost predicate Accepts(limit: nat) {
      && (forall time, text :: provider(time, text).Vector? ==> |provider(time, text).v| == dimensions)
      && (forall time, text :: !provider(time, text).OtherError?)
      && forall time, text :: |text| <= limit ==> provider(time, text).Vector?
    }

    // No chunk of the text is longer than the limit.
    ghost predicate Fits(limit: nat, text: string) {
      Chunker.SmartConfig(base, cjkHeavy(text)).maxChunkSize <= limit
    }

    // Every text at least this deep that is within a limit of the provider is embedded at once.
    ghost predicate Direct(text: string, depth: nat, r: Result) {
      !BlankText(text) && depth < MAX_EMBED_DEPTH ==>
        forall limit: nat :: Accepts(limit) && |text| <= limit ==> r.Embedded?
    }

    // A text with a chunk is embedded, however long, if its chunks are within the limit.
    ghost predicate InPieces(text: string, depth: nat, r: Result) {
      !BlankText(text) && depth + 1 < MAX_EMBED_DEPTH && autoChunk && ChunksOf(text) != [] ==>
        forall limit: nat :: Accepts(limit) && Fits(limit, text) ==> r.Embedded?
    }

    // One provider call; a vector of the wrong dimension is an error like any other.
    method Ask(text: string, depth: nat) returns (r: Reply)
      requires Valid()
      modifies this`clock, this`cache, this`requests
      ensures Valid() && requests == old(requests) + [Request(text, depth)]
      ensures r.Vector? ==> Means(r.v, text)
      ensures Reliable() ==> r.Vector?
      ensures forall limit: nat :: Accepts(limit) ==> !r.OtherError? && (|text| <= limit ==> r.Vector?)
    {
      requests := requests + [Request(text, depth)];
      r := provider(clock, text);
      clock := clock + 1;
      if r.Vector? {
        if |r.v| != dimensions { return OtherError; }
        assert Embeds(r.v, text, Answered(old(clock)));
        cache := cache[text := r.v];
      }
    }

    // Terminates for every text and every provider: below the depth limit the depth grows, from it on
    // the text at least halves. Everything sent is a piece of the document.
    method EmbedSingle(text: string, depth: nat) returns (r: Result)
      requires Valid()
      modifies this`clock, this`cache, this`requests
      ensures Valid()
      ensures r.Embedded? ==> Means(r.v, text)
      ensures BlankText(text) ==> r == Failed && requests == old(requests)
      ensures !BlankText(text) && depth < MAX_EMBED_DEPTH && Reliable() ==> r.Embedded?
      ensures Direct(text, depth, r) && InPieces(text, depth, r)
      ensures old(requests) <= requests && RequestsOk(requests[|old(requests)|..], text, depth)
      decreases Chunker.Max(0, MAX_EMBED_DEPTH - depth), |text|
    {
      if BlankText(text) { return Failed; }
      var part := text;
      if depth >= MAX_EMBED_DEPTH {
        if |text| / 2 < 100 { return Failed; }
        part := text[..|text| / 2];
      }
      assert IsSlice(part, text) by { assert part == text[0..|part|]; }
      clock := clock + 1;
      if part in cache && !dropped(clock) {
        PartMeans(cache[part], part, text);
        return Embedded(cache[part]);
      }
      ghost var before := requests;
      var reply := Ask(part, depth);
      assert RequestOk(Request(part, depth), text, depth) by { HereOk(part, text, depth); }
      if reply.Vector? {
        PartMeans(reply.v, part, text);
        return Embedded(reply.v);
      }
      if reply.OtherError? || !autoChunk { return Failed; }
      r := EmbedChunks(part, text, depth);
      if r.Embedded? { PartMeans(r.v, part, text); }
    }

    lemma PartMeans(v: seq<real>, part: string, text: string)
      requires Means(v, part) && (part == text || part == text[..|text| / 2])
      ensures Means(v, text)
    {
      if part != text { HalfMeans(v, text); }
    }

    // The catch clause: chunk the text and embed the pieces.
    method EmbedChunks(part: string, ghost text: string, depth: nat) returns (r: Result)
      requires Valid() && IsSlice(part, text)
      requires if depth >= MAX_EMBED_DEPTH then 2 * |part| <= |text| && |part| >= 100 else |part| <= |text|
      modifies this`clock, this`cache, this`requests
      ensures Valid()
      ensures r.Embedded? ==> Means(r.v, part)
      ensures depth + 1 < MAX_EMBED_DEPTH && ChunksOf(part) != [] ==>
        forall limit: nat :: Accepts(limit) && Fits(limit, part) && limit < |part| ==> r.Embedded?
      ensures old(requests) <= requests && RequestsOk(requests[|old(requests)|..], text, depth)
      decreases Chunker.Max(0, MAX_EMBED_DEPTH - depth), |text|, 2
    {
      var cfg := Chunker.SmartConfig(base, cjkHeavy(part));
      var chunks := Chunker.ChunkDocument(part, cfg);
      if chunks == [] { return Failed; }
      if |chunks| == 1 && |chunks[0].text| as real > |part| as real * 0.9 {
        if |part| / 2 < 100 {
          Chunker.SmartConfigIsSound(base, cjkHeavy(part));
          return Failed;
        }
        HalfIsVisible(part, chunks);
        r := EmbedHalf(part, text, depth);
        return;
      }
      r := EmbedEach(part, text, depth, chunks);
    }

    // Its first half has something visible, and is within a limit of the chunk.
    lemma HalfIsVisible(part: string, chunks: seq<Chunker.Chunk>)
      requires chunks == ChunksOf(part) && |chunks| == 1 && |part| >= 2
      requires |chunks[0].text| as real > |part| as real * 0.9
      ensures !BlankText(part[..|part| / 2]) && forall limit: nat :: Fits(limit, part) ==> |part| / 2 <= limit
    {
      var cfg, c := Chunker.SmartConfig(base, cjkHeavy(part)), chunks[0];
      Chunker.SmartConfigIsSound(base, cjkHeavy(part));
      Chunker.ChunksAreSlices(part, cfg, c);
      Chunker.ChunkIsVisible(part, cfg, c);
      var half := part[..|part| / 2];
      assert |c.text| == c.endIndex - c.startIndex;
      assert c.startIndex as real < |part| as real * 0.1;
      assert half[c.startIndex] == part[c.startIndex] && half[c.startIndex] in half;
    }

    // A single chunk as large as the text: cut the text in half instead.
    method EmbedHalf(part: string, ghost text: string, depth: nat) returns (r: Result)
      requires Valid() && IsSlice(part, text) && |part| / 2 >= 100
      requires if depth >= MAX_EMBED_DEPTH then 2 * |part| <= |text| else |part| <= |text|
      modifies this`clock, this`cache, this`requests
      ensures Valid()
      ensures r.Embedded? ==> Means(r.v, part)
      ensures Direct(part[..|part| / 2], depth + 1, r)
      ensures old(requests) <= requests && RequestsOk(requests[|old(requests)|..], text, depth)
      decreases Chunker.Max(0, MAX_EMBED_DEPTH - depth), |text|, 1
    {
      var truncated := part[..|part| / 2];
      assert truncated == part[0..|truncated|];
      SliceOfSlice(truncated, part, text);
      r := EmbedSingle(truncated, depth + 1);
      if r.Embedded? { HalfMeans(r.v, part); }
      AllDeeper(requests[|old(requests)|..], truncated, text, depth);
    }

    // Promise.all over the chunks, then their average.
    method EmbedEach(part: string, ghost text: string, depth: nat, chunks: seq<Chunker.Chunk>)
      returns (r: Result)
      requires Valid() && IsSlice(part, text) && chunks == ChunksOf(part) && chunks != []
      requires if depth >= MAX_EMBED_DEPTH then 2 * |part| <= |text| && |part| >= 100 else |part| <= |text|
      modifies this`clock, this`cache, this`requests
      ensures Valid()
      ensures r.Embedded? ==> Means(r.v, part)
      ensures depth + 1 < MAX_EMBED_DEPTH ==>
        forall limit: nat :: Accepts(limit) && Fits(limit, part) ==> r.Embedded?
      ensures old(requests) <= requests && RequestsOk(requests[|old(requests)|..], text, depth)
      decreases Chunker.Max(0, MAX_EMBED_DEPTH - depth), |text|, 1
    {
      var vectors := [];
      var ok := true;
      for i := 0 to |chunks|
        invariant Valid() && (ok ==> |vectors| == i && AllMean(vectors, chunks))
        invariant depth + 1 < MAX_EMBED_DEPTH ==> forall limit: nat :: Accepts(limit) && Fits(limit, part) ==> ok
        invariant old(requests) <= requests && RequestsOk(requests[|old(requests)|..], text, depth)
      {
        ChunkIsPiece(part, Chunker.SmartConfig(base, cjkHeavy(part)), chunks[i], text);
        ChunkIsShort(part, chunks[i]);
        var one := EmbedPiece(chunks[i].text, text, depth, part);
        if ok && one.Embedded? {
          OneMoreMeans(vectors, chunks, one.v);
          vectors := vectors + [one.v];
        } else {
          ok := false;
        }
      }
      if !ok { return Failed; }
      MeansAreVectors(vectors, chunks);
      var mean := Average(vectors, dimensions);
      MeanMeans(vectors, part);
      cache := cache[part := mean];
      return Embedded(mean);
    }

    lemma ChunkIsShort(part: string, c: Chunker.Chunk)
      requires c in ChunksOf(part)
      ensures !BlankText(c.text) && forall limit: nat :: Fits(limit, part) ==> |c.text| <= limit
    {
      var cfg := Chunker.SmartConfig(base, cjkHeavy(part));
      Chunker.SmartConfigIsSound(base, cjkHeavy(part));
      Chunker.ChunksAreSlices(part, cfg, c);
      Chunker.ChunkIsVisible(part, cfg, c);
    }

    lemma MeansAreVectors(vectors: seq<seq<real>>, chunks: seq<Chunker.Chunk>)
      requires AllMean(vectors, chunks)
      ensures forall v :: v in vectors ==> |v| == dimensions
    {
      forall k | 0 <= k < |vectors| ensures |vectors[k]| == dimensions { assert Means(vectors[k], chunks[k].text); }
    }

    // One chunk, one level deeper.
    method EmbedPiece(chunk: string, ghost text: string, depth: nat, ghost part: string) returns (one: Result)
      requires Valid() && IsSlice(chunk, text) && |chunk| <= |part|
      requires if depth >= MAX_EMBED_DEPTH then 2 * |part| <= |text| && |part| >= 100 else |part| <= |text|
      modifies this`clock, this`cache, this`requests
      ensures Valid()
      ensures one.Embedded? ==> Means(one.v, chunk)
      ensures Direct(chunk, depth + 1, one)
      ensures old(requests) <= requests && RequestsOk(requests[|old(requests)|..], text, depth)
      ensures forall before: seq<Request> ::
        before <= old(requests) && RequestsOk(old(requests)[|before|..], text, depth) ==>
        before <= requests && RequestsOk(requests[|before|..], text, depth)
      decreases Chunker.Max(0, MAX_EMBED_DEPTH - depth), |text|, 0
    {
      one := EmbedSingle(chunk, depth + 1);
      AllDeeper(requests[|old(requests)|..], chunk, text, depth);
      forall before: seq<Request> | before <= old(requests) && RequestsOk(old(requests)[|before|..], text, depth)
        ensures before <= requests && RequestsOk(requests[|before|..], text, depth)
      {
        assert requests[|before|..] == old(requests)[|before|..] + requests[|old(requests)|..];
      }
    }
  }

  // The recursion is at most logarithmically deep: a request k levels past the limit needs a document of
  // at least 100 * 2^(k + 1) characters.
  lemma DepthIsLogarithmic(r: Request, text: string)
    requires RequestOk(r, text, 0) && r.depth >= MAX_EMBED_DEPTH
    ensures 100 * Power2(r.depth - MAX_EMBED_DEPTH + 1) <= |text|
  {
    MulMono(100, |r.text|, Power2(r.depth - MAX_EMBED_DEPTH + 1));
  }
}
