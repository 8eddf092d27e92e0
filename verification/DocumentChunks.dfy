/** Cutting a document into overlapping chunks (rag/document_chunker.py). */
module DocumentChunks {

  datatype Chunk = Chunk(id: nat, text: string, start: nat, end: nat)

  datatype Chunked = Chunks(chunks: seq<Chunk>) | SizeNotPositive | NegativeOverlap | OverlapTooLarge

  function Min(a: nat, b: nat): nat { if a < b then a else b }

  /** The chunks from a start position on: each begins `overlap` before the end of the last. */
  function ChunksFrom(text: string, size: nat, overlap: nat, start: nat, id: nat): seq<Chunk>
    requires overlap < size
    decreases |text| - start
  {
    if start >= |text| then []
    else
      var end := Min(start + size, |text|);
      [Chunk(id, text[start..end], start, end)]
      + (if end == |text| then [] else ChunksFrom(text, size, overlap, end - overlap, id + 1))
  }

  lemma ChunksUnfold(text: string, size: nat, overlap: nat, start: nat, id: nat)
    requires overlap < size && start < |text|
    ensures var end := Min(start + size, |text|);
            ChunksFrom(text, size, overlap, start, id) ==
            [Chunk(id, text[start..end], start, end)]
            + if end == |text| then [] else ChunksFrom(text, size, overlap, end - overlap, id + 1)
  {
  }

  lemma NoChunks(size: nat, overlap: nat)
    requires overlap < size
    ensures ChunksFrom("", size, overlap, 0, 0) == []
  {
  }

  method ChunkText(text: string, chunkSize: int, overlap: int) returns (r: Chunked)
    ensures r.SizeNotPositive? <==> chunkSize <= 0
    ensures r.NegativeOverlap? <==> chunkSize > 0 && overlap < 0
    ensures r.OverlapTooLarge? <==> chunkSize > 0 && 0 <= chunkSize <= overlap
    ensures 0 <= overlap < chunkSize ==> r == Chunks(ChunksFrom(text, chunkSize, overlap, 0, 0))
  {
    hide ChunksFrom;
    if chunkSize <= 0 { return SizeNotPositive; }
    if overlap < 0 { return NegativeOverlap; }
    if overlap >= chunkSize { return OverlapTooLarge; }
    if text == "" {
      NoChunks(chunkSize, overlap);
      return Chunks([]);
    }
    var chunks: seq<Chunk> := [];
    var start, id := 0, 0;
    while start < |text|
      invariant 0 <= start < |text| && id >= 0
      invariant ChunksFrom(text, chunkSize, overlap, 0, 0) == chunks + ChunksFrom(text, chunkSize, overlap, start, id)
      decreases |text| - start
    {
      ChunksUnfold(text, chunkSize, overlap, start, id);
      var end := Min(start + chunkSize, |text|);
      chunks := chunks + [Chunk(id, text[start..end], start, end)];
      if end >= |text| { break; }
      var nextStart := end - overlap;
      if nextStart <= start {
        assert false;
        break;
      }
      start := nextStart;
      id := id + 1;
    }
    return Chunks(chunks);
  }

  // ---- what the chunks are ----

  /** Chunk k carries number k, starts k steps into the text, and is the text between its
      bounds; exactly the last one ends with the text. */
  lemma {:induction false} ChunkAt(text: string, size: nat, overlap: nat, start: nat, id: nat, k: nat)
    requires overlap < size && k < |ChunksFrom(text, size, overlap, start, id)|
    ensures var chunks := ChunksFrom(text, size, overlap, start, id);
            var c := chunks[k];
            && c.id == id + k && c.start == start + k * (size - overlap) && c.start < c.end <= |text|
            && c.end == Min(c.start + size, |text|) && c.text == text[c.start..c.end]
            && (c.end == |text| <==> k == |chunks| - 1)
    decreases k
  {
    var step := size - overlap;
    if k > 0 {
      ChunkAt(text, size, overlap, start + step, id + 1, k - 1);
      StepOn(k, step);
    }
  }

  /** The first chunk and then each later chunk without its first `overlap` characters. */
  function Reassembled(chunks: seq<Chunk>, overlap: nat): string
    requires forall k :: 1 <= k < |chunks| ==> |chunks[k].text| >= overlap
  {
    if chunks == [] then ""
    else if |chunks| == 1 then chunks[0].text
    else Reassembled(chunks[..|chunks| - 1], overlap) + chunks[|chunks| - 1].text[overlap..]
  }

  lemma LaterChunksAreLong(text: string, size: nat, overlap: nat)
    requires overlap < size
    ensures var chunks := ChunksFrom(text, size, overlap, 0, 0);
            forall k :: 1 <= k < |chunks| ==> |chunks[k].text| > overlap
  {
    var chunks := ChunksFrom(text, size, overlap, 0, 0);
    forall k | 1 <= k < |chunks| ensures |chunks[k].text| > overlap {
      ChunkAt(text, size, overlap, 0, 0, k);
      ChunkAt(text, size, overlap, 0, 0, k - 1);
      StepOn(k, size - overlap);
    }
  }

  lemma StepOn(k: nat, step: nat)
    requires k > 0
    ensures k * step == (k - 1) * step + step
  {
  }

  /** Leaving out the overlaps gives the text back. */
  lemma ChunksReassemble(text: string, size: nat, overlap: nat)
    requires overlap < size
    ensures var chunks := ChunksFrom(text, size, overlap, 0, 0);
            && (forall k :: 1 <= k < |chunks| ==> |chunks[k].text| >= overlap)
            && Reassembled(chunks, overlap) == text
  {
    var chunks := ChunksFrom(text, size, overlap, 0, 0);
    LaterChunksAreLong(text, size, overlap);
    if text != "" {
      PrefixReassembles(text, size, overlap, |chunks|);
      ChunkAt(text, size, overlap, 0, 0, |chunks| - 1);
      assert chunks[..|chunks|] == chunks;
    }
  }

  /** A chunk without its overlap continues where the one before it ended. */
  lemma NextContinues(text: string, size: nat, overlap: nat, k: nat)
    requires overlap < size && k + 1 < |ChunksFrom(text, size, overlap, 0, 0)|
    ensures var chunks := ChunksFrom(text, size, overlap, 0, 0);
            var (a, b) := (chunks[k], chunks[k + 1]);
            && |b.text| > overlap && a.end <= b.end <= |text|
            && b.text[overlap..] == text[a.end..b.end]
  {
    var chunks := ChunksFrom(text, size, overlap, 0, 0);
    LaterChunksAreLong(text, size, overlap);
    ChunkAt(text, size, overlap, 0, 0, k);
    ChunkAt(text, size, overlap, 0, 0, k + 1);
    StepOn(k + 1, size - overlap);
    var a, b := chunks[k], chunks[k + 1];
    assert |b.text| > overlap;
    assert b.start + overlap == a.end;
    SliceTail(text, b.start, b.end, overlap);
  }

  lemma SliceTail(text: string, i: nat, j: nat, skip: nat)
    requires i + skip <= j <= |text|
    ensures text[i..j][skip..] == text[i + skip..j]
  {
  }

  lemma ReassembledLast(chunks: seq<Chunk>, overlap: nat, n: nat)
    requires 2 <= n <= |chunks| && forall k :: 1 <= k < n ==> |chunks[k].text| >= overlap
    ensures Reassembled(chunks[..n], overlap) ==
            Reassembled(chunks[..n - 1], overlap) + chunks[n - 1].text[overlap..]
  {
    assert chunks[..n][..n - 1] == chunks[..n - 1];
  }

  lemma {:induction false} PrefixReassembles(text: string, size: nat, overlap: nat, n: nat)
    requires overlap < size && 1 <= n <= |ChunksFrom(text, size, overlap, 0, 0)|
    ensures var chunks := ChunksFrom(text, size, overlap, 0, 0);
            && (forall k :: 1 <= k < n ==> |chunks[k].text| >= overlap)
            && chunks[n - 1].end <= |text|
            && Reassembled(chunks[..n], overlap) == text[..chunks[n - 1].end]
    decreases n
  {
    hide ChunksFrom, Min;
    var chunks := ChunksFrom(text, size, overlap, 0, 0);
    if n > 1 {
      PrefixReassembles(text, size, overlap, n - 1);
      NextContinues(text, size, overlap, n - 2);
      ReassembledLast(chunks, overlap, n);
      var a, b := chunks[n - 2].end, chunks[n - 1].end;
      assert text[..a] + text[a..b] == text[..b];
    } else {
      ChunkAt(text, size, overlap, 0, 0, 0);
      assert chunks[..1] == [chunks[0]];
      assert text[0..chunks[0].end] == text[..chunks[0].end];
    }
  }

  ghost predicate InSomeChunk(chunks: seq<Chunk>, i: int, j: int) {
    exists k :: 0 <= k < |chunks| && chunks[k].start <= i && j <= chunks[k].end
  }

  /** Every stretch of text of length at most overlap + 1 lies in one chunk. */
  lemma {:induction false} ShortStretchInOneChunk(
    text: string, size: nat, overlap: nat, start: nat, id: nat, i: nat, j: nat)
    requires overlap < size && start <= i <= j <= |text| && i < |text| && j - i <= overlap + 1
    ensures InSomeChunk(ChunksFrom(text, size, overlap, start, id), i, j)
    decreases |text| - start
  {
    var chunks := ChunksFrom(text, size, overlap, start, id);
    var end := Min(start + size, |text|);
    if j <= end {
      assert chunks[0].start <= i && j <= chunks[0].end;
    } else {
      var rest := ChunksFrom(text, size, overlap, end - overlap, id + 1);
      ShortStretchInOneChunk(text, size, overlap, end - overlap, id + 1, i, j);
      var k :| 0 <= k < |rest| && rest[k].start <= i && j <= rest[k].end;
      assert chunks[k + 1] == rest[k];
    }
  }

  /** The bound is exact: in any text longer than one chunk, the stretch of length overlap + 2
      that ends one character into the second chunk lies in no chunk. */
  lemma LongerStretchMayBeCut(text: string, size: nat, overlap: nat)
    requires overlap < size < |text|
    ensures !InSomeChunk(ChunksFrom(text, size, overlap, 0, 0), size - overlap - 1, size + 1)
  {
    var chunks := ChunksFrom(text, size, overlap, 0, 0);
    forall k | 0 <= k < |chunks| ensures !(chunks[k].start <= size - overlap - 1 && size + 1 <= chunks[k].end) {
      ChunkAt(text, size, overlap, 0, 0, k);
      if k > 0 {
        StepOn(k, size - overlap);
        NotNegative(k - 1, size - overlap);
      }
    }
  }

  lemma NotNegative(k: nat, step: nat)
    ensures k * step >= 0
  {
  }
}
