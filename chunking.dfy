/**
 * The fixed-size chunker of the ingestion pipeline: the extracted text is cut
 * into consecutive slices of `ChunkSize` characters, numbered from 0.
 */
module Chunking {

  /** The slice length, 500 characters. */
  const ChunkSize: nat := 500

  /** A stored chunk: `{"chunk_id": ..., "text": ...}`. */
  datatype Chunk = Chunk(chunkId: nat, text: string)

  function Min(a: int, b: int): int {
    if a <= b then a else b
  }

  /** Chunk k covers the characters from k * ChunkSize up to the next multiple, cut off at the end of the text. */
  function Window(text: string, k: nat): string
    requires k * ChunkSize <= |text|
  {
    text[k * ChunkSize .. Min(k * ChunkSize + ChunkSize, |text|)]
  }

  /**
   * `cs` is the chunking of `text`: one chunk per start offset 0, size, 2*size, ...
   * below `|text|`, chunk k numbered k and holding window k.
   */
  ghost predicate ChunkingOf(cs: seq<Chunk>, text: string) {
    |text| <= |cs| * ChunkSize
    && (|cs| == 0 || (|cs| - 1) * ChunkSize < |text|)
    && forall k :: 0 <= k < |cs| ==> k * ChunkSize < |text| && cs[k] == Chunk(k, Window(text, k))
  }

  /** The chunk texts concatenated in order. */
  function Joined(cs: seq<Chunk>): string {
    if cs == [] then [] else Joined(cs[..|cs| - 1]) + cs[|cs| - 1].text
  }

  lemma {:induction false} JoinedPrefix(cs: seq<Chunk>, text: string, n: nat)
    requires ChunkingOf(cs, text)
    requires n <= |cs|
    ensures Joined(cs[..n]) == text[..Min(n * ChunkSize, |text|)]
  {
    if n > 0 {
      JoinedPrefix(cs, text, n - 1);
      assert cs[..n][..n - 1] == cs[..n - 1];
      var lo := (n - 1) * ChunkSize;
      assert lo + ChunkSize == n * ChunkSize;
      assert lo < |text|;
      assert text[..lo] + text[lo..Min(lo + ChunkSize, |text|)] == text[..Min(n * ChunkSize, |text|)];
    }
  }

  /** Chunking is lossless: the chunks put back together give the text. */
  lemma ChunkingLossless(cs: seq<Chunk>, text: string)
    requires ChunkingOf(cs, text)
    ensures Joined(cs) == text
  {
    JoinedPrefix(cs, text, |cs|);
    assert cs[..|cs|] == cs;
  }

  /**
   * Chunking is bounded: every chunk is non-empty and at most `ChunkSize` long,
   * every chunk but the last is exactly `ChunkSize` long, and only empty text
   * has no chunks.
   */
  lemma ChunkingBounded(cs: seq<Chunk>, text: string)
    requires ChunkingOf(cs, text)
    ensures forall k :: 0 <= k < |cs| ==> cs[k].chunkId == k && 0 < |cs[k].text| <= ChunkSize
    ensures forall k :: 0 <= k < |cs| - 1 ==> |cs[k].text| == ChunkSize
    ensures cs == [] <==> text == []
  {
    forall k | 0 <= k < |cs| - 1
      ensures |cs[k].text| == ChunkSize
    {
      assert (k + 1) * ChunkSize <= (|cs| - 1) * ChunkSize;
    }
  }

  /** The chunking loop of document processing: one chunk per ChunkSize-aligned offset below the length, appended in order. */
  method ChunkText(text: string) returns (chunks: seq<Chunk>)
    ensures ChunkingOf(chunks, text)
    ensures Joined(chunks) == text
    ensures forall k :: 0 <= k < |chunks| ==> chunks[k].chunkId == k && 0 < |chunks[k].text| <= ChunkSize
  {
    chunks := [];
    var i := 0;
    while i < |text|
      invariant i == |chunks| * ChunkSize
      invariant |chunks| == 0 || (|chunks| - 1) * ChunkSize < |text|
      invariant forall k :: 0 <= k < |chunks| ==> k * ChunkSize < |text| && chunks[k] == Chunk(k, Window(text, k))
      invariant Joined(chunks) == text[..Min(i, |text|)]
    {
      var c := Chunk(|chunks|, text[i..Min(i + ChunkSize, |text|)]);
      assert (chunks + [c])[..|chunks|] == chunks;
      assert text[..i] + c.text == text[..Min(i + ChunkSize, |text|)];
      chunks := chunks + [c];
      i := i + ChunkSize;
    }
    ChunkingBounded(chunks, text);
  }
}
