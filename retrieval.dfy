/**
 * Keyword retrieval (`retrieve_chunks`): the cleaned question is split into
 * tokens, and every stored chunk whose cleaned text contains some token as a
 * substring is returned, walking the requested document ids in order and each
 * document's chunks in stored order.
 */
module Retrieval {
  import opened TextOps
  import opened Chunking
  import opened Documents

  /** A result entry: `{"document_id", "chunk_id", "text"}`. */
  datatype RetrievedChunk = RetrievedChunk(documentId: string, chunkId: nat, text: string)

  /** The result entry for chunk `c` of document `docId`, carrying the chunk's original text. */
  function View(docId: string, c: Chunk): RetrievedChunk {
    RetrievedChunk(docId, c.chunkId, c.text)
  }

  /** The query tokens: the cleaned question split on whitespace. */
  function Tokens(question: string): seq<string> {
    Words(Clean(question))
  }

  /** A chunk is relevant when some query token is a substring of its cleaned text. */
  predicate Relevant(words: seq<string>, c: Chunk) {
    AnyOccurs(words, Clean(c.text))
  }

  /** The matching chunks of one document, in stored order. */
  function Matching(docId: string, chunks: seq<Chunk>, words: seq<string>): seq<RetrievedChunk> {
    if chunks == [] then []
    else (if Relevant(words, chunks[0]) then [View(docId, chunks[0])] else [])
         + Matching(docId, chunks[1..], words)
  }

  /** The chunks retrieved for `ids`, in id order and then chunk order; unknown ids are skipped. */
  function Retrieved(documents: map<string, Document>, ids: seq<string>, words: seq<string>): seq<RetrievedChunk> {
    if ids == [] then []
    else (if ids[0] in documents then Matching(ids[0], documents[ids[0]].chunks, words) else [])
         + Retrieved(documents, ids[1..], words)
  }

  /** Matching distributes over splitting a document's chunk list. */
  lemma {:induction false} MatchingAppend(docId: string, a: seq<Chunk>, b: seq<Chunk>, words: seq<string>)
    ensures Matching(docId, a + b, words) == Matching(docId, a, words) + Matching(docId, b, words)
  {
    if a == [] {
      assert a + b == b;
    } else {
      var ab := a + b;
      assert ab[0] == a[0] && ab[1..] == a[1..] + b;
      MatchingAppend(docId, a[1..], b, words);
      var head := if Relevant(words, a[0]) then [View(docId, a[0])] else [];
      assert Matching(docId, ab, words) == head + Matching(docId, a[1..] + b, words);
      assert Matching(docId, a, words) == head + Matching(docId, a[1..], words);
    }
  }

  /** Retrieval over `a + b` is retrieval over `a` followed by retrieval over `b`. */
  lemma {:induction false} RetrievedAppend(documents: map<string, Document>, a: seq<string>, b: seq<string>, words: seq<string>)
    ensures Retrieved(documents, a + b, words) == Retrieved(documents, a, words) + Retrieved(documents, b, words)
  {
    if a == [] {
      assert a + b == b;
    } else {
      assert (a + b)[1..] == a[1..] + b;
      RetrievedAppend(documents, a[1..], b, words);
    }
  }

  /** An entry is in a document's matches exactly when it is the view of one of its relevant chunks. */
  lemma {:induction false} MatchingIff(docId: string, chunks: seq<Chunk>, words: seq<string>, rc: RetrievedChunk)
    ensures rc in Matching(docId, chunks, words)
        <==> exists k :: 0 <= k < |chunks| && Relevant(words, chunks[k]) && rc == View(docId, chunks[k])
  {
    if chunks != [] {
      MatchingIff(docId, chunks[1..], words, rc);
      if rc in Matching(docId, chunks[1..], words) {
        var k :| 0 <= k < |chunks[1..]| && Relevant(words, chunks[1..][k]) && rc == View(docId, chunks[1..][k]);
        assert chunks[k + 1] == chunks[1..][k];
      }
      if k :| 0 < k < |chunks| && Relevant(words, chunks[k]) && rc == View(docId, chunks[k]) {
        assert chunks[1..][k - 1] == chunks[k];
      }
    }
  }

  /**
   * An entry is retrieved exactly when some requested id names a stored document
   * and the entry is among that document's matches.
   */
  lemma {:induction false} RetrievedIff(documents: map<string, Document>, ids: seq<string>, words: seq<string>, rc: RetrievedChunk)
    ensures rc in Retrieved(documents, ids, words)
        <==> exists i :: 0 <= i < |ids| && ids[i] in documents && rc in Matching(ids[i], documents[ids[i]].chunks, words)
  {
    if ids != [] {
      RetrievedIff(documents, ids[1..], words, rc);
      if rc in Retrieved(documents, ids[1..], words) {
        var i :| 0 <= i < |ids[1..]| && ids[1..][i] in documents && rc in Matching(ids[1..][i], documents[ids[1..][i]].chunks, words);
        assert ids[i + 1] == ids[1..][i];
      }
      if i :| 0 < i < |ids| && ids[i] in documents && rc in Matching(ids[i], documents[ids[i]].chunks, words) {
        assert ids[1..][i - 1] == ids[i];
      }
    }
  }

  /** Every retrieved entry is a relevant chunk of a requested, stored document, with its id and original text. */
  lemma RetrievedSound(documents: map<string, Document>, ids: seq<string>, words: seq<string>, rc: RetrievedChunk)
    requires rc in Retrieved(documents, ids, words)
    ensures rc.documentId in ids && rc.documentId in documents
    ensures exists c :: c in documents[rc.documentId].chunks && Relevant(words, c)
                        && rc.chunkId == c.chunkId && rc.text == c.text
  {
    RetrievedIff(documents, ids, words, rc);
    var i :| 0 <= i < |ids| && ids[i] in documents && rc in Matching(ids[i], documents[ids[i]].chunks, words);
    MatchingIff(ids[i], documents[ids[i]].chunks, words, rc);
  }

  /** With no query tokens nothing matches, whatever the store holds. */
  lemma {:induction false} NoTokensNothingRetrieved(documents: map<string, Document>, ids: seq<string>)
    ensures Retrieved(documents, ids, []) == []
  {
    if ids != [] {
      if ids[0] in documents {
        NoTokensNoMatch(ids[0], documents[ids[0]].chunks);
      }
      NoTokensNothingRetrieved(documents, ids[1..]);
    }
  }

  lemma {:induction false} NoTokensNoMatch(docId: string, chunks: seq<Chunk>)
    ensures Matching(docId, chunks, []) == []
  {
    if chunks != [] {
      NoTokensNoMatch(docId, chunks[1..]);
    }
  }

  /** A question without letters or digits, such as "???", retrieves nothing. */
  lemma NoAlphanumericNothingRetrieved(documents: map<string, Document>, ids: seq<string>, question: string)
    requires forall i :: 0 <= i < |question| ==> !IsKept(LowerChar(question[i])) || IsSpace(question[i])
    ensures Retrieved(documents, ids, Tokens(question)) == []
  {
    NoAlphanumericNoWords(question);
    NoTokensNothingRetrieved(documents, ids);
  }

  /** The requested ids that name stored documents, in order. */
  function KnownIds(documents: map<string, Document>, ids: seq<string>): (r: seq<string>)
    ensures forall i :: 0 <= i < |r| ==> r[i] in documents
  {
    if ids == [] then []
    else (if ids[0] in documents then [ids[0]] else []) + KnownIds(documents, ids[1..])
  }

  /** Ids absent from the store contribute nothing: dropping them leaves the result unchanged. */
  lemma {:induction false} UnknownIdsIgnored(documents: map<string, Document>, ids: seq<string>, words: seq<string>)
    ensures Retrieved(documents, ids, words) == Retrieved(documents, KnownIds(documents, ids), words)
  {
    if ids != [] {
      UnknownIdsIgnored(documents, ids[1..], words);
      var rest := KnownIds(documents, ids[1..]);
      if ids[0] in documents {
        assert KnownIds(documents, ids) == [ids[0]] + rest;
        assert ([ids[0]] + rest)[1..] == rest;
      } else {
        assert KnownIds(documents, ids) == rest;
      }
    }
  }

  /** The inner loop of `retrieve_chunks`: the matching chunks of one document, in order. */
  method MatchChunks(docId: string, chunks: seq<Chunk>, qWords: seq<string>) returns (found: seq<RetrievedChunk>)
    ensures found == Matching(docId, chunks, qWords)
  {
    found := [];
    var j := 0;
    while j < |chunks|
      invariant 0 <= j <= |chunks|
      invariant found == Matching(docId, chunks[..j], qWords)
    {
      var chunkText := Clean(chunks[j].text);
      MatchingAppend(docId, chunks[..j], [chunks[j]], qWords);
      assert chunks[..j + 1] == chunks[..j] + [chunks[j]];
      if AnyOccurs(qWords, chunkText) {
        found := found + [RetrievedChunk(docId, chunks[j].chunkId, chunks[j].text)];
      }
      j := j + 1;
    }
    assert chunks[..j] == chunks;
  }

  /** Retrieval for a question over the requested documents of the store `documents`. */
  method Retrieve(documents: map<string, Document>, documentIds: seq<string>, question: string)
    returns (results: seq<RetrievedChunk>)
    ensures results == Retrieved(documents, documentIds, Tokens(question))
  {
    var qWords := Tokens(question);
    results := [];
    var i := 0;
    while i < |documentIds|
      invariant 0 <= i <= |documentIds|
      invariant results == Retrieved(documents, documentIds[..i], qWords)
    {
      var docId := documentIds[i];
      RetrievedAppend(documents, documentIds[..i], [docId], qWords);
      assert documentIds[..i + 1] == documentIds[..i] + [docId];
      if docId in documents {
        var found := MatchChunks(docId, documents[docId].chunks, qWords);
        results := results + found;
      }
      i := i + 1;
    }
    assert documentIds[..i] == documentIds;
  }
}
