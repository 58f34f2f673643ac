/**
 * The in-memory answering service: the document store and the session store
 * (the process-wide dictionaries `documents` and `sessions`) and the operations
 * that read and update them: upload, ingestion, status and chunk lookups,
 * question answering and history reads.
 *
 * The completion service is not called: its response is a parameter of `Ask`.
 * The fresh document id, the text the extractor produced (or its
 * failure) and the outcome of removing the temporary upload file are
 * parameters too.
 */
module Backend {
  import opened Wrappers
  import opened Chunking
  import opened Documents
  import opened FileTypes
  import opened Retrieval
  import opened Prompting

  datatype Role = User | Assistant

  /** A history entry: `{"role", "content"}`. */
  datatype Turn = Turn(role: Role, content: string)

  /** The 404 ("Not found") and 400 ("Not processed yet") answers of the lookups. */
  datatype LookupError = NotFound | NotReady

  /** The 400 ("Unsupported file type") answer of `upload`. */
  datatype UploadError = UnsupportedFileType

  /** `response.usage_metadata`: each counter may be missing. */
  datatype Usage = Usage(promptTokenCount: Option<nat>, candidatesTokenCount: Option<nat>, totalTokenCount: Option<nat>)

  /** The completion service's response: the answer text and, possibly, usage metadata. */
  datatype Completion = Completion(text: string, usage: Option<Usage>)

  datatype TokenUsage = TokenUsage(promptTokens: nat, candidatesTokens: nat, totalTokens: nat)

  /** The body `ask` returns. */
  datatype AnswerRecord = AnswerRecord(
    answer: string,
    sessionId: string,
    sourceChunks: seq<RetrievedChunk>,
    batchSize: nat,
    tokensUsed: TokenUsage)

  /** The sentinel answer when nothing was retrieved. */
  const NotFoundAnswer: string := "Answer not found in the provided documents."

  /** The three token counters of a response, each reading as 0 when missing. */
  function TokensUsed(usage: Option<Usage>): TokenUsage {
    match usage
    case None => TokenUsage(0, 0, 0)
    case Some(u) => TokenUsage(u.promptTokenCount.GetOr(0), u.candidatesTokenCount.GetOr(0), u.totalTokenCount.GetOr(0))
  }

  /** A history made of (user, assistant) turn pairs. */
  ghost predicate Alternating(h: seq<Turn>) {
    |h| % 2 == 0 && forall k :: 0 <= k < |h| ==> h[k].role == (if k % 2 == 0 then User else Assistant)
  }

  /** Appending a question and its answer keeps a history alternating. */
  lemma AlternatingExtend(h: seq<Turn>, question: string, answer: string)
    requires Alternating(h)
    ensures Alternating(h + [Turn(User, question), Turn(Assistant, answer)])
  {
    var h' := h + [Turn(User, question), Turn(Assistant, answer)];
    forall k | 0 <= k < |h'|
      ensures h'[k].role == (if k % 2 == 0 then User else Assistant)
    {
      if k == |h| {
        assert k % 2 == 0;
      } else if k == |h| + 1 {
        assert k % 2 == 1;
      }
    }
  }

  /** The text extracted for `id`, if its extraction succeeded. */
  function TextOf(extracted: map<string, string>, id: string): Option<string> {
    if id in extracted then Some(extracted[id]) else None
  }

  /**
   * The invariant of one document entry: it is "processing" exactly while its
   * ingestion task is pending; without extracted text it holds no chunks; with
   * extracted text it is no longer processing and holds exactly the chunking of
   * that text; a completed entry has extracted text.
   */
  ghost predicate EntryInvariant(d: Document, isPending: bool, text: Option<string>) {
    (isPending <==> d.status == Processing)
    && (d.status == Completed ==> text.Some?)
    && match text {
         case None => d.chunks == []
         case Some(t) => d.status != Processing && ChunkingOf(d.chunks, t)
       }
  }

  /** The document-store invariant: every entry's invariant, with pending tasks and texts only for stored ids. */
  ghost predicate StoreInvariant(documents: map<string, Document>, pending: set<string>, extracted: map<string, string>) {
    pending <= documents.Keys
    && extracted.Keys <= documents.Keys
    && forall id :: id in documents ==> EntryInvariant(documents[id], id in pending, TextOf(extracted, id))
  }

  /** The session-store invariant: every history is a run of (user, assistant) pairs. */
  ghost predicate HistoriesAlternate(sessions: map<string, seq<Turn>>) {
    forall sid :: sid in sessions ==> Alternating(sessions[sid])
  }

  /** Adding a fresh entry in state "processing" with a scheduled task keeps the store invariant. */
  lemma UploadKeepsInvariant(documents: map<string, Document>, pending: set<string>, extracted: map<string, string>,
                             id: string, filename: string)
    requires StoreInvariant(documents, pending, extracted)
    requires id !in documents
    ensures StoreInvariant(documents[id := Document(filename, Processing, [])], pending + {id}, extracted)
  {
    var documents' := documents[id := Document(filename, Processing, [])];
    forall id' | id' in documents'
      ensures EntryInvariant(documents'[id'], id' in pending + {id}, TextOf(extracted, id'))
    {
      if id' != id {
        assert documents'[id'] == documents[id'];
      }
    }
  }

  /** A pending document that fails without extracted text keeps the store invariant. */
  lemma FailureKeepsInvariant(documents: map<string, Document>, pending: set<string>, extracted: map<string, string>,
                              id: string)
    requires StoreInvariant(documents, pending, extracted)
    requires id in pending
    ensures StoreInvariant(documents[id := documents[id].(status := Failed)], pending - {id}, extracted)
  {
    var documents' := documents[id := documents[id].(status := Failed)];
    forall id' | id' in documents'
      ensures EntryInvariant(documents'[id'], id' in pending - {id}, TextOf(extracted, id'))
    {
      if id' == id {
        assert EntryInvariant(documents[id], true, TextOf(extracted, id));
      } else {
        assert documents'[id'] == documents[id'];
      }
    }
  }

  /**
   * A pending document that receives the chunking of its extracted text, in any
   * status but "processing", keeps the store invariant.
   */
  lemma ExtractionKeepsInvariant(documents: map<string, Document>, pending: set<string>, extracted: map<string, string>,
                                 id: string, text: string, chunks: seq<Chunk>, status: DocumentStatus)
    requires StoreInvariant(documents, pending, extracted)
    requires id in pending && status != Processing
    requires ChunkingOf(chunks, text)
    ensures StoreInvariant(documents[id := Document(documents[id].filename, status, chunks)], pending - {id},
                           extracted[id := text])
  {
    var documents' := documents[id := Document(documents[id].filename, status, chunks)];
    var extracted' := extracted[id := text];
    forall id' | id' in documents'
      ensures EntryInvariant(documents'[id'], id' in pending - {id}, TextOf(extracted', id'))
    {
      if id' != id {
        assert documents'[id'] == documents[id'];
        assert TextOf(extracted', id') == TextOf(extracted, id');
      }
    }
  }

  /** Replacing one history by an alternating one keeps every history alternating. */
  lemma HistoryUpdateKeepsAlternation(sessions: map<string, seq<Turn>>, sid: string, h: seq<Turn>)
    requires HistoriesAlternate(sessions)
    requires Alternating(h)
    ensures HistoriesAlternate(sessions[sid := h])
  {
  }

  class Service {
    /** `documents`: document id to entry. */
    var documents: map<string, Document>
    /** `sessions`: session id to history. */
    var sessions: map<string, seq<Turn>>
    /** The ids whose ingestion task is scheduled and has not run yet. */
    ghost var pending: set<string>
    /** For every document whose extraction succeeded, the extracted text. */
    ghost var extracted: map<string, string>

    /** The object invariant: both stores' invariants. */
    ghost predicate Valid()
      reads this
    {
      StoreInvariant(documents, pending, extracted) && HistoriesAlternate(sessions)
    }

    constructor ()
      ensures Valid()
      ensures documents == map[] && sessions == map[] && pending == {}
    {
      documents := map[];
      sessions := map[];
      pending := {};
      extracted := map[];
    }

    /**
     * `upload`: reject an unsupported extension before touching the store;
     * otherwise add the entry for `freshId` in state "processing" with no chunks
     * and schedule its ingestion.
     */
    method Upload(filename: string, freshId: string) returns (r: Result<string, UploadError>)
      requires Valid()
      requires freshId !in documents
      modifies this
      ensures Valid()
      ensures r.Failure? <==> !IsSupported(Extension(filename))
      ensures r.Failure? ==> r.error == UnsupportedFileType && documents == old(documents) && pending == old(pending)
      ensures r.Success? ==>
                r.value == freshId
                && documents == old(documents)[freshId := Document(filename, Processing, [])]
                && pending == old(pending) + {freshId}
      ensures sessions == old(sessions) && extracted == old(extracted)
    {
      var ext := Extension(filename);
      if !IsSupported(ext) {
        return Failure(UnsupportedFileType);
      }
      UploadKeepsInvariant(documents, pending, extracted, freshId, filename);
      documents := documents[freshId := Document(filename, Processing, [])];
      pending := pending + {freshId};
      r := Success(freshId);
    }

    /**
     * Background processing of an upload: `extraction` is the extracted text,
     * or `None` when extraction failed, and `removed` whether deleting the temporary file
     * succeeded. On success the chunks are stored and the status becomes
     * "completed"; a failing removal then turns it to "failed" with the chunks
     * left in place; a failing extraction turns it to "failed" with no chunks.
     * No other entry changes.
     */
    method ProcessDocument(docId: string, extraction: Option<string>, removed: bool)
      requires Valid()
      requires docId in pending
      modifies this
      ensures Valid()
      ensures pending == old(pending) - {docId}
      ensures sessions == old(sessions)
      ensures extraction.None? ==>
        documents == old(documents)[docId := Document(old(documents)[docId].filename, Failed, [])]
        && extracted == old(extracted)
      ensures extraction.Some? ==>
        docId in documents
        && documents == old(documents)[docId := Document(old(documents)[docId].filename,
                                                          if removed then Completed else Failed,
                                                          documents[docId].chunks)]
        && ChunkingOf(documents[docId].chunks, extraction.value)
        && Joined(documents[docId].chunks) == extraction.value
        && extracted == old(extracted)[docId := extraction.value]
    {
      match extraction {
        case None =>
          FailureKeepsInvariant(documents, pending, extracted, docId);
          documents := documents[docId := documents[docId].(status := Failed)];
        case Some(text) =>
          var chunks := ChunkText(text);
          // chunks stored and status "completed"; a failing `os.remove` then
          // lands in the `except` branch, which sets "failed"
          var status := if removed then Completed else Failed;
          ExtractionKeepsInvariant(documents, pending, extracted, docId, text, chunks, status);
          documents := documents[docId := Document(documents[docId].filename, status, chunks)];
          extracted := extracted[docId := text];
      }
      pending := pending - {docId};
    }

    /** `status`: the document's status, or not-found. */
    function Status(docId: string): (r: Result<DocumentStatus, LookupError>)
      reads this
      ensures r.Failure? <==> docId !in documents
      ensures r.Failure? ==> r.error == NotFound
      ensures r.Success? ==> r.value == documents[docId].status
    {
      if docId !in documents then Failure(NotFound) else Success(documents[docId].status)
    }

    /**
     * `chunks`: not-found for an unknown id, not-ready unless "completed";
     * otherwise the stored chunks, which are the chunking of the extracted text.
     */
    function Chunks(docId: string): (r: Result<seq<Chunk>, LookupError>)
      requires Valid()
      reads this
      ensures docId !in documents ==> r == Failure(NotFound)
      ensures docId in documents && documents[docId].status != Completed ==> r == Failure(NotReady)
      ensures r.Success? <==> docId in documents && documents[docId].status == Completed
      ensures r.Success? ==>
                docId in documents && documents[docId].status == Completed
                && r.value == documents[docId].chunks
                && docId in extracted && ChunkingOf(r.value, extracted[docId]) && Joined(r.value) == extracted[docId]
    {
      if docId !in documents then Failure(NotFound)
      else if documents[docId].status != Completed then Failure(NotReady)
      else
        ChunkingLossless(documents[docId].chunks, extracted[docId]);
        Success(documents[docId].chunks)
    }

    /** `session_history`: the session's turns, or `[]` for an unknown session. */
    function SessionHistory(sessionId: string): (h: seq<Turn>)
      requires Valid()
      reads this
      ensures sessionId !in sessions ==> h == []
      ensures sessionId in sessions ==> h == sessions[sessionId]
      ensures Alternating(h)
    {
      if sessionId in sessions then sessions[sessionId] else []
    }

    /** Creates the session with an empty history when it does not exist yet. */
    method OpenSession(sessionId: string)
      requires Valid()
      modifies this
      ensures Valid()
      ensures documents == old(documents) && pending == old(pending) && extracted == old(extracted)
      ensures sessions == old(sessions)[sessionId := old(SessionHistory(sessionId))]
    {
      if sessionId !in sessions {
        HistoryUpdateKeepsAlternation(sessions, sessionId, []);
        sessions := sessions[sessionId := []];
      }
    }

    /** The two `append`s of `ask`: the question as a user turn, then the answer as an assistant turn. */
    method RecordExchange(sessionId: string, question: string, answer: string)
      requires Valid()
      requires sessionId in sessions
      modifies this
      ensures Valid()
      ensures documents == old(documents) && pending == old(pending) && extracted == old(extracted)
      ensures sessions == old(sessions)[sessionId := old(sessions)[sessionId] + [Turn(User, question), Turn(Assistant, answer)]]
    {
      var history := sessions[sessionId];
      AlternatingExtend(history, question, answer);
      HistoryUpdateKeepsAlternation(sessions, sessionId, history + [Turn(User, question), Turn(Assistant, answer)]);
      sessions := sessions[sessionId := sessions[sessionId] + [Turn(User, question)]];
      sessions := sessions[sessionId := sessions[sessionId] + [Turn(Assistant, answer)]];
      assert sessions[sessionId] == history + [Turn(User, question), Turn(Assistant, answer)];
    }

    /**
     * `ask`: create the session if absent; retrieve; with nothing retrieved
     * answer the sentinel and leave the history alone; otherwise send the
     * prompt built from the retrieved chunks (returned as `prompt`), take the
     * answer and usage from `reply`, and append the question then the answer.
     */
    method Ask(sessionId: string, documentIds: seq<string>, question: string, reply: Completion)
      returns (r: AnswerRecord, prompt: Option<string>)
      requires Valid()
      modifies this
      ensures Valid()
      ensures documents == old(documents) && pending == old(pending) && extracted == old(extracted)
      ensures r.sessionId == sessionId
      ensures r.sourceChunks == Retrieved(documents, documentIds, Tokens(question))
      ensures r.sourceChunks == [] ==>
                r == AnswerRecord(NotFoundAnswer, sessionId, [], 0, TokenUsage(0, 0, 0))
                && prompt == None
                && sessions == old(sessions)[sessionId := old(SessionHistory(sessionId))]
      ensures r.sourceChunks != [] ==>
                r.answer == reply.text
                && r.batchSize == |r.sourceChunks|
                && r.tokensUsed == TokensUsed(reply.usage)
                && prompt == Some(Prompt(question, Context(r.sourceChunks)))
                && sessions == old(sessions)[sessionId := old(SessionHistory(sessionId))
                                                          + [Turn(User, question), Turn(Assistant, reply.text)]]
    {
      OpenSession(sessionId);
      var relevant := Retrieve(documents, documentIds, question);
      if relevant == [] {
        r := AnswerRecord(NotFoundAnswer, sessionId, [], 0, TokenUsage(0, 0, 0));
        prompt := None;
        return;
      }
      var context := BuildContext(relevant);
      prompt := Some(Prompt(question, context));
      var answer := reply.text;
      var tokens := TokensUsed(reply.usage);
      RecordExchange(sessionId, question, answer);
      r := AnswerRecord(answer, sessionId, relevant, |relevant|, tokens);
    }
  }
}
