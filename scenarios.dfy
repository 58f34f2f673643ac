/** Call sequences on the service, verified against the contracts of `Backend.Service` alone. */
module Scenarios {
  import opened Wrappers
  import opened TextOps
  import opened Chunking
  import opened Documents
  import opened FileTypes
  import opened Retrieval
  import opened Backend

  /**
   * Two questions in a new session that both retrieve something leave the
   * history as user, assistant, user, assistant.
   */
  method AskTwice(s: Service, sessionId: string, documentIds: seq<string>,
                  q1: string, reply1: Completion, q2: string, reply2: Completion)
    returns (r1: AnswerRecord, r2: AnswerRecord)
    requires s.Valid()
    requires sessionId !in s.sessions
    modifies s
    ensures s.Valid()
    ensures r1.sourceChunks != [] && r2.sourceChunks != [] ==>
              s.SessionHistory(sessionId)
              == [Turn(User, q1), Turn(Assistant, reply1.text), Turn(User, q2), Turn(Assistant, reply2.text)]
  {
    var p1, p2;
    r1, p1 := s.Ask(sessionId, documentIds, q1, reply1);
    r2, p2 := s.Ask(sessionId, documentIds, q2, reply2);
  }

  /** A short text file: one chunk holding the whole text, status "completed". */
  method UploadShortText() returns (status: Result<DocumentStatus, LookupError>, chunks: Result<seq<Chunk>, LookupError>)
    ensures status == Success(Completed)
    ensures chunks == Success([Chunk(0, "The cat sat on the mat.")])
  {
    var s := new Service();
    var name := "cat.txt";
    LastIndexIs(name[..3], '/', -1);
    assert name[0] != '.';
    SplitExtAt(name, 3);
    assert Extension(name) == ".txt";
    var r := s.Upload(name, "doc-1");
    assert r == Success("doc-1");
    assert s.Status("doc-1") == Success(Processing);
    assert s.Chunks("doc-1") == Failure(NotReady);
    var text := "The cat sat on the mat.";
    s.ProcessDocument("doc-1", Some(text), true);
    assert s.Status("doc-1") == Success(Completed);
    var cs := s.Chunks("doc-1");
    assert cs.Success?;
    ChunkingBounded(cs.value, text);
    assert |cs.value| == 1;
    assert cs.value[0] == Chunk(0, text);
    assert cs.value == [Chunk(0, text)];
    status, chunks := s.Status("doc-1"), cs;
  }

  /** An extraction failure: status "failed", no chunks, and chunk reads refused. */
  method FailedExtraction() returns (status: Result<DocumentStatus, LookupError>, chunks: Result<seq<Chunk>, LookupError>)
    ensures status == Success(Failed)
    ensures chunks == Failure(NotReady)
  {
    var s := new Service();
    var name := "scan.pdf";
    LastIndexIs(name[..4], '/', -1);
    assert name[0] != '.';
    SplitExtAt(name, 4);
    assert Lower(".pdf") == ".pdf";
    var r := s.Upload(name, "doc-2");
    assert r.Success?;
    s.ProcessDocument("doc-2", None, true);
    assert s.Status("doc-2") == Success(Failed);
    assert s.documents["doc-2"].chunks == [];
    status, chunks := s.Status("doc-2"), s.Chunks("doc-2");
  }

  /** "???" retrieves nothing: the sentinel answer, no prompt, and no turns recorded. */
  method PunctuationOnlyQuestion(s: Service, sessionId: string, documentIds: seq<string>, reply: Completion)
    requires s.Valid()
    modifies s
    ensures s.Valid()
    ensures s.SessionHistory(sessionId) == old(s.SessionHistory(sessionId))
  {
    var q := "???";
    NoAlphanumericNothingRetrieved(s.documents, documentIds, q);
    var r, prompt := s.Ask(sessionId, documentIds, q, reply);
    assert r.answer == NotFoundAnswer && r.tokensUsed == TokenUsage(0, 0, 0) && prompt == None;
  }
}
