# Document question answering: ingestion, keyword retrieval and sessions

This project models, in Dafny, the in-memory core of a retrieval-augmented
question-answering backend (`backend/main.py`): documents are uploaded,
ingested into fixed-size chunks, searched by keyword, and questions are
answered from the matching chunks while a per-session conversation history is
kept.

- `TextOps` (`text_ops.dfy`): `clean` (lower-case, then remove everything
  outside `[a-z0-9\s]`), `str.split()` and the substring test `w in text`.
- `Chunking` (`chunking.dfy`): the 500-character chunker of
  `process_document`, a loop over `range(0, len(text), 500)`, proved against
  the definition "chunk k is the slice `[500k, 500k+500)`, numbered k".
- `FileTypes` (`file_types.dfy`): the upload check on
  `os.path.splitext(filename)[1].lower()` (POSIX `splitext`).
- `Documents` (`documents.dfy`): a document entry and its status.
- `Retrieval` (`retrieval.dfy`): `retrieve_chunks` as a method with the nested
  loops of the source, proved equal to a recursive definition whose order,
  membership and edge cases are proved as lemmas.
- `Prompting` (`prompting.dfy`): the `[CHUNK id]: text` context built by the
  loop in `ask`, and the prompt template.
- `Backend` (`backend.dfy`): class `Service` holds the two process-wide
  dictionaries, `documents` and `sessions`, as map fields that its methods
  reassign. `Upload`, `ProcessDocument` and `Ask` change them; `Status`,
  `Chunks` and `SessionHistory` read them. A ghost set `pending` stands for the
  scheduled ingestion tasks and a ghost map `extracted` records each extracted
  text. The object invariant `Valid()` says:
  - a document is "processing" exactly while its task is pending, which makes
    the status write-once;
  - a document holds chunks only when its text was extracted, and then exactly
    the chunking of that text;
  - every history is a run of (user, assistant) pairs.
- `Scenarios` (`scenarios.dfy`): call sequences verified against the
  contracts alone. They cover a short text file (one chunk), a failed extraction, two
  successful questions (four alternating turns) and the question "???".

Outside inputs become parameters:
- the fresh document id that `uuid4` would generate (`Upload`);
- the extractor's result, `None` when it raised (`ProcessDocument`);
- whether removing the temporary upload file succeeded (`ProcessDocument`);
- the completion service's response (`Ask`, which returns the prompt it would
  send).

Three behaviours of the code are worth stating on their own; the model follows the code in each:
- **Failed documents with chunks.** In `process_document` the chunks are stored
  and the status set to "completed" before `os.remove(path)`. If that removal
  raises, the `except` branch sets "failed" while the chunks stay stored, and
  retrieval, which does not look at the status, still searches them. `ProcessDocument` with
  `removed == false` models the code. `Valid()` therefore only ties chunks to a
  successful extraction, not to the status "completed".
- **Retrieval ignores status.** `retrieve_chunks` never reads the status. A
  failed document that kept its chunks (the case above) is still searched.
  Processing documents and documents whose extraction failed hold no chunks,
  so they contribute nothing.
- **Duplicate route.** `GET /session/{session_id}` is declared twice, by
  `session_history` and by `get_session`, with the same body. Both are modelled
  by `SessionHistory`.

## Model

| member | source | states |
|---|---|---|
| `TextOps.Lower` | backend/main.py:73 | `str.lower()` keeps the length and lowers each character ('A'..'Z' to 'a'..'z', others unchanged) |
| `TextOps.Strip` | backend/main.py:73 | the regex substitution leaves only characters of `[a-z0-9\s]` and never lengthens the text |
| `TextOps.StripAppend` | backend/main.py:73 | the substitution acts on each part of a concatenation separately |
| `TextOps.StripFilter` | backend/main.py:73 | the substitution keeps every character of `[a-z0-9\s]` where it stands and deletes every other one, so it is exactly the in-order filter |
| `TextOps.CleanFixedPoints` | backend/main.py:72-73 | `clean` output holds only lower-case ASCII letters, digits and whitespace; `clean(t) == t` exactly when `t` consists of such characters |
| `TextOps.CleanIdempotent` | backend/main.py:72-73 | `clean(clean(t)) == clean(t)` |
| `TextOps.Words` | backend/main.py:76 | `split()` yields non-empty tokens containing no whitespace |
| `TextOps.WordsOfWord` | backend/main.py:76 | a non-empty string without whitespace splits into itself, one token |
| `TextOps.WordsSplitAtSpace` | backend/main.py:76 | a whitespace character always separates tokens: the tokens of `a + [c] + b` are those of `a` followed by those of `b`, so tokens are maximal non-whitespace runs |
| `TextOps.WordsLossless` | backend/main.py:76 | the tokens of `split()` concatenate to the input with its whitespace removed |
| `TextOps.WordsEmptyIff` | backend/main.py:76 | `split()` yields no token exactly when the string is all whitespace |
| `TextOps.NoAlphanumericNoWords` | backend/main.py:76 | a question with no letter or digit (such as "???") has an empty token list after `clean` and `split` |
| `TextOps.ContainsIff` | backend/main.py:86 | `w in text` holds exactly when `w` occurs at some index of `text` |
| `TextOps.AnyOccursIff` | backend/main.py:86 | `any(w in text for w in words)` holds exactly when some word occurs in the text, so never for an empty word list |
| `Chunking.ChunkText` | backend/main.py:55-62 | the chunking loop yields chunk k = `text[500k:500k+500]` with `chunk_id == k`, ceil(len/500) chunks, each of length 1..500, and the chunks concatenate back to the text |
| `Chunking.ChunkingLossless` | backend/main.py:55-62 | concatenating the chunk texts in order gives back the extracted text |
| `Chunking.ChunkingBounded` | backend/main.py:55-62 | every chunk is non-empty and at most 500 long, all but the last exactly 500, ids are 0,1,2,..., and only empty text has no chunks |
| `FileTypes.SplitExt` | backend/main.py:106 | the extension is empty or a suffix of the name starting with its only dot, with no '/' |
| `FileTypes.SplitExtAt` | backend/main.py:106 | when the last dot follows the last '/' and some non-dot character of the last path component precedes it, the extension is everything from that dot on |
| `FileTypes.LeadingDotsNoExtension` | backend/main.py:106 | when everything in the last path component before its last dot is a dot (".txt", "dir/..pdf"), those dots belong to the root and there is no extension |
| `FileTypes.NoDotNoExtension` | backend/main.py:106 | a last path component without a dot has no extension, even if an earlier directory name has one |
| `FileTypes.UpperCaseExtensionAccepted` | backend/main.py:106-108 | "Report.PDF" is accepted: its extension lower-cases to ".pdf" |
| `FileTypes.LastDotExtension` | backend/main.py:106-108 | only the part after the last dot counts: "notes.tar.txt" has extension ".txt" and is accepted |
| `FileTypes.ExtensionRejected` | backend/main.py:106-109 | ".txt" (a bare dot-file name) and "README" have no extension and are rejected |
| `Retrieval.MatchChunks` | backend/main.py:83-91 | the inner loop collects exactly the document's matching chunks, in stored order, each with its document id, `chunk_id` and original text |
| `Retrieval.Retrieve` | backend/main.py:75-93 | the nested loops return exactly the recursive retrieval: requested ids in order, each stored document's chunks in order, kept when some token of the cleaned question occurs in the cleaned chunk text |
| `Retrieval.MatchingAppend` | backend/main.py:83-91 | within one document, matches follow stored chunk order: the matches of `a + b` are those of `a` followed by those of `b` |
| `Retrieval.RetrievedAppend` | backend/main.py:79-91 | results follow the order of `document_ids`: retrieval over `a + b` is retrieval over `a` followed by retrieval over `b` |
| `Retrieval.MatchingIff` | backend/main.py:83-91 | an entry is among a document's matches exactly when it is some relevant chunk's (document id, `chunk_id`, original text) |
| `Retrieval.RetrievedIff` | backend/main.py:79-91 | an entry is retrieved exactly when some requested id names a stored document among whose matches it is |
| `Retrieval.RetrievedSound` | backend/main.py:79-91 | every result carries a requested stored document's id and the `chunk_id` and original text of one of its relevant chunks |
| `Retrieval.NoTokensNothingRetrieved` | backend/main.py:76-86 | with an empty token list `any(...)` is false, so nothing is retrieved from any store |
| `Retrieval.NoAlphanumericNothingRetrieved` | backend/main.py:72-93 | a question without letters or digits retrieves nothing, whatever the store holds |
| `Retrieval.UnknownIdsIgnored` | backend/main.py:79-81 | ids absent from `documents` are skipped without error: dropping them leaves the result unchanged |
| `Prompting.NatToString` | backend/main.py:185 | `str(chunk_id)` is a non-empty string of decimal digits without leading zeros |
| `Prompting.NatToStringRoundTrip` | backend/main.py:185 | the rendered chunk id reads back as the same number |
| `Prompting.ContextAppend` | backend/main.py:183-185 | the context of `a + b` is the context of `a` followed by that of `b` |
| `Prompting.BuildContext` | backend/main.py:183-185 | the accumulation loop produces one `[CHUNK id]: text` line per retrieved chunk, in retrieval order |
| `Backend.AlternatingExtend` | backend/main.py:213-221 | appending a user turn then an assistant turn keeps a history a run of (user, assistant) pairs |
| `Backend.UploadKeepsInvariant` | backend/main.py:119-125 | adding a fresh "processing" entry with no chunks and a scheduled task keeps the store invariant |
| `Backend.FailureKeepsInvariant` | backend/main.py:69-70 | marking a pending document "failed" keeps the store invariant |
| `Backend.ExtractionKeepsInvariant` | backend/main.py:55-70 | storing the chunking of the extracted text with a final status keeps the store invariant |
| `Backend.HistoryUpdateKeepsAlternation` | backend/main.py:165-166 | creating or replacing one history by an alternating one keeps every history alternating |
| `Backend.Service.constructor` | backend/main.py:20-21 | both stores start empty |
| `Backend.Service.Upload` | backend/main.py:104-131 | an unsupported lower-cased extension is rejected with nothing changed; otherwise exactly one new entry `{filename, "processing", []}` is added and its ingestion scheduled |
| `Backend.Service.ProcessDocument` | backend/main.py:51-70 | on extraction failure the entry becomes "failed" with chunks still `[]`; on success it holds exactly the chunking of the text and becomes "completed" ("failed" if removing the temp file raised); no other entry or session changes |
| `Backend.Service.Status` | backend/main.py:135-143 | unknown id is not-found; otherwise the stored status |
| `Backend.Service.Chunks` | backend/main.py:147-158 | unknown id is not-found, any status but "completed" is not-ready, and a stored "completed" document always succeeds with its stored chunks, which reassemble the extracted text |
| `Backend.Service.SessionHistory` | backend/main.py:233-238 | the stored history, or `[]` for an unknown session without creating one; always (user, assistant) pairs |
| `Backend.Service.OpenSession` | backend/main.py:165-166 | an absent session is created with an empty history; an existing one and every other session are untouched |
| `Backend.Service.RecordExchange` | backend/main.py:213-221 | the session's history grows by exactly a user turn with the question, then an assistant turn with the answer; nothing else changes |
| `Backend.Service.Ask` | backend/main.py:162-229 | the session is created if absent and documents never change. With nothing retrieved: the sentinel answer, no sources, batch size 0, zero tokens, no prompt, history unchanged. Otherwise: sources are the retrieval in order, `batch_size` is their number, the prompt embeds the question and the `[CHUNK id]` context, missing usage counters are 0, and the history grows by exactly (user question, assistant answer) |
| `Scenarios.AskTwice` | backend/main.py:165-221 | two questions on a new session that both retrieve something leave exactly the turns user, assistant, user, assistant |
| `Scenarios.UploadShortText` | backend/main.py:104-158 | uploading "cat.txt" is accepted as "processing" with chunk reads refused, and after processing a 23-character text the status is "completed" and the chunks are exactly one chunk, id 0, holding the whole text |
| `Scenarios.FailedExtraction` | backend/main.py:51-70 | when extraction of an uploaded "scan.pdf" fails the status is "failed", no chunks are stored and chunk reads are refused as not ready |
| `Scenarios.PunctuationOnlyQuestion` | backend/main.py:165-181 | asking "???" leaves the session history as it was |

## Left out

- `extract_text` (backend/main.py:37-49) is not modelled. It reads files and calls pypdf and python-docx. Its result, or its failure, is the `extraction` parameter of `ProcessDocument`.
- The Gemini client (backend/main.py:25, 198-205) is not modelled; its response is the `reply` parameter of `Ask`. The `/gemini-test` and `/gemini-models` routes (242-254) and `/health` (31-33) are left out too. A failing completion call, which the source lets propagate, is not modelled.
- `export_pdf` (backend/main.py:256-283) is left out: it renders a PDF file with reportlab.
- File-system effects are not modelled: writing the upload (113-117) and removing it (67). Only the outcome of the removal is a parameter, because it decides the status.
- `BackgroundTasks` scheduling (125) is reduced to the ghost `pending` set. Ingestion runs as an explicit sequential call, so concurrent requests and interleaved appends to one session are not modelled.
- FastAPI routing, HTTP status codes, pydantic request models and response dictionaries are not modelled. Errors are `Result` values (`NotFound`, `NotReady`, `UnsupportedFileType`) and bodies are datatypes.
- `uuid4` is not modelled: `Upload` takes the fresh id as a parameter and requires it to be unused.
- Unicode is not modelled. `str.lower()` lowers only 'A'..'Z'. Whitespace is the ASCII part of Python's `\s` and `str.isspace`. Non-ASCII characters whose lower-case form is ASCII, and non-ASCII whitespace, behave differently in Python.
- Backend.Service.Ask: a usage attribute that is present but holds `None`, or a missing `response.text`, is not modelled. The model reads every absent counter as 0 and the answer is always a string.
- FileTypes.SplitExt: only POSIX `os.path.splitext` is modelled ('/' as the only separator); the Windows variant, which also splits on '\\', is not.
- frontend/app.py is not part of this model: it is a Streamlit page that calls the backend over HTTP.
