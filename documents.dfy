/** The document store's entries. */
module Documents {
  import opened Chunking

  /** `"processing"`, `"completed"` or `"failed"`. */
  datatype DocumentStatus = Processing | Completed | Failed

  /** `documents[doc_id]`: `{"filename", "status", "chunks"}`. */
  datatype Document = Document(filename: string, status: DocumentStatus, chunks: seq<Chunk>)
}
