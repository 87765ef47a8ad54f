/** Document and task states and the guarded transitions between them (model/status.go). */
module Status {
  import opened Options

  datatype DocumentStatus =
    | Uploaded | Parsing | Parsed | Chunking | Chunked | Embedding | Indexed | Failed
    | Deleting | DeleteFailed

  datatype TaskKind = ParseTask | ChunkTask | EmbedTask | DeleteTask

  datatype TaskStatus = Pending | Running | Succeeded | Errored

  /** The statuses a document may be in when it is moved to `next`; None when `next` is never set
      through the table. */
  function DocumentPrevious(next: DocumentStatus): Option<set<DocumentStatus>> {
    match next
    case Uploaded => None
    case Parsing => Some({Uploaded})
    case Parsed => Some({Parsing})
    case Chunking => Some({Parsed})
    case Chunked => Some({Chunking})
    case Embedding => Some({Chunked})
    case Indexed => Some({Embedding})
    case Failed => Some({Uploaded, Parsing, Parsed, Chunking, Chunked, Embedding})
    case Deleting => Some({Uploaded, Parsing, Parsed, Chunking, Chunked, Embedding, Indexed, Failed, DeleteFailed})
    case DeleteFailed => Some({Deleting})
  }

  /** The statuses from which a retry may put a document back to `next`. */
  function DocumentRetryPrevious(next: DocumentStatus): Option<set<DocumentStatus>> {
    match next
    case Uploaded => Some({Failed, Parsing})
    case Parsed => Some({Failed, Chunking})
    case Chunked => Some({Failed, Embedding})
    case Deleting => Some({DeleteFailed})
    case _ => None
  }

  function TaskPrevious(next: TaskStatus): Option<set<TaskStatus>> {
    match next
    case Pending => None
    case Running => Some({Pending})
    case Succeeded => Some({Running})
    case Errored => Some({Pending, Running})
  }

  /** The status a retry of a task puts its document back to. */
  function RetryTarget(kind: TaskKind): DocumentStatus {
    match kind
    case ParseTask => Uploaded
    case ChunkTask => Parsed
    case EmbedTask => Chunked
    case DeleteTask => Deleting
  }

  /** Position in the indexing pipeline; None for failed and deletion states. */
  function Rank(status: DocumentStatus): Option<nat> {
    match status
    case Uploaded => Some(0)
    case Parsing => Some(1)
    case Parsed => Some(2)
    case Chunking => Some(3)
    case Chunked => Some(4)
    case Embedding => Some(5)
    case Indexed => Some(6)
    case _ => None
  }

  predicate AtOrBeyond(current: DocumentStatus, target: DocumentStatus) {
    Rank(current).Some? && Rank(target).Some? && Rank(current).value >= Rank(target).value
  }

  predicate InDeletion(status: DocumentStatus) {
    status == Deleting || status == DeleteFailed
  }
}
