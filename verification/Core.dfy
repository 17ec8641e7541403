/** Statuses, error codes and page tokens shared by every part of the service. */
module Core {
  import opened Wrappers
  import Text

  datatype SessionStatus = Starting | Running | Stopping | Stopped | Failed | Expired

  predicate SessionStatusIsFinal(status: SessionStatus) {
    status.Stopped? || status.Failed? || status.Expired?
  }

  /** The life-cycle position of a status: STARTING, RUNNING, STOPPING, final. */
  function Rank(status: SessionStatus): nat {
    match status
    case Starting => 0
    case Running => 1
    case Stopping => 2
    case _ => 3
  }

  datatype TaskStatus = Queued | TaskRunning | Succeeded | TaskFailed | Canceled | TimedOut

  datatype ErrorCode =
    | ValidationFailed | SessionNotFound | TaskNotFound | ArtifactNotFound
    | SessionFinalized | TaskFinalized | CapacityUnavailable | BrowserUnavailable
    | ProxyFailed | NavigationFailed | ScriptFailed | Timeout
    | UnsupportedOperation | Internal
    | CodeUnspecified   // the zero value of the proto enumeration, for codes Go does not know
    | StoreUnavailable  // an error of the database, which carries no code of its own

  // ---- page tokens ----

  const DEFAULT_PAGE_SIZE := 50
  const MAX_PAGE_SIZE := 200

  function ParsePageToken(token: string): Result<nat, ErrorCode> {
    if token == "" then Ok(0)
    else match Text.Atoi(token)
      case None => Err(ValidationFailed)
      case Some(offset) => if offset < 0 then Err(ValidationFailed) else Ok(offset)
  }

  /** No token is the first page, a numeral the rows from there on, and anything else is refused. */
  lemma TokenIsRead(token: string, offset: nat)
    ensures ParsePageToken(token) == Ok(offset) <==> (token == "" && offset == 0) || Text.Atoi(token) == Some(offset)
    ensures ParsePageToken(token).Err? ==> ParsePageToken(token).error == ValidationFailed
  {
  }

  function NormalizePageSize(size: int): (r: nat)
    ensures 1 <= r <= MAX_PAGE_SIZE
    ensures 1 <= size <= MAX_PAGE_SIZE ==> r == size
    ensures size <= 0 ==> r == DEFAULT_PAGE_SIZE
    ensures size > MAX_PAGE_SIZE ==> r == MAX_PAGE_SIZE
  {
    if size <= 0 then DEFAULT_PAGE_SIZE
    else if size > MAX_PAGE_SIZE then MAX_PAGE_SIZE
    else size
  }

  function PageToken(offset: int): string {
    if offset <= 0 then "" else Text.Sprint(offset)
  }

  /** A token handed out for an offset is read back as that offset; only the first page has the empty token. */
  lemma PageTokenRoundTrip(offset: nat)
    requires offset <= Text.MAX_INT64
    ensures ParsePageToken(PageToken(offset)) == Ok(offset)
    ensures PageToken(offset) == "" <==> offset == 0
  {
    if offset > 0 {
      Text.AtoiOfSprint(offset);
    }
  }
}
