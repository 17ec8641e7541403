/** The choice of a session's proxy in `internal/adapters/proxyplugin/controller.go`. */
module ProxySelection {
  import opened Wrappers
  import opened Core
  import Text

  /** `Unspecified` also stands for a request without a proxy selection. */
  datatype Selection =
    | Unspecified
    | NoProxy
    | Manual(url: string, ref: string)
    | ProxyRuntime(accountId: string, purpose: string)
    | UnknownProvider

  /** sessionProxy: an empty url means no proxy, an empty leaseId nothing to release remotely. */
  datatype Lease = Lease(accountId: string, leaseId: string, purpose: string, url: string)

  const NO_LEASE := Lease("", "", "", "")

  /** `manual` holds the configured references; `remote` says whether a proxy-runtime client is configured. */
  datatype Config = Config(manual: map<string, string>, remote: bool)

  /** NewController refuses blank references and blank values. */
  ghost predicate Configured(c: Config) {
    forall ref :: ref in c.manual ==> ref != "" && c.manual[ref] != ""
  }

  /** What acquire returns when it succeeds: it refuses an empty lease id and builds a non-empty URL. */
  type Acquired = l: Lease | l.accountId != "" && l.leaseId != "" && l.url != ""
    witness Lease("a", "l", "p", "http://h:1")

  datatype Resolved = Resolved(lease: Lease, ref: string)

  function ResolveLegacy(c: Config, proxyRef: string): Result<Resolved, ErrorCode> {
    var ref := Text.Trim(proxyRef);
    if ref == "" then Ok(Resolved(NO_LEASE, ""))
    else if ref !in c.manual then Err(ProxyFailed)
    else Ok(Resolved(Lease("", "", "", c.manual[ref]), ref))
  }

  function ResolveManual(c: Config, url: string, ref: string, valid: string -> bool): Result<Resolved, ErrorCode> {
    var rawURL, ref := Text.Trim(url), Text.Trim(ref);
    if rawURL != "" then
      if valid(rawURL) then Ok(Resolved(Lease("", "", "", rawURL), "manual:session")) else Err(ProxyFailed)
    else if ref == "" then Ok(Resolved(NO_LEASE, ""))
    else if ref !in c.manual then Err(ProxyFailed)
    else Ok(Resolved(Lease("", "", "", c.manual[ref]), ref))
  }

  function ResolveProxyRuntime(c: Config, acquired: Option<Acquired>): Result<Resolved, ErrorCode> {
    if !c.remote then Err(ProxyFailed)
    else match acquired
      case None => Err(ProxyFailed)
      case Some(lease) => Ok(Resolved(lease, "proxy-runtime:" + lease.accountId))
  }

  /** `acquired` is the answer of the proxy runtime, should it be asked; `valid` is validateProxyValue. */
  function ResolveSelection(c: Config, selection: Selection, legacyRef: string, valid: string -> bool, acquired: Option<Acquired>)
    : Result<Resolved, ErrorCode>
  {
    match selection
    case Unspecified => ResolveLegacy(c, legacyRef)
    case NoProxy => Ok(Resolved(NO_LEASE, ""))
    case Manual(url, ref) => ResolveManual(c, url, ref, valid)
    case ProxyRuntime(_, _) => ResolveProxyRuntime(c, acquired)
    case UnknownProvider => Err(ProxyFailed)
  }

  /** The profile is given a proxy reference exactly when there is a proxy, so the stored row tells whether one was recorded. */
  lemma RefTellsProxy(c: Config, selection: Selection, legacyRef: string, valid: string -> bool, acquired: Option<Acquired>)
    requires Configured(c)
    ensures var r := ResolveSelection(c, selection, legacyRef, valid, acquired);
            r.Ok? ==> (r.value.ref == "" <==> r.value.lease.url == "")
  {
  }

  /** A blank name is no proxy, a configured one its proxy, and any other an error. */
  ghost predicate Names(c: Config, name: string, r: Result<Resolved, ErrorCode>) {
    var ref := Text.Trim(name);
    if ref == "" then NoneChosen(r)
    else if ref in c.manual then FixedProxy(r, c.manual[ref], ref)
    else r == Err(ProxyFailed)
  }

  predicate NoneChosen(r: Result<Resolved, ErrorCode>) {
    r.Ok? && r.value.ref == "" && r.value.lease == Lease("", "", "", "")
  }

  /** A proxy whose use ends with the session: there is nothing to release remotely. */
  predicate FixedProxy(r: Result<Resolved, ErrorCode>, url: string, ref: string) {
    r.Ok? && r.value.ref == ref && r.value.lease.url == url && r.value.lease.leaseId == "" && r.value.lease.accountId == ""
  }

  /** Which proxy every selection comes to. */
  lemma ChosenProxy(c: Config, selection: Selection, legacyRef: string, valid: string -> bool, acquired: Option<Acquired>)
    ensures var r := ResolveSelection(c, selection, legacyRef, valid, acquired);
            match selection
            case Unspecified => Names(c, legacyRef, r)
            case NoProxy => NoneChosen(r)
            case Manual(url, ref) =>
              if Text.Trim(url) == "" then Names(c, ref, r)
              else if valid(Text.Trim(url)) then FixedProxy(r, Text.Trim(url), "manual:session")
              else r == Err(ProxyFailed)
            case ProxyRuntime(_, _) =>
              if c.remote && acquired.Some? then
                r.Ok? && r.value.lease == acquired.value && r.value.ref == "proxy-runtime:" + acquired.value.accountId
              else r == Err(ProxyFailed)
            case UnknownProvider => r == Err(ProxyFailed)
  {
  }
}
