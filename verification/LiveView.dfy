/**
 Live views (`internal/app/live_view_service.go`) and the paths their tokens travel by
 (`internal/adapters/http/server.go`).  The protobuf encoding and the MAC are parameters; the base64 text is module Base64.
 */
module LiveView {
  import opened Wrappers
  import opened Core
  import opened Base64
  import Automation
  import SessionService
  import SessionAnswers
  import Store
  import Text

  datatype Provider = ProviderUnspecified | Cdp | Screenshots | WebRtc

  datatype View = View(
    liveViewId: string, sessionId: string, provider: Provider, controlEnabled: bool, maxWidth: int, maxHeight: int,
    url: string, websocketUrl: string, webrtcUrl: string, createdAt: int, expiresAt: Option<int>)

  type Payload = seq<Byte>

  datatype Codec = Codec(marshal: View -> Payload, unmarshal: Payload -> Option<View>, mac: (Payload, Payload) -> Payload)

  /** proto.Unmarshal undoes proto.Marshal, a view with an id has a payload, and a MAC (section 2 of RFC 2104) is not empty. */
  ghost predicate Lawful(c: Codec) {
    && (forall v {:trigger c.marshal(v)} :: c.unmarshal(c.marshal(v)) == Some(v) && (v.liveViewId != "" ==> c.marshal(v) != []))
    && forall key, payload {:trigger c.mac(key, payload)} :: c.mac(key, payload) != []
  }

  // ---- tokens ----

  function SignLiveView(c: Codec, key: Payload, view: View): string {
    Encode(c.marshal(view)) + "." + Encode(c.mac(key, c.marshal(view)))
  }

  function VerifyLiveView(c: Codec, key: Payload, token: string): Result<View, ErrorCode> {
    match Text.Cut(Text.Trim(token), '.')
    case None => Err(ValidationFailed)
    case Some((payloadPart, signaturePart)) =>
      if payloadPart == "" || signaturePart == "" then Err(ValidationFailed)
      else match (Decode(payloadPart), Decode(signaturePart))
        case (Some(payload), Some(signature)) =>
          if signature != c.mac(key, payload) then Err(ValidationFailed)
          else (match c.unmarshal(payload)
                case None => Err(ValidationFailed)
                case Some(view) => Ok(view))
        case _ => Err(ValidationFailed)
  }

  lemma TokenHasNoBlanks(c: Codec, key: Payload, view: View)
    ensures var token := SignLiveView(c, key, view);
            forall i :: 0 <= i < |token| ==> !Text.IsSpace(token[i]) && token[i] != '/'
  {
    var token := SignLiveView(c, key, view);
    forall i | 0 <= i < |token| ensures !Text.IsSpace(token[i]) && token[i] != '/' {
      if InAlphabet(token[i]) {
        AlphabetAvoids(token[i]);
      } else {
        assert token[i] == '.';
      }
    }
  }

  lemma NoDotInText(b: Payload)
    ensures '.' !in Encode(b)
  {
    var s := Encode(b);
    forall i | 0 <= i < |s| ensures s[i] != '.' {
      AlphabetAvoids(s[i]);
    }
  }

  /** A signed view verifies to itself. */
  lemma SignedVerifies(c: Codec, key: Payload, view: View)
    requires Lawful(c) && view.liveViewId != ""
    ensures VerifyLiveView(c, key, SignLiveView(c, key, view)) == Ok(view)
  {
    var payload := c.marshal(view);
    var signature := c.mac(key, payload);
    TokenHasNoBlanks(c, key, view);
    Text.TrimOfBlankFree(SignLiveView(c, key, view));
    NoDotInText(payload);
    Text.CutAtFirst(Encode(payload), '.', Encode(signature));
    EncodeDecode(payload);
    EncodeDecode(signature);
    EncodeEmpty(payload);
    EncodeEmpty(signature);
  }

  /** A token verifies exactly if it is two texts around its first dot, the second decoding to the MAC of what the first decodes to. */
  lemma VerifiedIff(c: Codec, key: Payload, token: string, view: View)
    ensures VerifyLiveView(c, key, token) == Ok(view) <==>
            exists p: string, s: string ::
              && Text.Trim(token) == p + "." + s && '.' !in p && p != "" && s != ""
              && IsSigned(c, key, p, s, view)
  {
    if VerifyLiveView(c, key, token) == Ok(view) {
      var (p, s) := Text.Cut(Text.Trim(token), '.').value;
      assert Text.Trim(token) == p + "." + s && IsSigned(c, key, p, s, view);
    }
    forall p: string, s: string | Text.Trim(token) == p + "." + s && '.' !in p && p != "" && s != "" && IsSigned(c, key, p, s, view)
      ensures VerifyLiveView(c, key, token) == Ok(view)
    {
      Text.CutAtFirst(p, '.', s);
    }
  }

  ghost predicate IsSigned(c: Codec, key: Payload, p: string, s: string, view: View) {
    Decode(p).Some? && Decode(s) == Some(c.mac(key, Decode(p).value)) && c.unmarshal(Decode(p).value) == Some(view)
  }

  // ---- creating and authorizing ----

  const DEFAULT_TTL := 10 * 60 * 1_000_000_000
  const DEFAULT_MAX_WIDTH := 1280
  const DEFAULT_MAX_HEIGHT := 900

  function NormalizedDimension(value: int, fallback: int): int { if value <= 0 then fallback else value }

  /** What the runtime offers: None for a runtime without live views (camoufox). */
  datatype Support = Support(preferred: Provider, supports: Provider -> bool)

  /** What cloakbrowser answers. */
  const CLOAKBROWSER := Support(WebRtc, (p: Provider) => p.Cdp? || p.WebRtc?)

  predicate Supported(live: Option<Support>, provider: Provider) { live.Some? && live.value.supports(provider) }

  /** A missing ttl reads as 0. */
  datatype ViewRequest = ViewRequest(sessionId: string, provider: Provider, controlEnabled: bool, maxWidth: int, maxHeight: int, ttl: int)

  /** `suffix` is the random part of the generated id. */
  datatype ViewEnv = ViewEnv(get: SessionService.GetEnv, now: int, suffix: string)

  datatype Service = Service(cfg: SessionService.Config, live: Option<Support>, codec: Codec, key: Payload)

  function WantedProvider(live: Option<Support>, provider: Provider): Provider {
    if !provider.ProviderUnspecified? then provider
    else if live.Some? && !live.value.preferred.ProviderUnspecified? then live.value.preferred
    else Cdp
  }

  /** The view as it is signed, its three URLs still empty. */
  function NewView(request: ViewRequest, sessionId: string, provider: Provider, env: ViewEnv): View {
    View("brlive_" + env.suffix, sessionId, provider, request.controlEnabled,
         NormalizedDimension(request.maxWidth, DEFAULT_MAX_WIDTH), NormalizedDimension(request.maxHeight, DEFAULT_MAX_HEIGHT),
         "", "", "", env.now, Some(env.now + if request.ttl == 0 then DEFAULT_TTL else request.ttl))
  }

  function WithUrls(view: View, token: string): View {
    view.(url := "/live/" + token,
          websocketUrl := WEBSOCKET_PREFIX + token,
          webrtcUrl := API_PREFIX + "/live/" + token + ANSWER)
  }

  function Bare(view: View): View { view.(url := "", websocketUrl := "", webrtcUrl := "") }

  function RunningSession(got: SessionService.Reply): Result<string, ErrorCode> {
    if got.error.Some? then Err(got.error.value)
    else if got.session.None? || !got.session.value.data.status.Running? then Err(SessionFinalized)
    else Ok(got.session.value.id)
  }

  function CreateView(s: Service, w: SessionService.World, request: Option<ViewRequest>, env: ViewEnv)
    : (SessionService.World, Result<View, ErrorCode>)
  {
    if request.None? || Text.Trim(request.value.sessionId) == "" then (w, Err(ValidationFailed))
    else
      var (w, got) := SessionService.GetSession(s.cfg, w, request.value.sessionId, env.get);
      var session := RunningSession(got);
      var provider := WantedProvider(s.live, request.value.provider);
      if session.Err? then (w, Err(session.error))
      else if !Supported(s.live, provider) then (w, Err(UnsupportedOperation))
      else if request.value.ttl < 0 then (w, Err(ValidationFailed))
      else
        var view := NewView(request.value, session.value, provider, env);
        (w, Ok(WithUrls(view, SignLiveView(s.codec, s.key, view))))
  }

  /** Under cloakbrowser a view is created for every RUNNING session unless screenshots are asked for or the ttl is negative; under camoufox never. */
  lemma CreatedIff(s: Service, w: SessionService.World, request: Option<ViewRequest>, env: ViewEnv)
    requires s.live == None || s.live == Some(CLOAKBROWSER)
    ensures CreateView(s, w, request, env).1.Ok? <==>
            && s.live.Some? && request.Some? && Text.Trim(request.value.sessionId) != ""
            && RunningSession(SessionService.GetSession(s.cfg, w, request.value.sessionId, env.get).1).Ok?
            && !request.value.provider.Screenshots? && request.value.ttl >= 0
  {
  }

  /** What a view holds, and that any of its URLs carries a token which verifies to it. */
  ghost predicate Holds(s: Service, request: ViewRequest, env: ViewEnv, view: View) {
    && view.liveViewId == "brlive_" + env.suffix && view.sessionId == request.sessionId
    && view.provider == (if request.provider == ProviderUnspecified then WebRtc else request.provider)
    && view.controlEnabled == request.controlEnabled
    && view.maxWidth == (if request.maxWidth > 0 then request.maxWidth else 1280)
    && view.maxHeight == (if request.maxHeight > 0 then request.maxHeight else 900)
    && view.createdAt == env.now
    && view.expiresAt == Some(env.now + (if request.ttl == 0 then 600_000_000_000 else request.ttl))
    && exists token: string :: CarriedBy(s, view, token)
  }

  ghost predicate CarriedBy(s: Service, view: View, token: string) {
    && view.url == "/live/" + token && view.websocketUrl == "/ws/browser-automation/live/" + token
    && view.webrtcUrl == "/api/browser-automation/live/" + token + "/webrtc/answer"
    && (Lawful(s.codec) ==> VerifyLiveView(s.codec, s.key, token) == Ok(view.(url := "", websocketUrl := "", webrtcUrl := "")))
  }

  /** What cloakbrowser answers to every request for a view. */
  lemma ViewAnswers(s: Service, w: SessionService.World, request: Option<ViewRequest>, env: ViewEnv)
    requires s.live == Some(CLOAKBROWSER) && Store.RowsKeyed(w.store.rows)
    ensures var r := CreateView(s, w, request, env).1;
            if request.None? || Text.Trim(request.value.sessionId) == "" then r == Err(ValidationFailed)
            else if SessionAnswers.NotRunning(w, request.value.sessionId, env.get).Some? then
              r == Err(SessionAnswers.NotRunning(w, request.value.sessionId, env.get).value)
            else if request.value.provider == Screenshots then r == Err(UnsupportedOperation)
            else if request.value.ttl < 0 then r == Err(ValidationFailed)
            else r.Ok? && Holds(s, request.value, env, r.value)
  {
    if request.Some? && Text.Trim(request.value.sessionId) != "" {
      SessionAnswers.ReadAnswers(s.cfg, w, request.value.sessionId, env.get);
      if CreateView(s, w, request, env).1.Ok? {
        CreatedHolds(s, w, request.value, env);
      }
    }
  }

  lemma CreatedHolds(s: Service, w: SessionService.World, request: ViewRequest, env: ViewEnv)
    requires s.live == Some(CLOAKBROWSER) && Store.RowsKeyed(w.store.rows) && CreateView(s, w, Some(request), env).1.Ok?
    ensures Holds(s, request, env, CreateView(s, w, Some(request), env).1.value)
  {
    SessionAnswers.ReadAnswers(s.cfg, w, request.sessionId, env.get);
    var bare := CreatedFrom(s, w, Some(request), env);
    UrlsCarry(s, bare);
  }

  lemma UrlsCarry(s: Service, bare: View)
    requires bare.liveViewId != "" && bare == Bare(bare)
    ensures CarriedBy(s, WithUrls(bare, SignLiveView(s.codec, s.key, bare)), SignLiveView(s.codec, s.key, bare))
  {
    if Lawful(s.codec) {
      SignedVerifies(s.codec, s.key, bare);
    }
    UrlTexts(bare, SignLiveView(s.codec, s.key, bare));
  }

  lemma UrlTexts(bare: View, token: string)
    requires bare == Bare(bare)
    ensures var view := WithUrls(bare, token);
            && view.url == "/live/" + token && view.websocketUrl == "/ws/browser-automation/live/" + token
            && view.webrtcUrl == "/api/browser-automation/live/" + token + "/webrtc/answer"
            && view.(url := "", websocketUrl := "", webrtcUrl := "") == bare
  {
    assert API_PREFIX + "/live/" == "/api/browser-automation/live/";
  }

  datatype AuthorizeEnv = AuthorizeEnv(now: int, get: SessionService.GetEnv)

  function AuthorizeView(s: Service, w: SessionService.World, token: string, env: AuthorizeEnv)
    : (SessionService.World, Result<View, ErrorCode>)
  {
    match VerifyLiveView(s.codec, s.key, token)
    case Err(e) => (w, Err(e))
    case Ok(view) =>
      if view.expiresAt.None? || env.now > view.expiresAt.value then (w, Err(ValidationFailed))
      else
        var (w, got) := SessionService.GetSession(s.cfg, w, view.sessionId, env.get);
        var session := RunningSession(got);
        if session.Err? then (w, Err(session.error))
        else if !Supported(s.live, view.provider) then (w, Err(UnsupportedOperation))
        else (w, Ok(view))
  }

  /** The live-view side of AutomationService. */
  class LiveViewService {
    const sessions: Automation.AutomationService
    const settings: Service

    ghost predicate Valid() reads sessions.store, sessions.runtime, sessions.proxy {
      sessions.Valid() && settings.cfg == sessions.cfg
    }

    constructor (sessions: Automation.AutomationService, settings: Service)
      requires sessions.Valid() && settings.cfg == sessions.cfg
      ensures Valid() && this.sessions == sessions && this.settings == settings
    {
      this.sessions, this.settings := sessions, settings;
    }

    method CreateBrowserLiveView(request: Option<ViewRequest>, env: ViewEnv) returns (r: Result<View, ErrorCode>)
      requires Valid()
      modifies sessions.store, sessions.runtime`sessions, sessions.proxy`sessions
      ensures (sessions.State(), r) == CreateView(settings, old(sessions.State()), request, env)
      ensures Valid() && (old(sessions.Agreed()) && !env.get.expire.writeFails ==> sessions.Agreed())
    {
      if request.None? || Text.Trim(request.value.sessionId) == "" {
        return Err(ValidationFailed);
      }
      var got := sessions.GetBrowserSession(request.value.sessionId, env.get);
      var session := RunningSession(got);
      if session.Err? {
        return Err(session.error);
      }
      var provider := WantedProvider(settings.live, request.value.provider);
      if !Supported(settings.live, provider) {
        return Err(UnsupportedOperation);
      }
      if request.value.ttl < 0 {
        return Err(ValidationFailed);
      }
      var view := NewView(request.value, session.value, provider, env);
      var token := SignLiveView(settings.codec, settings.key, view);
      view := view.(url := "/live/" + token);
      view := view.(websocketUrl := WEBSOCKET_PREFIX + token);
      view := view.(webrtcUrl := API_PREFIX + "/live/" + token + ANSWER);
      return Ok(view);
    }

    method AuthorizeBrowserLiveView(token: string, env: AuthorizeEnv) returns (r: Result<View, ErrorCode>)
      requires Valid()
      modifies sessions.store, sessions.runtime`sessions, sessions.proxy`sessions
      ensures (sessions.State(), r) == AuthorizeView(settings, old(sessions.State()), token, env)
      ensures Valid() && (old(sessions.Agreed()) && !env.get.expire.writeFails ==> sessions.Agreed())
    {
      var verified := VerifyLiveView(settings.codec, settings.key, token);
      if verified.Err? {
        return Err(verified.error);
      }
      var view := verified.value;
      if view.expiresAt.None? || env.now > view.expiresAt.value {
        return Err(ValidationFailed);
      }
      var got := sessions.GetBrowserSession(view.sessionId, env.get);
      var session := RunningSession(got);
      if session.Err? {
        return Err(session.error);
      }
      if !Supported(settings.live, view.provider) {
        return Err(UnsupportedOperation);
      }
      return Ok(view);
    }
  }

  // ---- the way of a token through the HTTP server ----

  const WEBSOCKET_PREFIX := "/ws/browser-automation/live/"
  const API_PREFIX := "/api/browser-automation"
  const ANSWER := "/webrtc/answer"

  /** Where a request with this path goes, as far as live tokens are concerned, and the token the handler passes on. */
  datatype Route = WebSocket(token: string) | WebRtcAnswer(token: string) | Elsewhere

  function Dispatch(path: string, post: bool): Route {
    if WEBSOCKET_PREFIX <= path then WebSocket(Text.TrimPrefix(path, WEBSOCKET_PREFIX))
    else if "/live/" <= path then Elsewhere
    else if API_PREFIX + "/" <= path then DispatchApi(Text.TrimPrefix(path, API_PREFIX), post)
    else Elsewhere
  }

  /** No other path serveAPI knows begins with /live/. */
  function DispatchApi(path: string, post: bool): Route {
    if post && "/live/" <= path && Text.HasSuffix(path, ANSWER) then
      WebRtcAnswer(Text.Trim(Text.TrimSuffix(Text.TrimPrefix(path, "/live/"), ANSWER)))
    else Elsewhere
  }

  /** No other request reaches a handler of live tokens: the WebSocket by its prefix, the answer by a POST between its prefix and suffix. */
  lemma RoutesIff(path: string, post: bool)
    ensures Dispatch(path, post).WebSocket? <==> "/ws/browser-automation/live/" <= path
    ensures Dispatch(path, post).WebRtcAnswer? <==>
            post && "/api/browser-automation/live/" <= path && Text.HasSuffix(Text.TrimPrefix(path, "/api/browser-automation"), "/webrtc/answer")
  {
    var api, live := "/api/browser-automation", "/api/browser-automation/live/";
    if live <= path {
      assert path[0..2] == live[0..2] == "/a";
      assert path[1] == 'a' && WEBSOCKET_PREFIX[1] == 'w' && "/live/"[1] == 'l';
      assert path[|api|..][..6] == live[|api|..] == "/live/";
      assert path[..|api| + 1] == api + "/";
    }
    if api + "/" <= path && "/live/" <= path[|api|..] {
      assert path[..|live|] == api + "/live/" == live;
    }
  }

  lemma WebSocketRoute(token: string, post: bool)
    ensures Dispatch(WEBSOCKET_PREFIX + token, post) == WebSocket(token)
  {
  }

  lemma WebRtcRoute(token: string)
    requires forall i :: 0 <= i < |token| ==> !Text.IsSpace(token[i])
    ensures Dispatch(API_PREFIX + "/live/" + token + ANSWER, true) == WebRtcAnswer(token)
  {
    var path := "/live/" + token + ANSWER;
    assert API_PREFIX + "/live/" + token + ANSWER == API_PREFIX + path;
    assert (API_PREFIX + path)[0..2] == "/a";
    ApiPath(path);
    AnswerPath(token);
    Text.TrimOfBlankFree(token);
  }

  lemma ApiPath(path: string)
    requires "/live/" <= path
    ensures Dispatch(API_PREFIX + path, true) == DispatchApi(path, true)
  {
    assert (API_PREFIX + path)[1] == 'a';
    assert WEBSOCKET_PREFIX[1] == 'w' && "/live/"[1] == 'l';
    assert (API_PREFIX + path)[|API_PREFIX|..] == path;
  }

  lemma AnswerPath(token: string)
    ensures DispatchApi("/live/" + token + ANSWER, true) == WebRtcAnswer(Text.Trim(token))
  {
    var path := "/live/" + token + ANSWER;
    assert path[|path| - |ANSWER|..] == ANSWER;
    assert Text.TrimPrefix(path, "/live/") == token + ANSWER;
    assert (token + ANSWER)[|token|..] == ANSWER && (token + ANSWER)[..|token|] == token;
  }

  /** The token the service put into either URL is the one the handler hands to AuthorizeBrowserLiveView. */
  lemma TokenComesBack(c: Codec, key: Payload, view: View, post: bool)
    ensures var token := SignLiveView(c, key, view); var made := WithUrls(view, token);
            Dispatch(made.websocketUrl, post) == WebSocket(token) && Dispatch(made.webrtcUrl, true) == WebRtcAnswer(token)
  {
    var token := SignLiveView(c, key, view);
    TokenHasNoBlanks(c, key, view);
    WebSocketRoute(token, post);
    WebRtcRoute(token);
  }

  /** What creation hands out is a signed view with its URLs filled in afterwards. */
  lemma CreatedFrom(s: Service, w: SessionService.World, request: Option<ViewRequest>, env: ViewEnv) returns (bare: View)
    requires CreateView(s, w, request, env).1.Ok?
    ensures CreateView(s, w, request, env).1.value == WithUrls(bare, SignLiveView(s.codec, s.key, bare))
    ensures bare == Bare(CreateView(s, w, request, env).1.value)
    ensures bare.liveViewId != "" && bare.expiresAt.Some? && Supported(s.live, bare.provider)
  {
    var got := SessionService.GetSession(s.cfg, w, request.value.sessionId, env.get).1;
    bare := NewView(request.value, RunningSession(got).value, WantedProvider(s.live, request.value.provider), env);
  }

  /** The session of a view that may still be used is RUNNING when it is asked for. */
  predicate Usable(s: Service, w: SessionService.World, view: View, env: AuthorizeEnv) {
    && view.expiresAt.Some? && env.now <= view.expiresAt.value
    && RunningSession(SessionService.GetSession(s.cfg, w, view.sessionId, env.get).1).Ok?
  }

  lemma AuthorizedIff(s: Service, w: SessionService.World, token: string, view: View, env: AuthorizeEnv)
    requires VerifyLiveView(s.codec, s.key, token) == Ok(view) && Supported(s.live, view.provider)
    ensures var r := AuthorizeView(s, w, token, env).1;
            (r.Ok? <==> Usable(s, w, view, env)) && (r.Ok? ==> r.value == view)
  {
  }

  /** What cloakbrowser answers to every token. */
  lemma TokenAnswers(s: Service, w: SessionService.World, token: string, env: AuthorizeEnv)
    requires s.live == Some(CLOAKBROWSER) && Store.RowsKeyed(w.store.rows)
    ensures var r := AuthorizeView(s, w, token, env).1; var verified := VerifyLiveView(s.codec, s.key, token);
            if verified.Err? || verified.value.expiresAt.None? || env.now > verified.value.expiresAt.value then r == Err(ValidationFailed)
            else if SessionAnswers.NotRunning(w, verified.value.sessionId, env.get).Some? then
              r == Err(SessionAnswers.NotRunning(w, verified.value.sessionId, env.get).value)
            else if verified.value.provider != WebRtc && verified.value.provider != Cdp then r == Err(UnsupportedOperation)
            else r == verified
  {
    var verified := VerifyLiveView(s.codec, s.key, token);
    if verified.Ok? {
      SessionAnswers.ReadAnswers(s.cfg, w, verified.value.sessionId, env.get);
    }
  }

  /**
   A created view is authorized again, by way of either URL, to the view without its URLs -- exactly until it
   expires, and exactly while its session is read as RUNNING, whatever happened to the service in between.
   */
  lemma CreatedViewIsAuthorized(s: Service, w: SessionService.World, request: Option<ViewRequest>, env: ViewEnv,
                                later: SessionService.World, route: Route, post: bool, check: AuthorizeEnv)
    requires Lawful(s.codec)
    requires CreateView(s, w, request, env).1.Ok?
    requires var view := CreateView(s, w, request, env).1.value;
             (route == Dispatch(view.websocketUrl, post) || route == Dispatch(view.webrtcUrl, true))
    ensures !route.Elsewhere?
    ensures var view := CreateView(s, w, request, env).1.value;
            var r := AuthorizeView(s, later, route.token, check).1;
            (r.Ok? <==> Usable(s, later, view, check)) && (r.Ok? ==> r.value == Bare(view))
  {
    var bare := CreatedFrom(s, w, request, env);
    TokenComesBack(s.codec, s.key, bare, post);
    SignedVerifies(s.codec, s.key, bare);
    AuthorizedIff(s, later, route.token, bare, check);
  }
}
