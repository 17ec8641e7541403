/** The proxy notations of `internal/platform/proxyurl/proxyurl.go`.  Go's url.Parse is a parameter. */
module ProxyUrl {
  import opened Wrappers
  import opened Text

  /** The parts of a url.URL that matter: `user` is a name and, if one was set, a password. */
  datatype Url = Url(scheme: string, host: string, user: Option<User>, path: string, query: string, fragment: string)

  datatype User = User(name: string, password: Option<string>)

  datatype Error = Empty | Invalid | NoHost | BadCredentials | BadFormat | Incomplete | NotBare

  // ---- schemes ----

  function Lower(s: string): (r: string)
    ensures |r| == |s|
  {
    seq(|s|, i requires 0 <= i < |s| => if 'A' <= s[i] <= 'Z' then (s[i] as int + 32) as char else s[i])
  }

  /** Capitals become the small letters of the same place in the alphabet, and nothing else changes. */
  lemma LowerFolds(s: string, i: nat)
    requires i < |s|
    ensures var l := Lower(s)[i];
            if 'A' <= s[i] <= 'Z' then 'a' <= l <= 'z' && l as int - 'a' as int == s[i] as int - 'A' as int else l == s[i]
  {
  }

  function NormalizeScheme(scheme: string): string { Canonical(Lower(Trim(scheme))) }

  function Canonical(scheme: string): string {
    match scheme
    case "socks5" => "socks5"
    case "socks5h" => "socks5"
    case "https" => "https"
    case "http" => "http"
    case "" => "http"
    case other => other
  }

  lemma CanonicalOnce(scheme: string)
    ensures Canonical(scheme) != "" && Canonical(Canonical(scheme)) == Canonical(scheme)
    ensures Canonical(scheme) == scheme || Canonical(scheme) == "socks5" || Canonical(scheme) == "http"
  {
  }

  lemma NamesAreNormal()
    ensures Lower(Trim("socks5")) == "socks5" && Lower(Trim("http")) == "http"
  {
    TrimIdentity("socks5");
    TrimIdentity("http");
  }

  lemma LowerOfLower(s: string)
    ensures Lower(Lower(s)) == Lower(s)
  {
  }

  lemma LowerOfTrimmed(s: string)
    ensures Trim(Lower(Trim(s))) == Lower(Trim(s))
  {
    var t := Trim(s);
    assert t != "" ==> t[0] == TrimLeft(s)[0];
    assert Lower(t) != "" ==> !IsSpace(Lower(t)[0]) && !IsSpace(Lower(t)[|t| - 1]);
    TrimIdentity(Lower(t));
  }

  /** A scheme is normalized once and for all, and never empty. */
  lemma SchemeNormalizedOnce(scheme: string)
    ensures NormalizeScheme(scheme) != "" && NormalizeScheme(NormalizeScheme(scheme)) == NormalizeScheme(scheme)
  {
    var lower := Lower(Trim(scheme));
    CanonicalOnce(lower);
    NamesAreNormal();
    LowerOfTrimmed(scheme);
    LowerOfLower(Trim(scheme));
    assert Lower(Trim(Canonical(lower))) == Canonical(lower);
  }

  /** The scheme is read without regard to case and blanks; socks5h is taken for socks5, no scheme for http, and any other kept. */
  lemma SchemeNames(scheme: string)
    ensures var name := Lower(Trim(scheme));
            if name == "socks5h" then NormalizeScheme(scheme) == "socks5"
            else if name == "" then NormalizeScheme(scheme) == "http"
            else NormalizeScheme(scheme) == name
  {
  }

  // ---- parsing ----

  predicate Contains(s: string, part: string) {
    exists i :: 0 <= i <= |s| && part <= s[i..]
  }

  type UrlParser = string -> Option<Url>

  function ParseUrl(parser: UrlParser, raw: string, scheme: string): Result<Url, Error> {
    match parser(Trim(raw))
    case None => Err(Invalid)
    case Some(parsed) =>
      var url := if parsed.scheme == "" then parsed.(scheme := NormalizeScheme(scheme)) else parsed;
      if url.host == "" || Hostname(url.host) == "" then Err(NoHost) else Ok(url)
  }

  function BuildUrl(scheme: string, host: string, username: string, password: string): Result<Url, Error> {
    if Trim(host) == "" then Err(NoHost)
    else Ok(Url(NormalizeScheme(scheme), Trim(host), Some(User(Trim(username), Some(Trim(password)))), "", "", ""))
  }

  function ParseAtFormat(parser: UrlParser, value: string, scheme: string): Result<Url, Error> {
    match Cut(value, '@')
    case None => Err(BadCredentials)
    case Some((before, after)) =>
      if '@' in after then Err(BadCredentials)
      else
        var left, right := Trim(before), Trim(after);
        if CountChar(left, ':') == 1 && CountChar(right, ':') == 1 then
          (match Cut(right, ':')
           case None => Err(BadCredentials)
           case Some((username, password)) => BuildUrl(scheme, left, username, password))
        else ParseUrl(parser, scheme + "://" + value, scheme)
  }

  function ParseHostPortUserPass(value: string, scheme: string): Result<Url, Error> {
    match Cut(value, ':')
    case None => Err(BadFormat)
    case Some((host, rest)) =>
      match Cut(rest, ':')
      case None => Err(BadFormat)
      case Some((port, rest)) =>
        match Cut(rest, ':')
        case None => Err(BadFormat)
        case Some((username, password)) => BuildUrl(scheme, host + ":" + port, username, password)
  }

  function Parse(parser: UrlParser, raw: string, defaultScheme: string): Result<Url, Error> {
    var value, scheme := Trim(raw), NormalizeScheme(defaultScheme);
    if value == "" then Err(Empty)
    else if Contains(value, "://") then ParseUrl(parser, value, scheme)
    else if '@' in value then ParseAtFormat(parser, value, scheme)
    else if CountChar(value, ':') == 3 then ParseHostPortUserPass(value, scheme)
    else ParseUrl(parser, scheme + "://" + value, scheme)
  }

  // ---- the browser's view ----

  /** URL.Hostname: a last colon with nothing but digits behind it ends the name; brackets around the name are dropped. */
  function Hostname(host: string): string {
    WithoutBrackets(
      match LastIndex(host, ':')
      case None => host
      case Some(i) => if forall k :: i < k < |host| ==> IsDigit(host[k]) then host[..i] else host)
  }

  function WithoutBrackets(name: string): string {
    if |name| >= 2 && name[0] == '[' && name[|name| - 1] == ']' then name[1..|name| - 1] else name
  }

  /** strings.LastIndex, for one character. */
  function LastIndex(s: string, c: char): (r: Option<nat>)
    ensures r.Some? ==> r.value < |s| && s[r.value] == c && c !in s[r.value + 1..]
    ensures r.None? ==> c !in s
  {
    if s == "" then None
    else if s[|s| - 1] == c then Some(|s| - 1)
    else LastIndex(s[..|s| - 1], c)
  }

  function BrowserMap(url: Url): Result<map<string, string>, Error> {
    if url.scheme == "" || url.host == "" || Hostname(url.host) == "" then Err(Incomplete)
    else if url.query != "" || url.fragment != "" || (url.path != "" && url.path != "/") then Err(NotBare)
    else
      var proxy := map["server" := url.scheme + "://" + url.host];
      var proxy := if url.user.Some? && url.user.value.name != "" then proxy["username" := url.user.value.name] else proxy;
      Ok(if url.user.Some? && url.user.value.password.Some? then proxy["password" := url.user.value.password.value] else proxy)
  }

  /** The browser takes exactly the URLs of bare servers, and is told the user's name if there is one and the password if one was set. */
  lemma BrowserTakes(url: Url)
    ensures BrowserMap(url).Ok? <==>
            && url.scheme != "" && url.host != "" && Hostname(url.host) != ""
            && url.query == "" && url.fragment == "" && (url.path == "" || url.path == "/")
    ensures BrowserMap(url).Ok? ==>
              var m := BrowserMap(url).value;
              && m.Keys <= {"server", "username", "password"}
              && "server" in m && m["server"] == url.scheme + "://" + url.host
              && ("username" in m <==> url.user.Some? && url.user.value.name != "")
              && ("username" in m ==> m["username"] == url.user.value.name)
              && ("password" in m <==> url.user.Some? && url.user.value.password.Some?)
              && ("password" in m ==> m["password"] == url.user.value.password.value)
  {
  }

  // ---- the two notations with credentials ----

  predicate Unseparated(s: string) { ':' !in s && '@' !in s }

  /** Free of the separators, and not able to complete a "://". */
  predicate Plain(s: string) { Unseparated(s) && !("//" <= s) }

  lemma {:induction false} CountOfConcat(a: string, b: string, c: char)
    ensures CountChar(a + b, c) == CountChar(a, c) + CountChar(b, c)
  {
    if a == "" {
      assert a + b == b;
    } else {
      CountOfConcat(a[1..], b, c);
      assert (a + b)[1..] == a[1..] + b;
    }
  }

  lemma {:induction false} CountAbsent(s: string, c: char)
    ensures CountChar(s, c) == 0 <==> c !in s
  {
    if s != "" {
      CountAbsent(s[1..], c);
      assert s == [s[0]] + s[1..];
    }
  }

  lemma {:induction false} TrimLeftStops(a: string, c: char, b: string)
    requires !IsSpace(c)
    ensures TrimLeft(a + [c] + b) == TrimLeft(a) + [c] + b
  {
    if a != "" && IsSpace(a[0]) {
      TrimLeftStops(a[1..], c, b);
      assert (a + [c] + b)[1..] == a[1..] + [c] + b;
    }
  }

  lemma {:induction false} TrimRightStops(a: string, c: char, b: string)
    requires !IsSpace(c)
    ensures TrimRight(a + [c] + b) == a + [c] + TrimRight(b)
  {
    var s := a + [c] + b;
    if b != "" && IsSpace(b[|b| - 1]) {
      TrimRightStops(a, c, b[..|b| - 1]);
      assert s[..|s| - 1] == a + [c] + b[..|b| - 1];
    }
  }

  lemma TrimOfTwo(a: string, c: char, b: string)
    requires !IsSpace(c)
    ensures Trim(a + [c] + b) == TrimLeft(a) + [c] + TrimRight(b)
  {
    TrimLeftStops(a, c, b);
    TrimRightStops(TrimLeft(a), c, b);
  }

  lemma {:induction false} TrimRightStays(s: string)
    ensures TrimRight(TrimRight(s)) == TrimRight(s)
  {
  }

  lemma {:induction false} TrimLeftStays(s: string)
    ensures TrimLeft(TrimLeft(s)) == TrimLeft(s)
  {
  }

  /** Trimming the ends separately, in either order, is trimming both. */
  lemma {:induction false} TrimAfterRight(s: string)
    ensures Trim(TrimRight(s)) == Trim(s)
  {
    if s != "" && IsSpace(s[|s| - 1]) {
      TrimAfterRight(s[..|s| - 1]);
      DropLastBlank(s);
    }
  }

  lemma {:induction false} DropLastBlank(s: string)
    requires s != "" && IsSpace(s[|s| - 1])
    ensures Trim(s[..|s| - 1]) == Trim(s)
  {
    var init := s[..|s| - 1];
    if |s| > 1 && IsSpace(s[0]) {
      DropLastBlank(s[1..]);
      assert s[1..][..|s| - 2] == init[1..];
    } else if |s| > 1 {
      assert TrimLeft(s) == s && TrimLeft(init) == init;
    } else {
      assert init == "" && s[1..] == "";
    }
  }

  lemma {:induction false} TrimLeftDrops(s: string)
    ensures exists k :: 0 <= k <= |s| && TrimLeft(s) == s[k..]
  {
    if s != "" && IsSpace(s[0]) {
      TrimLeftDrops(s[1..]);
      var k :| 0 <= k <= |s[1..]| && TrimLeft(s[1..]) == s[1..][k..];
      assert s[1..][k..] == s[k + 1..];
    } else {
      assert s[0..] == s;
    }
  }

  lemma TrimmedSides(s: string)
    requires Unseparated(s)
    ensures Unseparated(TrimLeft(s)) && Unseparated(TrimRight(s))
    ensures Plain(s) ==> Plain(TrimRight(s))
  {
    TrimLeftDrops(s);
  }

  lemma CountOfTwo(a: string, c: char, b: string)
    requires Unseparated(a)
    ensures CountChar(a + [c] + b, ':') == (if c == ':' then 1 else 0) + CountChar(b, ':')
  {
    CountOfConcat(a + [c], b, ':');
    CountOfConcat(a, [c], ':');
    CountAbsent(a, ':');
    assert [c][1..] == "";
  }

  /** Only a colon can begin a "://". */
  lemma NoSchemeMark(a: string, c: char, b: string)
    requires ':' !in a && (c == ':' ==> !("//" <= b)) && !Contains(b, "://")
    ensures !Contains(a + [c] + b, "://")
  {
    var s := a + [c] + b;
    forall i | 0 <= i <= |s| ensures !("://" <= s[i..]) {
      MarkStart(a, c, b, i);
    }
  }

  lemma MarkStart(a: string, c: char, b: string, i: nat)
    requires ':' !in a && (c == ':' ==> !("//" <= b)) && !Contains(b, "://") && i <= |a + [c] + b|
    ensures !("://" <= (a + [c] + b)[i..])
  {
    var t := (a + [c] + b)[i..];
    if i < |a| {
      assert t[0] == a[i];
    } else if i == |a| {
      assert t == [c] + b;
      assert t[0] == c && t[1..] == b;
      assert |b| >= 2 ==> t[1] == b[0] && t[2] == b[1];
    } else {
      assert t == b[i - |a| - 1..];
    }
  }

  lemma NoSlashes(a: string, c: char, b: string)
    requires !("//" <= a) && c != '/'
    ensures !("//" <= a + [c] + b)
  {
    var s := a + [c] + b;
    assert |a| >= 2 ==> s[0] == a[0] && s[1] == a[1];
    assert |a| == 1 ==> s[1] == c;
    assert |a| == 0 ==> s[0] == c;
  }

  lemma NoColonNoMark(s: string)
    requires ':' !in s
    ensures !Contains(s, "://")
  {
    forall i | 0 <= i <= |s| ensures !("://" <= s[i..]) {
      assert i < |s| ==> s[i..][0] == s[i];
    }
  }

  function Joined(h: string, p: string, c: char, u: string, w: string): string {
    h + ":" + (p + [c] + (u + ":" + w))
  }

  lemma JoinedHasNoMark(h: string, p: string, c: char, u: string, w: string)
    requires Unseparated(h) && Plain(p) && Plain(u) && Plain(w) && (c == ':' || c == '@')
    ensures !Contains(Joined(h, p, c, u, w), "://")
    ensures CountChar(Joined(h, p, c, u, w), ':') == if c == ':' then 3 else 2
  {
    NoColonNoMark(w);
    NoSchemeMark(u, ':', w);
    NoSlashes(u, ':', w);
    NoSchemeMark(p, c, u + ":" + w);
    NoSlashes(p, c, u + ":" + w);
    NoSchemeMark(h, ':', p + [c] + (u + ":" + w));
    CountAbsent(w, ':');
    CountOfTwo(u, ':', w);
    CountOfTwo(p, c, u + ":" + w);
    CountOfTwo(h, ':', p + [c] + (u + ":" + w));
  }

  lemma TrimOfJoined(h: string, p: string, c: char, u: string, w: string)
    requires c == ':' || c == '@'
    ensures Trim(Joined(h, p, c, u, w)) == Joined(TrimLeft(h), p, c, u, TrimRight(w))
  {
    TrimOfTwo(h, ':', p + [c] + (u + ":" + w));
    TrimRightStops(p, c, u + ":" + w);
    TrimRightStops(u, ':', w);
  }

  /** What both notations come to. */
  function Credentials(scheme: string, h: string, p: string, u: string, w: string): Url {
    Url(NormalizeScheme(scheme), Trim(h + ":" + p), Some(User(Trim(u), Some(Trim(w)))), "", "", "")
  }

  /** Trimming is not undone or overdone by trimming the parts again. */
  lemma BuiltFromTrimmed(scheme: string, h: string, p: string, u: string, w: string)
    ensures BuildUrl(scheme, TrimLeft(h) + ":" + p, u, TrimRight(w)) == Ok(Credentials(scheme, h, p, u, w))
    ensures BuildUrl(scheme, TrimLeft(h) + ":" + TrimRight(p), TrimLeft(u), TrimRight(TrimRight(w))) == Ok(Credentials(scheme, h, p, u, w))
  {
    TrimOfTwo(h, ':', p);
    TrimOfTwo(TrimLeft(h), ':', p);
    TrimOfTwo(TrimLeft(h), ':', TrimRight(p));
    TrimLeftStays(h);
    TrimLeftStays(u);
    TrimRightStays(p);
    TrimRightStays(w);
    TrimAfterRight(w);
  }

  lemma ColonNotation(parser: UrlParser, scheme: string, h: string, p: string, u: string, w: string)
    requires Unseparated(h) && Plain(p) && Plain(u) && Plain(w)
    ensures Parse(parser, Joined(h, p, ':', u, w), scheme) == Ok(Credentials(scheme, h, p, u, w))
  {
    var h', w' := TrimLeft(h), TrimRight(w);
    TrimmedSides(h);
    TrimmedSides(w);
    TrimOfJoined(h, p, ':', u, w);
    JoinedHasNoMark(h', p, ':', u, w');
    SchemeNormalizedOnce(scheme);
    ColonParts(NormalizeScheme(scheme), h, p, u, w);
    JoinedHasNoAt(h', p, u, w');
  }

  lemma JoinedHasNoAt(h: string, p: string, u: string, w: string)
    requires Unseparated(h) && Unseparated(p) && Unseparated(u) && Unseparated(w)
    ensures '@' !in Joined(h, p, ':', u, w)
  {
    assert '@' !in u + ":" + w;
    assert '@' !in p + ":" + (u + ":" + w);
  }

  lemma ColonParts(scheme: string, h: string, p: string, u: string, w: string)
    requires Unseparated(h) && Plain(p) && Plain(u) && Plain(w)
    ensures ParseHostPortUserPass(Joined(TrimLeft(h), p, ':', u, TrimRight(w)), scheme) == Ok(Credentials(scheme, h, p, u, w))
  {
    var h', w' := TrimLeft(h), TrimRight(w);
    TrimmedSides(h);
    CutAtFirst(h', ':', p + ":" + (u + ":" + w'));
    CutAtFirst(p, ':', u + ":" + w');
    CutAtFirst(u, ':', w');
    BuiltFromTrimmed(scheme, h, p, u, w);
  }

  lemma AtNotation(parser: UrlParser, scheme: string, h: string, p: string, u: string, w: string)
    requires Unseparated(h) && Plain(p) && Plain(u) && Plain(w)
    ensures Parse(parser, Joined(h, p, '@', u, w), scheme) == Ok(Credentials(scheme, h, p, u, w))
  {
    var h', w' := TrimLeft(h), TrimRight(w);
    TrimmedSides(h);
    TrimmedSides(w);
    TrimOfJoined(h, p, '@', u, w);
    JoinedHasNoMark(h', p, '@', u, w');
    assert Joined(h', p, '@', u, w') == (h' + ":" + p) + "@" + (u + ":" + w');
    CutAtFirst(h' + ":" + p, '@', u + ":" + w');
    SchemeNormalizedOnce(scheme);
    AtParts(parser, NormalizeScheme(scheme), h, p, u, w);
  }

  lemma AtParts(parser: UrlParser, scheme: string, h: string, p: string, u: string, w: string)
    requires Unseparated(h) && Plain(p) && Plain(u) && Plain(w)
    requires var h', w' := TrimLeft(h), TrimRight(w);
             Cut(Joined(h', p, '@', u, w'), '@') == Some((h' + ":" + p, u + ":" + w'))
    ensures ParseAtFormat(parser, Joined(TrimLeft(h), p, '@', u, TrimRight(w)), scheme) == Ok(Credentials(scheme, h, p, u, w))
  {
    var h', w' := TrimLeft(h), TrimRight(w);
    TrimmedSides(h);
    TrimmedSides(w);
    TrimLeftStays(h);
    TrimmedPair(h', p);
    TrimmedPair(u, w');
    BuiltFromTrimmed(scheme, h, p, u, w);
    assert '@' !in u + ":" + w';
  }

  lemma TrimmedPair(a: string, b: string)
    requires Unseparated(a) && Unseparated(b)
    ensures Trim(a + ":" + b) == TrimLeft(a) + ":" + TrimRight(b)
    ensures CountChar(Trim(a + ":" + b), ':') == 1
    ensures Cut(Trim(a + ":" + b), ':') == Some((TrimLeft(a), TrimRight(b)))
  {
    TrimmedSides(a);
    TrimmedSides(b);
    TrimOfTwo(a, ':', b);
    CountOfTwo(TrimLeft(a), ':', TrimRight(b));
    CountAbsent(TrimRight(b), ':');
    CutAtFirst(TrimLeft(a), ':', TrimRight(b));
  }

  /** What the browser is given: the server always, the user unless it is blank, the password. */
  function BrowserProxy(scheme: string, server: string, username: string, password: string): map<string, string> {
    if username == "" then map["server" := scheme + "://" + server, "password" := password]
    else map["server" := scheme + "://" + server, "username" := username, "password" := password]
  }

  lemma CredentialsForBrowser(scheme: string, h: string, p: string, u: string, w: string)
    ensures var server := Trim(h + ":" + p); var proxy := BrowserMap(Credentials(scheme, h, p, u, w));
            && (proxy.Ok? <==> Hostname(server) != "")
            && (proxy.Ok? ==> proxy.value == BrowserProxy(NormalizeScheme(scheme), server, Trim(u), Trim(w)))
  {
    SchemeNormalizedOnce(scheme);
    var server := Trim(h + ":" + p);
    assert server != "" by { TrimOfTwo(h, ':', p); }
  }

  lemma JoinedText(h: string, p: string, c: char, u: string, w: string)
    ensures Joined(h, p, c, u, w) == h + ":" + p + [c] + u + ":" + w
  {
  }

  /**
   host:port:user:password and host:port@user:password mean the same proxy, blanks around the parts or not,
   and the browser is given the parts as they were written.
   */
  lemma NotationsAgree(parser: UrlParser, scheme: string, h: string, p: string, u: string, w: string)
    requires Unseparated(h) && Plain(p) && Plain(u) && Plain(w)
    ensures var colons := Parse(parser, h + ":" + p + ":" + u + ":" + w, scheme);
            && colons == Parse(parser, h + ":" + p + "@" + u + ":" + w, scheme)
            && colons.Ok?
            && var server := Trim(h + ":" + p); var proxy := BrowserMap(colons.value);
               && (proxy.Ok? <==> Hostname(server) != "")
               && (proxy.Ok? ==> proxy.value == BrowserProxy(NormalizeScheme(scheme), server, Trim(u), Trim(w)))
  {
    ColonNotation(parser, scheme, h, p, u, w);
    AtNotation(parser, scheme, h, p, u, w);
    JoinedText(h, p, ':', u, w);
    JoinedText(h, p, '@', u, w);
    CredentialsForBrowser(scheme, h, p, u, w);
  }

  // ---- separators in the password ----

  lemma {:induction false} CountOfTrimRight(s: string)
    ensures CountChar(TrimRight(s), ':') == CountChar(s, ':')
  {
    if s != "" && IsSpace(s[|s| - 1]) {
      var init := s[..|s| - 1];
      CountOfTrimRight(init);
      assert s == init + [s[|s| - 1]];
      CountOfConcat(init, [s[|s| - 1]], ':');
      CountAbsent([s[|s| - 1]], ':');
    }
  }

  lemma NoMarkInPrefix(s: string, t: string)
    requires t <= s && !Contains(s, "://")
    ensures !Contains(t, "://")
  {
    forall i | 0 <= i <= |t| ensures !("://" <= t[i..]) {
      assert t[i..] <= s[i..];
    }
  }

  lemma JoinedWithColons(h: string, p: string, c: char, u: string, w: string)
    requires Unseparated(h) && Plain(p) && Plain(u) && !("//" <= w) && !Contains(w, "://") && (c == ':' || c == '@')
    ensures !Contains(Joined(h, p, c, u, w), "://")
    ensures CountChar(Joined(h, p, c, u, w), ':') == (if c == ':' then 3 else 2) + CountChar(w, ':')
  {
    NoSchemeMark(u, ':', w);
    NoSlashes(u, ':', w);
    NoSchemeMark(p, c, u + ":" + w);
    NoSlashes(p, c, u + ":" + w);
    NoSchemeMark(h, ':', p + [c] + (u + ":" + w));
    CountOfTwo(u, ':', w);
    CountOfTwo(p, c, u + ":" + w);
    CountOfTwo(h, ':', p + [c] + (u + ":" + w));
  }

  /** A password with colons is too much for the first notation: the whole text is taken for the authority of a URL. */
  lemma ColonInPassword(parser: UrlParser, scheme: string, h: string, p: string, u: string, w: string)
    requires Unseparated(h) && Plain(p) && Plain(u) && ':' in w && '@' !in w && !("//" <= w) && !Contains(w, "://")
    ensures var text := h + ":" + p + ":" + u + ":" + w;
            Parse(parser, text, scheme) == ParseUrl(parser, NormalizeScheme(scheme) + "://" + Trim(text), NormalizeScheme(scheme))
  {
    var h', w' := TrimLeft(h), TrimRight(w);
    JoinedText(h, p, ':', u, w);
    TrimmedSides(h);
    TrimOfJoined(h, p, ':', u, w);
    NoMarkInPrefix(w, w');
    JoinedWithColons(h', p, ':', u, w');
    CountOfTrimRight(w);
    CountAbsent(w, ':');
    NoAtInJoined(h', p, u, w');
  }

  lemma NoAtInJoined(h: string, p: string, u: string, w: string)
    requires '@' !in h && '@' !in p && '@' !in u && '@' !in w
    ensures '@' !in Joined(h, p, ':', u, w)
  {
    assert '@' !in u + ":" + w;
    assert '@' !in p + ":" + (u + ":" + w);
  }

  /** And so it is for the second. */
  lemma ColonInPasswordAt(parser: UrlParser, scheme: string, h: string, p: string, u: string, w: string)
    requires Unseparated(h) && Plain(p) && Plain(u) && ':' in w && '@' !in w && !("//" <= w) && !Contains(w, "://")
    ensures var text := h + ":" + p + "@" + u + ":" + w;
            Parse(parser, text, scheme) == ParseUrl(parser, NormalizeScheme(scheme) + "://" + Trim(text), NormalizeScheme(scheme))
  {
    var h', w' := TrimLeft(h), TrimRight(w);
    JoinedText(h, p, '@', u, w);
    TrimmedSides(h);
    TrimOfJoined(h, p, '@', u, w);
    NoMarkInPrefix(w, w');
    JoinedWithColons(h', p, '@', u, w');
    CountOfTrimRight(w);
    CountAbsent(w, ':');
    AtTooMany(parser, NormalizeScheme(scheme), h', p, u, w');
  }

  lemma AtTooMany(parser: UrlParser, scheme: string, h: string, p: string, u: string, w: string)
    requires '@' !in h && '@' !in p && Unseparated(u) && '@' !in w && CountChar(w, ':') > 0
    ensures '@' in Joined(h, p, '@', u, w)
    ensures ParseAtFormat(parser, Joined(h, p, '@', u, w), scheme) == ParseUrl(parser, scheme + "://" + Joined(h, p, '@', u, w), scheme)
  {
    var value := Joined(h, p, '@', u, w);
    assert value == (h + ":" + p) + "@" + (u + ":" + w);
    CutAtFirst(h + ":" + p, '@', u + ":" + w);
    ColonsBehindUser(u, w);
    assert '@' !in u + ":" + w;
  }

  lemma ColonsBehindUser(u: string, w: string)
    requires Unseparated(u)
    ensures CountChar(Trim(u + ":" + w), ':') == 1 + CountChar(w, ':')
  {
    TrimOfTwo(u, ':', w);
    TrimmedSides(u);
    CountOfTwo(TrimLeft(u), ':', TrimRight(w));
    CountOfTrimRight(w);
  }

  /** Outside a full URL no text with more than one '@' is taken for a proxy, and neither is a blank one. */
  lemma AmbiguousIsRefused(parser: UrlParser, raw: string, scheme: string)
    ensures Trim(raw) == "" ==> Parse(parser, raw, scheme) == Err(Empty)
    ensures !Contains(Trim(raw), "://") && CountChar(Trim(raw), '@') > 1 ==> Parse(parser, raw, scheme) == Err(BadCredentials)
  {
    var value := Trim(raw);
    CountAbsent(value, '@');
    if Cut(value, '@').Some? {
      var (before, after) := Cut(value, '@').value;
      CountOfConcat(before + "@", after, '@');
      CountOfConcat(before, "@", '@');
      CountAbsent(before, '@');
      CountAbsent(after, '@');
      assert "@"[1..] == "";
    }
  }

  // ---- what url.Parse makes of an authority ----

  predicate IsLetter(c: char) { 'a' <= c <= 'z' || 'A' <= c <= 'Z' }

  /** Section 3.1 of RFC 3986. */
  predicate IsScheme(s: string) {
    s != "" && IsLetter(s[0]) && forall i :: 0 <= i < |s| ==> IsLetter(s[i]) || IsDigit(s[i]) || s[i] in "+-."
  }

  predicate Delimiter(c: char) { c == '/' || c == '?' || c == '#' }

  predicate Delimited(s: string) { exists i :: 0 <= i < |s| && Delimiter(s[i]) }

  /** What stands before the first slash, question mark or number sign (section 3.2 of RFC 3986). */
  function Authority(rest: string): (a: string)
    ensures a <= rest
  {
    if rest == "" || Delimiter(rest[0]) then "" else [rest[0]] + Authority(rest[1..])
  }

  /** Nothing but digits after the last colon, unless that is inside brackets. */
  predicate EndsInPort(host: string) {
    match LastIndex(host, ':')
    case None => true
    case Some(i) => ']' in host[i..] || forall k :: i < k < |host| ==> IsDigit(host[k])
  }

  function UserOf(info: string): User {
    match Cut(info, ':')
    case None => User(info, None)
    case Some((name, password)) => User(name, Some(password))
  }

  /** The host and port of an authority: what follows the last '@'. */
  function HostPart(authority: string): string {
    match LastIndex(authority, '@')
    case None => authority
    case Some(i) => authority[i + 1..]
  }

  /** The user is what precedes it, literally if nothing there is escaped. */
  predicate UserFits(authority: string, user: Option<User>) {
    match LastIndex(authority, '@')
    case None => user == None
    case Some(i) => user.Some? && ('%' !in authority[..i] ==> user.value == UserOf(authority[..i]))
  }

  function UrlText(scheme: string, rest: string): string { scheme + "://" + rest }

  /** The law of url.Parse: an authority it accepts has at most a port behind its host, and names the user. */
  ghost predicate SplitsAuthority(parser: UrlParser) {
    forall scheme, rest :: IsScheme(scheme) && parser(UrlText(scheme, rest)).Some? ==>
      EndsInPort(HostPart(Authority(rest))) && UserFits(Authority(rest), parser(UrlText(scheme, rest)).value.user)
  }

  lemma {:induction false} AuthorityOf(a: string, b: string)
    requires !Delimited(a)
    ensures Authority(a + b) == a + Authority(b)
  {
    if a == "" {
      assert a + b == b;
    } else {
      assert !Delimiter(a[0]) && (a + b)[0] == a[0] && (a + b)[1..] == a[1..] + b;
      forall i | 0 <= i < |a[1..]| ensures !Delimiter(a[1..][i]) {
        assert a[1..][i] == a[i + 1];
      }
      AuthorityOf(a[1..], b);
    }
  }

  lemma WholeAuthority(s: string)
    requires !Delimited(s)
    ensures Authority(s) == s
  {
    AuthorityOf(s, "");
    assert s + "" == s;
  }

  lemma {:induction false} LastInSecond(a: string, b: string, c: char)
    requires c in b
    ensures LastIndex(a + b, c).Some? && LastIndex(b, c).Some? && LastIndex(a + b, c).value == |a| + LastIndex(b, c).value
  {
    if b[|b| - 1] != c {
      LastInSecond(a, b[..|b| - 1], c);
      assert (a + b)[..|a + b| - 1] == a + b[..|b| - 1];
    }
  }

  lemma PortInSecond(a: string, b: string)
    requires ':' in b
    ensures EndsInPort(a + b) <==> EndsInPort(b)
  {
    LastInSecond(a, b, ':');
    var i := LastIndex(b, ':').value;
    assert (a + b)[|a| + i..] == b[i..];
    assert forall k :: i <= k < |b| ==> (a + b)[|a| + k] == b[k];
    assert forall k :: |a| + i <= k < |a + b| ==> (a + b)[k] == b[k - |a|];
  }

  /** A text taken for the authority of a URL is refused, or accepted with the user its authority names. */
  lemma ParsedAuthority(parser: UrlParser, scheme: string, text: string)
    requires SplitsAuthority(parser) && IsScheme(scheme) && text != "" && !IsSpace(text[|text| - 1])
    ensures var r := ParseUrl(parser, scheme + "://" + text, scheme);
            && (r.Ok? ==> UserFits(Authority(text), r.value.user))
            && (r == Err(Invalid) || EndsInPort(HostPart(Authority(text))))
  {
    UrlTextTrimmed(scheme, text);
    var parsed := parser(UrlText(scheme, text));
    assert parsed.Some? ==> EndsInPort(HostPart(Authority(text))) && UserFits(Authority(text), parsed.value.user);
    ParseUrlKeepsUser(parser, UrlText(scheme, text), scheme);
  }

  lemma UrlTextTrimmed(scheme: string, text: string)
    requires IsScheme(scheme) && text != "" && !IsSpace(text[|text| - 1])
    ensures Trim(UrlText(scheme, text)) == UrlText(scheme, text)
  {
    var raw := UrlText(scheme, text);
    assert raw[|raw| - 1] == text[|text| - 1] && raw[0] == scheme[0];
    TrimIdentity(raw);
  }

  lemma ParseUrlKeepsUser(parser: UrlParser, raw: string, scheme: string)
    requires Trim(raw) == raw
    ensures var r := ParseUrl(parser, raw, scheme);
            && (parser(raw).None? ==> r == Err(Invalid))
            && (r.Ok? ==> parser(raw).Some? && r.value.user == parser(raw).value.user)
  {
  }

  lemma ColonsNoUser(parser: UrlParser, scheme: string, text: string)
    requires SplitsAuthority(parser) && IsScheme(scheme) && text != "" && !IsSpace(text[|text| - 1]) && '@' !in text
    ensures var r := ParseUrl(parser, scheme + "://" + text, scheme);
            && (r.Ok? ==> r.value.user == None)
            && (!Delimited(text) && !EndsInPort(text) ==> r == Err(Invalid))
  {
    ParsedAuthority(parser, scheme, text);
    assert LastIndex(Authority(text), '@') == None;
    if !Delimited(text) {
      WholeAuthority(text);
    }
  }

  lemma {:induction false} LastInFirst(a: string, b: string, c: char)
    requires c !in b
    ensures LastIndex(a + b, c) == LastIndex(a, c)
  {
    if b == "" {
      assert a + b == a;
    } else {
      LastInFirst(a, b[..|b| - 1], c);
      assert (a + b)[..|a + b| - 1] == a + b[..|b| - 1] && (a + b)[|a + b| - 1] == b[|b| - 1];
    }
  }

  lemma OneAt(info: string, host: string)
    requires '@' !in host
    ensures HostPart(info + "@" + host) == host
    ensures forall user :: UserFits(info + "@" + host, user) ==> user.Some? && ('%' !in info ==> user.value == UserOf(info))
  {
    var text := info + "@" + host;
    LastInFirst(info + "@", host, '@');
    assert LastIndex(text, '@') == Some(|info|);
    assert text[..|info|] == info && text[|info| + 1..] == host;
  }

  lemma AtFirstUser(parser: UrlParser, scheme: string, info: string, host: string)
    requires SplitsAuthority(parser) && IsScheme(scheme) && host != "" && !IsSpace(host[|host| - 1])
    requires !Delimited(info) && '@' !in host
    ensures var r := ParseUrl(parser, scheme + "://" + (info + "@" + host), scheme);
            && (r.Ok? ==> r.value.user.Some? && ('%' !in info ==> r.value.user.value == UserOf(info)))
            && (!Delimited(host) && !EndsInPort(host) ==> r == Err(Invalid))
  {
    ParsedAuthority(parser, scheme, info + "@" + host);
    AuthorityOf(info + "@", host);
    OneAt(info, Authority(host));
    if !Delimited(host) {
      WholeAuthority(host);
    }
  }

  /** The four parts as they stand in an authority with blanks trimmed off. */
  predicate Ready(h: string, p: string, u: string, w: string) {
    && Unseparated(h) && !Delimited(h) && !Delimited(p)
    && '@' !in p && '@' !in u && '@' !in w && ':' in w && !IsSpace(w[|w| - 1])
  }

  lemma UndelimitedPair(a: string, b: string)
    requires !Delimited(a) && !Delimited(b)
    ensures !Delimited(a + ":" + b)
  {
  }

  /** In front of the password's colons nothing matters for the port. */
  lemma PortOfJoined(h: string, p: string, u: string, w: string)
    requires ':' in w
    ensures EndsInPort(Joined(h, p, ':', u, w)) <==> EndsInPort(w)
  {
    var front := h + ":" + p + ":" + u + ":";
    assert Joined(h, p, ':', u, w) == front + w;
    PortInSecond(front, w);
  }

  lemma ColonsComeTo(parser: UrlParser, scheme: string, h: string, p: string, u: string, w: string)
    requires SplitsAuthority(parser) && IsScheme(scheme) && Ready(h, p, u, w)
    ensures var r := ParseUrl(parser, scheme + "://" + Joined(h, p, ':', u, w), scheme);
            && (r.Ok? ==> r.value.user == None)
            && (!Delimited(u) && !Delimited(w) && !EndsInPort(w) ==> r == Err(Invalid))
  {
    NoAtInJoined(h, p, u, w);
    ColonsNoUser(parser, scheme, Joined(h, p, ':', u, w));
    PortOfJoined(h, p, u, w);
    if !Delimited(u) && !Delimited(w) {
      UndelimitedPair(u, w);
      UndelimitedPair(p, u + ":" + w);
      UndelimitedPair(h, p + ":" + (u + ":" + w));
    }
  }

  lemma AtComesTo(parser: UrlParser, scheme: string, h: string, p: string, u: string, w: string)
    requires SplitsAuthority(parser) && IsScheme(scheme) && Ready(h, p, u, w)
    ensures var r := ParseUrl(parser, scheme + "://" + Joined(h, p, '@', u, w), scheme);
            && (r.Ok? ==> r.value.user.Some? && ('%' !in h && '%' !in p ==> r.value.user == Some(User(h, Some(p)))))
            && (!Delimited(u) && !Delimited(w) && !EndsInPort(w) ==> r == Err(Invalid))
  {
    var info, host := h + ":" + p, (u + ":") + w;
    assert Joined(h, p, '@', u, w) == info + "@" + host;
    AtFirstUser(parser, scheme, info, host);
    CutAtFirst(h, ':', p);
    PortInSecond(u + ":", w);
    UndelimitedPair(h, p);
    if !Delimited(u) && !Delimited(w) {
      UndelimitedPair(u, w);
    }
  }

  /** Host, port and user as in the two notations, and a password with colons. */
  predicate ManyColons(h: string, p: string, u: string, w: string) {
    && Unseparated(h) && Plain(p) && Plain(u) && !Delimited(h) && !Delimited(p)
    && ':' in w && '@' !in w && !("//" <= w) && !Contains(w, "://")
  }

  /** The URL says nothing after the password's last colon but a port, unless a path or the like begins before. */
  predicate MayEndInPort(u: string, w: string) { Delimited(u) || Delimited(w) || EndsInPort(TrimRight(w)) }

  lemma TrimmedHost(h: string)
    requires Unseparated(h) && !Delimited(h)
    ensures Unseparated(TrimLeft(h)) && !Delimited(TrimLeft(h)) && ('%' !in h ==> '%' !in TrimLeft(h))
  {
    TrimLeftDrops(h);
    var k :| 0 <= k <= |h| && TrimLeft(h) == h[k..];
    assert forall i :: 0 <= i < |h| - k ==> h[k..][i] == h[k + i];
  }

  lemma TrimmedPassword(w: string)
    requires ':' in w && '@' !in w
    ensures var t := TrimRight(w); ':' in t && '@' !in t && !IsSpace(t[|t| - 1]) && (!Delimited(w) ==> !Delimited(t))
  {
    CountOfTrimRight(w);
    CountAbsent(w, ':');
    CountAbsent(TrimRight(w), ':');
  }

  lemma ColonNotationParsed(parser: UrlParser, scheme: string, h: string, p: string, u: string, w: string)
    requires ManyColons(h, p, u, w)
    ensures var authority := Joined(TrimLeft(h), p, ':', u, TrimRight(w));
            Parse(parser, h + ":" + p + ":" + u + ":" + w, scheme) ==
            ParseUrl(parser, NormalizeScheme(scheme) + "://" + authority, NormalizeScheme(scheme))
  {
    ColonInPassword(parser, scheme, h, p, u, w);
    JoinedText(h, p, ':', u, w);
    TrimOfJoined(h, p, ':', u, w);
  }

  lemma ColonNotationOutcome(parser: UrlParser, scheme: string, h: string, p: string, u: string, w: string)
    requires SplitsAuthority(parser) && IsScheme(NormalizeScheme(scheme)) && ManyColons(h, p, u, w)
    ensures var r := Parse(parser, h + ":" + p + ":" + u + ":" + w, scheme);
            (r.Ok? ==> r.value.user == None) && (!MayEndInPort(u, w) ==> r == Err(Invalid))
  {
    ColonNotationParsed(parser, scheme, h, p, u, w);
    TrimmedHost(h);
    TrimmedPassword(w);
    ColonsComeTo(parser, NormalizeScheme(scheme), TrimLeft(h), p, u, TrimRight(w));
  }

  lemma AtNotationParsed(parser: UrlParser, scheme: string, h: string, p: string, u: string, w: string)
    requires ManyColons(h, p, u, w)
    ensures var authority := Joined(TrimLeft(h), p, '@', u, TrimRight(w));
            Parse(parser, h + ":" + p + "@" + u + ":" + w, scheme) ==
            ParseUrl(parser, NormalizeScheme(scheme) + "://" + authority, NormalizeScheme(scheme))
  {
    ColonInPasswordAt(parser, scheme, h, p, u, w);
    JoinedText(h, p, '@', u, w);
    TrimOfJoined(h, p, '@', u, w);
  }

  lemma AtNotationOutcome(parser: UrlParser, scheme: string, h: string, p: string, u: string, w: string)
    requires SplitsAuthority(parser) && IsScheme(NormalizeScheme(scheme)) && ManyColons(h, p, u, w)
    ensures var r := Parse(parser, h + ":" + p + "@" + u + ":" + w, scheme);
            && (r.Ok? ==> r.value.user.Some? && ('%' !in h && '%' !in p ==> r.value.user == Some(User(TrimLeft(h), Some(p)))))
            && (!MayEndInPort(u, w) ==> r == Err(Invalid))
  {
    AtNotationParsed(parser, scheme, h, p, u, w);
    TrimmedHost(h);
    TrimmedPassword(w);
    AtComesTo(parser, NormalizeScheme(scheme), TrimLeft(h), p, u, TrimRight(w));
  }

  /**
   What a password with colons comes to.  Taken for an authority, host:port:user:password has no user at all and
   host:port@user:password has the host for its user and the port for its password; so the two notations never
   give the same URL.  They agree only in being refused, as they are whenever something but digits follows the
   password's last colon.
   */
  lemma PasswordWithColons(parser: UrlParser, scheme: string, h: string, p: string, u: string, w: string)
    requires SplitsAuthority(parser) && IsScheme(NormalizeScheme(scheme)) && ManyColons(h, p, u, w)
    ensures var colons := Parse(parser, h + ":" + p + ":" + u + ":" + w, scheme);
            var at := Parse(parser, h + ":" + p + "@" + u + ":" + w, scheme);
            && (colons.Ok? ==> colons.value.user == None)
            && (at.Ok? ==> at.value.user.Some? && ('%' !in h && '%' !in p ==> at.value.user == Some(User(TrimLeft(h), Some(p)))))
            && (colons == at ==> colons.Err?)
            && (!MayEndInPort(u, w) ==> colons == at == Err(Invalid))
  {
    ColonNotationOutcome(parser, scheme, h, p, u, w);
    AtNotationOutcome(parser, scheme, h, p, u, w);
  }

  // ---- full URLs and plain servers ----

  predicate HostChar(c: char) { IsLetter(c) || IsDigit(c) || c == '.' || c == '-' }

  /** A host name and a port. */
  predicate PlainServer(h: string, p: string) {
    && h != "" && (forall i :: 0 <= i < |h| ==> HostChar(h[i]))
    && p != "" && (forall i :: 0 <= i < |p| ==> IsDigit(p[i]))
  }

  /** Unreserved characters only (section 2.3 of RFC 3986). */
  predicate Unreserved(s: string) {
    forall i :: 0 <= i < |s| ==> HostChar(s[i]) || s[i] == '_' || s[i] == '~'
  }

  function ServerText(h: string, p: string): string { h + ":" + p }

  function UserText(u: string, w: string, server: string): string { u + ":" + w + "@" + server }

  /** The law of url.Parse for URLs in which nothing has to be escaped: it lowers the scheme and reads the parts as they are. */
  ghost predicate ReadsPlainly(parser: UrlParser) {
    && (forall scheme, h, p :: IsScheme(scheme) && PlainServer(h, p) ==>
          parser(UrlText(scheme, ServerText(h, p))) == Some(Url(Lower(scheme), ServerText(h, p), None, "", "", "")))
    && (forall scheme, h, p, u, w :: IsScheme(scheme) && PlainServer(h, p) && Unreserved(u) && Unreserved(w) ==>
          parser(UrlText(scheme, UserText(u, w, ServerText(h, p)))) ==
          Some(Url(Lower(scheme), ServerText(h, p), Some(User(u, Some(w))), "", "", "")))
  }

  lemma LowerOfNormal(scheme: string)
    ensures Lower(NormalizeScheme(scheme)) == NormalizeScheme(scheme)
  {
    var lower := Lower(Trim(scheme));
    LowerOfLower(Trim(scheme));
    CanonicalOnce(lower);
    assert Lower("socks5") == "socks5" && Lower("http") == "http";
  }

  lemma HostnameOfServer(h: string, p: string)
    requires PlainServer(h, p)
    ensures Hostname(ServerText(h, p)) == h
  {
    assert ':' !in p;
    LastInFirst(h + ":", p, ':');
    assert LastIndex(h + ":", ':') == Some(|h|);
    var server := ServerText(h, p);
    assert server[..|h|] == h;
    assert forall k :: |h| < k < |server| ==> server[k] == p[k - |h| - 1];
    assert HostChar(h[0]);
  }

  /** A text with "://" is read as a URL, whatever the default scheme. */
  lemma UrlIsRead(parser: UrlParser, scheme: string, rest: string, other: string, url: Url)
    requires IsScheme(scheme) && rest != "" && !IsSpace(rest[|rest| - 1])
    requires parser(UrlText(scheme, rest)) == Some(url) && url.scheme != "" && url.host != "" && Hostname(url.host) != ""
    ensures Parse(parser, UrlText(scheme, rest), other) == Ok(url)
    ensures ParseUrl(parser, UrlText(scheme, rest), other) == Ok(url)
  {
    var raw := UrlText(scheme, rest);
    UrlTextTrimmed(scheme, rest);
    assert "://" <= raw[|scheme|..];
  }

  /** host:port without credentials is completed by the default scheme. */
  lemma ServerIsCompleted(parser: UrlParser, scheme: string, h: string, p: string)
    requires PlainServer(h, p) && IsScheme(NormalizeScheme(scheme))
    ensures Parse(parser, ServerText(h, p), scheme) ==
            ParseUrl(parser, UrlText(NormalizeScheme(scheme), ServerText(h, p)), NormalizeScheme(scheme))
  {
    var server := ServerText(h, p);
    ServerHasNoMarks(h, p);
    assert server[0] == h[0] && server[|server| - 1] == p[|p| - 1];
    TrimIdentity(server);
  }

  lemma SlashFree(s: string)
    requires '/' !in s
    ensures !("//" <= s)
  {
    assert |s| >= 2 ==> s[0] != '/';
  }

  lemma ServerHasNoMarks(h: string, p: string)
    requires PlainServer(h, p)
    ensures var server := ServerText(h, p); !Contains(server, "://") && '@' !in server && CountChar(server, ':') == 1
  {
    assert Unseparated(h) && Unseparated(p);
    SlashFree(p);
    NoColonNoMark(p);
    NoSchemeMark(h, ':', p);
    CountOfTwo(h, ':', p);
    CountAbsent(p, ':');
  }

  lemma CredentialsOfPlain(scheme: string, h: string, p: string, u: string, w: string)
    requires PlainServer(h, p) && Unreserved(u) && Unreserved(w)
    ensures Unseparated(h) && Plain(p) && Plain(u) && Plain(w)
    ensures Credentials(scheme, h, p, u, w) == Url(NormalizeScheme(scheme), ServerText(h, p), Some(User(u, Some(w))), "", "", "")
  {
    SlashFree(p);
    SlashFree(u);
    SlashFree(w);
    TrimOfBlankFree(u);
    TrimOfBlankFree(w);
    TrimOfBlankFree(ServerText(h, p));
  }

  /**
   A full URL without escapes and the notation it abbreviates mean the same proxy, with credentials and without,
   and the browser is given the parts as written.  The scheme written counts, not the default one.
   */
  lemma FullUrlsAgree(parser: UrlParser, scheme: string, other: string, h: string, p: string, u: string, w: string)
    requires ReadsPlainly(parser) && IsScheme(NormalizeScheme(scheme)) && PlainServer(h, p) && Unreserved(u) && Unreserved(w)
    ensures var url := Url(NormalizeScheme(scheme), h + ":" + p, Some(User(u, Some(w))), "", "", "");
            && Parse(parser, UrlText(NormalizeScheme(scheme), u + ":" + w + "@" + (h + ":" + p)), other) == Ok(url)
            && Parse(parser, h + ":" + p + ":" + u + ":" + w, scheme) == Ok(url)
            && BrowserMap(url) == Ok(BrowserProxy(NormalizeScheme(scheme), h + ":" + p, u, w))
    ensures var url := Url(NormalizeScheme(scheme), h + ":" + p, None, "", "", "");
            && Parse(parser, UrlText(NormalizeScheme(scheme), h + ":" + p), other) == Ok(url)
            && Parse(parser, h + ":" + p, scheme) == Ok(url)
            && BrowserMap(url) == Ok(map["server" := NormalizeScheme(scheme) + "://" + (h + ":" + p)])
  {
    CredentialsAgree(parser, scheme, other, h, p, u, w);
    ServersAgree(parser, scheme, other, h, p);
    BrowserOfServer(scheme, h, p, None);
    BrowserOfServer(scheme, h, p, Some(User(u, Some(w))));
  }

  lemma BrowserOfServer(scheme: string, h: string, p: string, user: Option<User>)
    requires PlainServer(h, p) && (user.Some? ==> user.value.password.Some?)
    ensures BrowserMap(Url(NormalizeScheme(scheme), h + ":" + p, user, "", "", "")) ==
            Ok(if user.None? then map["server" := NormalizeScheme(scheme) + "://" + (h + ":" + p)]
               else BrowserProxy(NormalizeScheme(scheme), h + ":" + p, user.value.name, user.value.password.value))
  {
    HostnameOfServer(h, p);
    SchemeNormalizedOnce(scheme);
  }

  lemma CredentialsAgree(parser: UrlParser, scheme: string, other: string, h: string, p: string, u: string, w: string)
    requires ReadsPlainly(parser) && IsScheme(NormalizeScheme(scheme)) && PlainServer(h, p) && Unreserved(u) && Unreserved(w)
    ensures var url := Url(NormalizeScheme(scheme), ServerText(h, p), Some(User(u, Some(w))), "", "", "");
            && Parse(parser, UrlText(NormalizeScheme(scheme), UserText(u, w, ServerText(h, p))), other) == Ok(url)
            && Parse(parser, h + ":" + p + ":" + u + ":" + w, scheme) == Ok(url)
  {
    HostnameOfServer(h, p);
    LowerOfNormal(scheme);
    CredentialsOfPlain(scheme, h, p, u, w);
    UrlIsRead(parser, NormalizeScheme(scheme), UserText(u, w, ServerText(h, p)), other, Credentials(scheme, h, p, u, w));
    ColonNotation(parser, scheme, h, p, u, w);
    JoinedText(h, p, ':', u, w);
  }

  lemma ServersAgree(parser: UrlParser, scheme: string, other: string, h: string, p: string)
    requires ReadsPlainly(parser) && IsScheme(NormalizeScheme(scheme)) && PlainServer(h, p)
    ensures var url := Url(NormalizeScheme(scheme), ServerText(h, p), None, "", "", "");
            && Parse(parser, UrlText(NormalizeScheme(scheme), ServerText(h, p)), other) == Ok(url)
            && Parse(parser, ServerText(h, p), scheme) == Ok(url)
  {
    var url := Url(NormalizeScheme(scheme), ServerText(h, p), None, "", "", "");
    HostnameOfServer(h, p);
    LowerOfNormal(scheme);
    UrlIsRead(parser, NormalizeScheme(scheme), ServerText(h, p), other, url);
    UrlIsRead(parser, NormalizeScheme(scheme), ServerText(h, p), NormalizeScheme(scheme), url);
    ServerIsCompleted(parser, scheme, h, p);
  }
}
