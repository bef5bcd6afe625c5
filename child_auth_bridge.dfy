/** The embedding page's side of the iframe session bridge: which origins
    may ask for the session, and where the answer is posted. URL parsing is
    the browser's and is passed in as `UrlParser`. */
module ChildAuthBridge {
  import opened Wrappers
  import opened Js

  /** The two readings of `new URL(s)` the bridge uses; `None` when the
      constructor throws. */
  datatype UrlParser = UrlParser(host: string -> Option<string>, origin: string -> Option<string>)

  predicate HasScheme(s: string) {
    StartsWith(s, "http://") || StartsWith(s, "https://")
  }

  // ---------------------------------------------------------------------
  // originMatches
  // ---------------------------------------------------------------------

  /** The host a pattern names: a URL pattern's host when it parses, the
      pattern itself otherwise. */
  function PatternHost(pattern: string, url: UrlParser): string {
    if HasScheme(pattern) then
      match url.host(pattern)
      case Some(h) => h
      case None => pattern
    else pattern
  }

  /** `originMatches(origin, pattern)` */
  predicate OriginMatches(origin: string, pattern: string, url: UrlParser) {
    if pattern == "*" then true
    else match url.host(origin)
      case None => false
      case Some(realHost) =>
        var patHost := PatternHost(pattern, url);
        if StartsWith(patHost, "*.") then
          var suf := patHost[1..];
          EndsWith(realHost, suf) || realHost == suf[1..]
        else realHost == patHost
  }

  /** "*" matches every origin, even one that does not parse. */
  lemma StarMatchesAll(origin: string, url: UrlParser)
    ensures OriginMatches(origin, "*", url)
  {
  }

  /** An origin that does not parse matches no pattern but "*". */
  lemma UnparseableOrigin(origin: string, pattern: string, url: UrlParser)
    requires url.host(origin).None?
    ensures OriginMatches(origin, pattern, url) <==> pattern == "*"
  {
  }

  /** "*.d" matches the host d itself and every host ending in ".d". */
  lemma WildcardPattern(origin: string, d: string, url: UrlParser)
    requires url.host(origin).Some?
    ensures OriginMatches(origin, "*." + d, url)
      <==> EndsWith(url.host(origin).value, "." + d) || url.host(origin).value == d
  {
    var p := "*." + d;
    assert !HasScheme(p) by {
      assert p[0] == '*';
    }
    assert StartsWith(p, "*.") by {
      assert p[..2] == "*.";
    }
    assert p[1..] == "." + d;
    assert ("." + d)[1..] == d;
  }

  /** The wildcard does not match a host that merely ends in the domain's
      letters without the dot. */
  lemma WildcardNeedsDot(url: UrlParser)
    requires url.host("https://xexample.com") == Some("xexample.com")
    ensures !OriginMatches("https://xexample.com", "*.example.com", url)
  {
    assert "*." + "example.com" == "*.example.com";
    WildcardPattern("https://xexample.com", "example.com", url);
    assert "xexample.com"[1..] == "example.com";
    assert "xexample.com" != ".example.com" by {
      assert "xexample.com"[0] != ".example.com"[0];
    }
    assert "xexample.com" != "example.com" by {
      assert |"xexample.com"| != |"example.com"|;
    }
    assert "xexample.com"[|"xexample.com"| - |".example.com"|..] == "xexample.com";
  }

  /** Any other pattern, its scheme stripped when it has one, matches
      only the identical host. */
  lemma ExactPattern(origin: string, pattern: string, url: UrlParser)
    requires pattern != "*" && !StartsWith(PatternHost(pattern, url), "*.")
    requires url.host(origin).Some?
    ensures OriginMatches(origin, pattern, url) <==> url.host(origin).value == PatternHost(pattern, url)
    ensures !HasScheme(pattern) ==> PatternHost(pattern, url) == pattern
  {
  }

  // ---------------------------------------------------------------------
  // The allowlist
  // ---------------------------------------------------------------------

  /** `opts.allowedOrigins`: absent, "*", or a list. */
  datatype AllowedOption = Unset | AllOrigins | Listed(items: seq<string>)

  /** `allowed`: every origin, or a list of patterns. */
  datatype Allowed = AnyOrigin | Patterns(list: seq<string>)

  /** `srcOrigin`: the iframe source's origin, "*" when it does not parse. */
  function SrcOrigin(iframeSrc: string, url: UrlParser): string {
    match url.origin(iframeSrc)
    case Some(o) => o
    case None => "*"
  }

  /** `items.map(f).filter(Boolean)` */
  function MapNonEmpty(items: seq<string>, f: string -> string): (r: seq<string>)
    ensures forall i :: 0 <= i < |r| ==> r[i] != ""
    ensures |r| <= |items|
  {
    if items == [] then []
    else
      var rest := MapNonEmpty(items[1..], f);
      if f(items[0]) != "" then [f(items[0])] + rest else rest
  }

  /** `items.map(s => s.trim()).filter(Boolean)` */
  function TrimmedEntries(items: seq<string>): seq<string> {
    MapNonEmpty(items, Trim)
  }

  /** `allowed` as the bridge builds it. */
  function AllowList(opt: AllowedOption, srcOrigin: string): Allowed {
    match opt
    case AllOrigins => AnyOrigin
    case Listed(items) => Patterns(TrimmedEntries(items))
    case Unset => Patterns([srcOrigin])
  }

  lemma {:induction false} MapNonEmptyMembers(items: seq<string>, f: string -> string, x: string)
    ensures x in MapNonEmpty(items, f) <==> x != "" && exists i :: 0 <= i < |items| && f(items[i]) == x
  {
    if items != [] {
      var tail := items[1..];
      MapNonEmptyMembers(tail, f, x);
      if x != "" && (exists i :: 0 <= i < |items| && f(items[i]) == x) {
        var i :| 0 <= i < |items| && f(items[i]) == x;
        if i > 0 {
          assert tail[i - 1] == items[i];
        }
      }
      if x in MapNonEmpty(tail, f) {
        var i :| 0 <= i < |tail| && f(tail[i]) == x;
        assert f(items[i + 1]) == x;
      }
    }
  }

  /** An entry survives exactly when it is not blank, and it survives
      trimmed. */
  lemma TrimmedEntriesMembers(items: seq<string>, x: string)
    ensures x in TrimmedEntries(items) <==> x != "" && exists i :: 0 <= i < |items| && Trim(items[i]) == x
    ensures x in TrimmedEntries(items) ==> Trim(x) == x
  {
    MapNonEmptyMembers(items, Trim, x);
    if x in TrimmedEntries(items) {
      var i :| 0 <= i < |items| && Trim(items[i]) == x;
      TrimTwice(items[i]);
    }
  }

  /** Without an option only the iframe's own origin is allowed, or every
      origin when the iframe's source does not parse; an explicit list is
      trimmed and its blank entries dropped. */
  lemma AllowListDefaults(opt: AllowedOption, iframeSrc: string, url: UrlParser)
    ensures opt == Unset && url.origin(iframeSrc).Some? ==> AllowList(opt, SrcOrigin(iframeSrc, url)) == Patterns([url.origin(iframeSrc).value])
    ensures opt == Unset && url.origin(iframeSrc).None? ==>
      forall origin :: IsAllowed(AllowList(opt, SrcOrigin(iframeSrc, url)), origin, url)
    ensures opt.Listed? ==> AllowList(opt, SrcOrigin(iframeSrc, url)).Patterns?
    ensures opt.Listed? ==> forall x :: x in AllowList(opt, SrcOrigin(iframeSrc, url)).list <==> x != "" && exists i :: 0 <= i < |opt.items| && Trim(opt.items[i]) == x
  {
    if opt == Unset && url.origin(iframeSrc).None? {
      forall origin
        ensures IsAllowed(AllowList(opt, SrcOrigin(iframeSrc, url)), origin, url)
      {
        assert OriginMatches(origin, ["*"][0], url);
      }
    }
    if opt.Listed? {
      forall x
        ensures x in AllowList(opt, SrcOrigin(iframeSrc, url)).list <==> x != "" && exists i :: 0 <= i < |opt.items| && Trim(opt.items[i]) == x
      {
        TrimmedEntriesMembers(opt.items, x);
      }
    }
  }

  /** `isAllowed(origin)` */
  predicate IsAllowed(allowed: Allowed, origin: string, url: UrlParser) {
    match allowed
    case AnyOrigin => true
    case Patterns(list) => exists i :: 0 <= i < |list| && OriginMatches(origin, list[i], url)
  }

  /** An origin is allowed by a list exactly when one of its patterns
      matches it; a list holding "*" allows everything, an empty list
      nothing. */
  lemma IsAllowedByList(list: seq<string>, origin: string, url: UrlParser)
    ensures IsAllowed(Patterns(list), origin, url) <==> exists p :: p in list && OriginMatches(origin, p, url)
    ensures "*" in list ==> IsAllowed(Patterns(list), origin, url)
    ensures !IsAllowed(Patterns([]), origin, url)
  {
    if exists p :: p in list && OriginMatches(origin, p, url) {
      var p :| p in list && OriginMatches(origin, p, url);
      var i :| 0 <= i < |list| && list[i] == p;
    }
    if "*" in list {
      var i :| 0 <= i < |list| && list[i] == "*";
      assert OriginMatches(origin, list[i], url);
    }
  }

  // ---------------------------------------------------------------------
  // Posting the session
  // ---------------------------------------------------------------------

  /** `toOriginString(s)`: the origin of `s`, read as https when it has no
      scheme; "" when it does not parse. */
  function ToOriginString(s: string, url: UrlParser): string {
    var parsed := if HasScheme(s) then url.origin(s) else url.origin("https://" + s);
    match parsed
    case Some(o) => o
    case None => ""
  }

  /** The target origin of `postProactive`: the override's origin, the
      override itself when that is empty, "*" without an override. */
  function ProactiveTarget(targetOriginOverride: Option<string>, url: UrlParser): (t: string)
    ensures t != ""
    ensures targetOriginOverride.None? || targetOriginOverride == Some("") ==> t == "*"
  {
    var forced :=
      if targetOriginOverride.Some? && targetOriginOverride.value != "" then
        var o := ToOriginString(targetOriginOverride.value, url);
        if o != "" then o else targetOriginOverride.value
      else "*";
    if forced != "" then forced else "*"
  }

  /** `auth:set` with the current user's token and uid, both null when
      nobody is signed in. */
  datatype AuthSet = AuthSet(token: Option<string>, userId: Option<string>)

  /** A signed-in user: the uid and the ID token `getIdToken(false)` gives. */
  datatype SignedIn = SignedIn(uid: string, token: string)

  function SessionMessage(user: Option<SignedIn>): AuthSet {
    match user
    case Some(u) => AuthSet(Some(u.token), Some(u.uid))
    case None => AuthSet(None, None)
  }

  /** One `win.postMessage(msg, targetOrigin)`. */
  datatype Post = Post(win: int, msg: AuthSet, targetOrigin: string)

  /** `sendAuth(win, targetOrigin)`: to the given origin when there is
      one, otherwise as `postProactive` does; nothing without a window. */
  function SendAuth(win: Option<int>, targetOrigin: string, user: Option<SignedIn>, targetOriginOverride: Option<string>, url: UrlParser): Option<Post> {
    if win.None? then None
    else if targetOrigin != "" then Some(Post(win.value, SessionMessage(user), targetOrigin))
    else Some(Post(win.value, SessionMessage(user), ProactiveTarget(targetOriginOverride, url)))
  }

  /** A `message` event: its data, its source window and its origin. */
  datatype MessageEvent = MessageEvent(data: JsValue, source: Option<int>, origin: string)

  /** The data is an object whose `type` is "auth:request". */
  predicate IsAuthRequest(data: JsValue) {
    Truthy(data) && (data.JObject? || data.JArray?) && Get(data, "type") == JStr("auth:request")
  }

  /** `handleMessage(ev)`: the post it makes, if any. */
  function HandleMessage(ev: MessageEvent, iframeWindow: Option<int>, allowed: Allowed, user: Option<SignedIn>,
                         targetOriginOverride: Option<string>, url: UrlParser): Option<Post>
  {
    if !(Truthy(ev.data) && (ev.data.JObject? || ev.data.JArray?)) then None
    else if Get(ev.data, "type") != JStr("auth:request") then None
    else if ev.source != iframeWindow then None
    else if !IsAllowed(allowed, ev.origin, url) then None
    else SendAuth(ev.source, ev.origin, user, targetOriginOverride, url)
  }

  /** Only an "auth:request" object coming from the iframe's window with
      an allowed origin gets an answer; the answer goes to that window,
      carries the current session, and is addressed to the event's
      origin. */
  lemma OnlyAllowedRequestsAnswered(ev: MessageEvent, iframeWindow: Option<int>, allowed: Allowed, user: Option<SignedIn>,
                                    targetOriginOverride: Option<string>, url: UrlParser)
    ensures HandleMessage(ev, iframeWindow, allowed, user, targetOriginOverride, url).Some?
      <==> IsAuthRequest(ev.data) && ev.source.Some? && ev.source == iframeWindow && IsAllowed(allowed, ev.origin, url)
    ensures HandleMessage(ev, iframeWindow, allowed, user, targetOriginOverride, url).Some? ==>
      var p := HandleMessage(ev, iframeWindow, allowed, user, targetOriginOverride, url).value;
      && ev.data.JObject?
      && Some(p.win) == iframeWindow
      && p.msg == SessionMessage(user)
      && (ev.origin != "" ==> p.targetOrigin == ev.origin)
  {
  }
}
