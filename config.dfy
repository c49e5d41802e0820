/** The configuration rules of `internal/config/config.go`: network and timeout defaults,
    GraphQL endpoint construction, the feature set sent with a query, the `Cookie` header,
    the import of browser cookies into the configuration, and the fallback loading and the
    argument checks of saving, with the file system and `encoding/json` left as parameters. */
module Config {
  import opened Wrappers
  import opened Strings
  import opened Json

  datatype Operation = Operation(id: string, name: string, path: string)

  /** `graphql.operations`; `None` is a nil map. */
  datatype GraphQLSection = GraphQLSection(operations: Option<map<string, Operation>>)

  datatype AuthCookies = AuthCookies(guestId: string, authToken: string, ct0: string)

  datatype AuthSection = AuthSection(bearer: string, cookies: AuthCookies)

  /** The two feature sets; `None` is a nil map. */
  datatype FeaturesSection = FeaturesSection(user: Option<seq<Field>>, media: Option<seq<Field>>)

  datatype PathsSection = PathsSection(logs: string, debug: string, debugRaw: string, exports: string)

  datatype RuntimeSection = RuntimeSection(debugEnabled: bool, timeoutSeconds: int, maxRetries: int, limiterSecret: string)

  /** What `json.Unmarshal` produces from an essentials file. */
  datatype Essentials = Essentials(
    network: string,
    graphql: GraphQLSection,
    auth: AuthSection,
    headers: map<string, string>,
    features: FeaturesSection,
    paths: PathsSection,
    runtime: RuntimeSection)

  /** `EssentialsConfig`: a loaded configuration, whose cookies are rewritten in place. */
  class EssentialsConfig {
    var network: string
    var graphql: GraphQLSection
    var auth: AuthSection
    var headers: map<string, string>
    var features: FeaturesSection
    var paths: PathsSection
    var runtime: RuntimeSection

    /** The configuration as a value. */
    function Snapshot(): Essentials
      reads this
    {
      Essentials(network, graphql, auth, headers, features, paths, runtime)
    }

    /** The configuration `loadEssentialsFromPath` builds from a decoded file: the network
        is normalised, every other section is kept. */
    constructor FromDecoded(d: Essentials)
      ensures Snapshot() == d.(network := NormalizeNetwork(d.network))
    {
      network := NormalizeNetwork(d.network);
      graphql := d.graphql;
      auth := d.auth;
      headers := d.headers;
      features := d.features;
      paths := d.paths;
      runtime := d.runtime;
    }

    /** `buildCookieHeader` */
    method BuildCookieHeader() returns (header: string)
      ensures header == CookieHeader(auth.cookies)
    {
      var parts: seq<string> := [];
      if auth.cookies.guestId != [] {
        parts := parts + ["guest_id=" + auth.cookies.guestId];
      }
      if auth.cookies.authToken != [] {
        parts := parts + ["auth_token=" + auth.cookies.authToken];
      }
      if auth.cookies.ct0 != [] {
        parts := parts + ["ct0=" + auth.cookies.ct0];
      }
      assert parts == CookieParts(auth.cookies);
      if |parts| == 0 {
        return [];
      }
      header := Join(parts, "; ");
    }

    /** `applyBrowserCookies`: only the three auth cookies change. */
    method ApplyBrowserCookies(cookies: seq<BrowserCookie>)
      modifies this
      ensures auth == old(auth).(cookies := ApplyAll(old(auth.cookies), cookies))
      ensures network == old(network) && graphql == old(graphql) && headers == old(headers)
      ensures features == old(features) && paths == old(paths) && runtime == old(runtime)
    {
      var i := 0;
      while i < |cookies|
        invariant 0 <= i <= |cookies|
        invariant ApplyAll(auth.cookies, cookies[i..]) == ApplyAll(old(auth.cookies), cookies)
        invariant auth.bearer == old(auth.bearer)
        invariant network == old(network) && graphql == old(graphql) && headers == old(headers)
        invariant features == old(features) && paths == old(paths) && runtime == old(runtime)
      {
        assert cookies[i..][1..] == cookies[i + 1..];
        var cookie := cookies[i];
        i := i + 1;
        var domain := NormalizeDomain(cookie.domain);
        if !Contains(domain, "x.com") {
          continue;
        }
        AssignCookieValue(cookie);
      }
      assert cookies[|cookies|..] == [];
    }

    /** `assignCookieValue` */
    method AssignCookieValue(cookie: BrowserCookie)
      modifies this
      ensures auth == old(auth).(cookies := Assign(old(auth.cookies), cookie))
      ensures network == old(network) && graphql == old(graphql) && headers == old(headers)
      ensures features == old(features) && paths == old(paths) && runtime == old(runtime)
    {
      var name := ToLower(cookie.name);
      if name == "guest_id" {
        auth := auth.(cookies := auth.cookies.(guestId := cookie.value));
      } else if name == "auth_token" {
        auth := auth.(cookies := auth.cookies.(authToken := cookie.value));
      } else if name == "ct0" {
        auth := auth.(cookies := auth.cookies.(ct0 := cookie.value));
      }
    }
  }

  // ---------------------------------------------------------------------------
  // Defaults

  const DefaultNetwork: string := "https://x.com"

  /** One second in `time.Duration` units (nanoseconds). */
  const Second: int := 1_000_000_000

  /** `normalizeNetwork` */
  function NormalizeNetwork(network: string): (r: string)
    ensures IsBlank(network) ==> r == DefaultNetwork
    ensures !IsBlank(network) ==> r == network
    ensures !IsBlank(r)
  {
    if IsBlank(network) then
      assert DefaultNetwork[0] == 'h';
      DefaultNetwork
    else network
  }

  /** Two's-complement wrap-around of Go's `int64` arithmetic. */
  function WrapInt64(x: int): (r: int)
    ensures -0x8000_0000_0000_0000 <= r < 0x8000_0000_0000_0000
    ensures -0x8000_0000_0000_0000 <= x < 0x8000_0000_0000_0000 ==> r == x
  {
    (x + 0x8000_0000_0000_0000) % 0x1_0000_0000_0000_0000 - 0x8000_0000_0000_0000
  }

  /** `HTTPTimeout`, in nanoseconds: the product `time.Duration(n) * time.Second` wraps
      around like every `int64` product. */
  function HTTPTimeout(c: EssentialsConfig?): (d: int)
    reads c
    ensures c == null || c.runtime.timeoutSeconds <= 0 ==> d == 15 * Second
    ensures c != null && 0 < c.runtime.timeoutSeconds <= 9_223_372_036 ==> d == c.runtime.timeoutSeconds * Second && d > 0
  {
    if c == null then 15 * Second
    else if c.runtime.timeoutSeconds <= 0 then 15 * Second
    else WrapInt64(c.runtime.timeoutSeconds * Second)
  }

  // ---------------------------------------------------------------------------
  // GraphQL endpoints and features

  /** `GraphQLURL` */
  function GraphQLURL(c: EssentialsConfig?, key: string): (r: Result<string, string>)
    reads c
    ensures c == null ==> r == Failure("nil config")
    ensures c != null && c.graphql.operations.None? ==> r == Failure("graphql.operations is empty")
    ensures c != null && c.graphql.operations.Some? ==>
      var ops := c.graphql.operations.value;
      && (key !in ops || IsBlank(ops[key].path) ==> r == Failure("unknown graphql operation: " + key))
      && (key in ops && !IsBlank(ops[key].path) ==>
            r == Success(TrimRightSet(c.network, {'/'}) + "/i/api/graphql/" + ops[key].path))
  {
    if c == null then Failure("nil config")
    else match c.graphql.operations
      case None => Failure("graphql.operations is empty")
      case Some(ops) =>
        if key !in ops || IsBlank(ops[key].path) then Failure("unknown graphql operation: " + key)
        else
          var base := TrimRightSet(c.network, {'/'}) + "/i/api/graphql";
          assert base + "/" + ops[key].path == TrimRightSet(c.network, {'/'}) + "/i/api/graphql/" + ops[key].path;
          Success(base + "/" + ops[key].path)
  }

  /** The endpoint never ends the network part in a slash: the base is the network with its
      trailing slashes removed, so exactly one slash separates it from "i/api/graphql". */
  lemma GraphQLURLShape(c: EssentialsConfig?, key: string)
    requires GraphQLURL(c, key).Success?
    ensures var u := GraphQLURL(c, key).value;
      var base := TrimRightSet(c.network, {'/'});
      && base <= c.network
      && (base == [] || base[|base| - 1] != '/')
      && u == base + "/i/api/graphql/" + c.graphql.operations.value[key].path
  {
  }

  /** `featureSource`: the media endpoint gets the media features, every other key the user features. */
  function FeatureSource(c: EssentialsConfig, key: string): (src: Option<seq<Field>>)
    reads c
    ensures key == "user_media" ==> src == c.features.media
    ensures key != "user_media" ==> src == c.features.user
  {
    if key == "user_by_screen_name" then c.features.user
    else if key == "user_media" then c.features.media
    else c.features.user
  }

  /** `json.Marshal` of a feature map, given as a parameter for non-nil maps; a nil map
      marshals as `null`. */
  function MarshalSource(src: Option<seq<Field>>, marshal: seq<Field> -> Result<string, string>): Result<string, string>
  {
    match src
    case None => Success("null")
    case Some(fs) => marshal(fs)
  }

  /** `FeatureJSONFor` as written: the source comes back as an `any`, and an `any` holding a
      nil map is not itself nil, so the `src == nil` test never succeeds. */
  function FeatureJSONForAsWritten(c: EssentialsConfig?, key: string, marshal: seq<Field> -> Result<string, string>)
    : (r: (string, Option<string>))
    reads c
    ensures c == null ==> r == ("{}", None)
  {
    if c == null then ("{}", None)
    else match MarshalSource(FeatureSource(c, key), marshal)
      case Failure(e) => ("{}", Some(e))
      case Success(data) => (data, None)
  }

  /** A nil feature set reaches the marshaller as written and is sent as "null", not "{}". */
  lemma NilFeaturesGiveNull(c: EssentialsConfig, marshal: seq<Field> -> Result<string, string>)
    requires c.features.media.None?
    ensures FeatureJSONForAsWritten(c, "user_media", marshal) == ("null", None)
    ensures FeatureJSONForAsWritten(c, "user_media", marshal).0 != "{}"
  {
  }

  /** `FeatureJSONFor` as intended: "{}" for a nil configuration or a nil feature set, "{}"
      with the error when marshalling fails, and the marshalled set otherwise. */
  function FeatureJSONFor(c: EssentialsConfig?, key: string, marshal: seq<Field> -> Result<string, string>)
    : (r: (string, Option<string>))
    reads c
    ensures c == null || FeatureSource(c, key).None? ==> r == ("{}", None)
    ensures c != null && FeatureSource(c, key).Some? ==>
      r == match marshal(FeatureSource(c, key).value)
           case Failure(e) => ("{}", Some(e))
           case Success(data) => (data, None)
  {
    if c == null then ("{}", None)
    else match FeatureSource(c, key)
      case None => ("{}", None)
      case Some(fs) =>
        match marshal(fs)
        case Failure(e) => ("{}", Some(e))
        case Success(data) => (data, None)
  }

  /** The two agree on every configuration whose selected feature set is present. */
  lemma FeatureJSONForAgrees(c: EssentialsConfig?, key: string, marshal: seq<Field> -> Result<string, string>)
    requires c == null || FeatureSource(c, key).Some?
    ensures FeatureJSONFor(c, key, marshal) == FeatureJSONForAsWritten(c, key, marshal)
  {
  }

  // ---------------------------------------------------------------------------
  // Cookies

  /** The `name=value` parts of the `Cookie` header, in the fixed order guest_id, auth_token,
      ct0, leaving out empty values. */
  function CookieParts(ck: AuthCookies): seq<string>
  {
    (if ck.guestId != [] then ["guest_id=" + ck.guestId] else [])
    + (if ck.authToken != [] then ["auth_token=" + ck.authToken] else [])
    + (if ck.ct0 != [] then ["ct0=" + ck.ct0] else [])
  }

  function CookieHeader(ck: AuthCookies): string
  {
    Join(CookieParts(ck), "; ")
  }

  lemma JoinTwo(x: string, y: string)
    ensures Join([x, y], "; ") == x + "; " + y
  {
    assert [x, y][1..] == [y];
  }

  lemma JoinThree(x: string, y: string, z: string)
    ensures Join([x, y, z], "; ") == x + "; " + y + "; " + z
  {
    assert [x, y, z][1..] == [y, z];
    JoinTwo(y, z);
  }

  /** The header is empty exactly when all three cookies are; otherwise it lists the set ones
      in the order guest_id, auth_token, ct0, separated by "; ", for every combination. */
  lemma CookieHeaderShape(ck: AuthCookies)
    ensures CookieHeader(ck) == [] <==> ck.guestId == [] && ck.authToken == [] && ck.ct0 == []
    ensures ck.guestId != [] && ck.authToken != [] && ck.ct0 != [] ==>
      CookieHeader(ck) == "guest_id=" + ck.guestId + "; " + "auth_token=" + ck.authToken + "; " + "ct0=" + ck.ct0
    ensures ck.guestId != [] && ck.authToken != [] && ck.ct0 == [] ==>
      CookieHeader(ck) == "guest_id=" + ck.guestId + "; " + "auth_token=" + ck.authToken
    ensures ck.guestId != [] && ck.authToken == [] && ck.ct0 != [] ==>
      CookieHeader(ck) == "guest_id=" + ck.guestId + "; " + "ct0=" + ck.ct0
    ensures ck.guestId == [] && ck.authToken != [] && ck.ct0 != [] ==>
      CookieHeader(ck) == "auth_token=" + ck.authToken + "; " + "ct0=" + ck.ct0
    ensures ck.guestId != [] && ck.authToken == [] && ck.ct0 == [] ==> CookieHeader(ck) == "guest_id=" + ck.guestId
    ensures ck.guestId == [] && ck.authToken != [] && ck.ct0 == [] ==> CookieHeader(ck) == "auth_token=" + ck.authToken
    ensures ck.guestId == [] && ck.authToken == [] && ck.ct0 != [] ==> CookieHeader(ck) == "ct0=" + ck.ct0
  {
    var g, a, c := "guest_id=" + ck.guestId, "auth_token=" + ck.authToken, "ct0=" + ck.ct0;
    var p := CookieParts(ck);
    if ck.guestId != [] && ck.authToken != [] && ck.ct0 != [] {
      assert p == [g, a, c];
      JoinThree(g, a, c);
    } else if ck.guestId != [] && ck.authToken != [] {
      assert p == [g, a];
      JoinTwo(g, a);
    } else if ck.guestId != [] && ck.ct0 != [] {
      assert p == [g, c];
      JoinTwo(g, c);
    } else if ck.authToken != [] && ck.ct0 != [] {
      assert p == [a, c];
      JoinTwo(a, c);
    } else if ck.guestId != [] {
      assert p == [g];
    } else if ck.authToken != [] {
      assert p == [a];
    } else if ck.ct0 != [] {
      assert p == [c];
    } else {
      assert p == [];
    }
  }

  datatype BrowserCookie = BrowserCookie(domain: string, name: string, value: string, path: string, secure: bool)

  /** `normalizeDomain` */
  function NormalizeDomain(domain: string): string
  {
    ToLower(TrimSpace(domain))
  }

  /** A cookie of the site: its normalised domain contains "x.com". */
  predicate ForSite(cookie: BrowserCookie)
  {
    Contains(NormalizeDomain(cookie.domain), "x.com")
  }

  /** The effect of `assignCookieValue`: the name, compared after lower-casing, picks the slot. */
  function Assign(ck: AuthCookies, cookie: BrowserCookie): AuthCookies
  {
    var name := ToLower(cookie.name);
    if name == "guest_id" then ck.(guestId := cookie.value)
    else if name == "auth_token" then ck.(authToken := cookie.value)
    else if name == "ct0" then ck.(ct0 := cookie.value)
    else ck
  }

  /** The effect of `applyBrowserCookies`, one cookie after the other. */
  function ApplyAll(ck: AuthCookies, cookies: seq<BrowserCookie>): AuthCookies
    decreases |cookies|
  {
    if cookies == [] then ck else ApplyAll(Apply(ck, cookies[0]), cookies[1..])
  }

  /** One turn of `applyBrowserCookies`' loop. */
  function Apply(ck: AuthCookies, cookie: BrowserCookie): AuthCookies
  {
    if ForSite(cookie) then Assign(ck, cookie) else ck
  }

  /** The slot a lower-cased cookie name fills. */
  function Slot(ck: AuthCookies, name: string): string
  {
    if name == "guest_id" then ck.guestId
    else if name == "auth_token" then ck.authToken
    else if name == "ct0" then ck.ct0
    else []
  }

  predicate IsAuthName(name: string)
  {
    name == "guest_id" || name == "auth_token" || name == "ct0"
  }

  /** A site cookie that fills `name`. */
  predicate Fills(cookie: BrowserCookie, name: string)
  {
    ForSite(cookie) && ToLower(cookie.name) == name
  }

  lemma ApplySlot(ck: AuthCookies, cookie: BrowserCookie, name: string)
    requires IsAuthName(name)
    ensures Slot(Apply(ck, cookie), name) == if Fills(cookie, name) then cookie.value else Slot(ck, name)
  {
    if ForSite(cookie) {
      var n := ToLower(cookie.name);
      assert "guest_id" != "auth_token" && "guest_id" != "ct0" && "auth_token" != "ct0";
      if n == "guest_id" {
        assert Apply(ck, cookie) == ck.(guestId := cookie.value);
      } else if n == "auth_token" {
        assert Apply(ck, cookie) == ck.(authToken := cookie.value);
      } else if n == "ct0" {
        assert Apply(ck, cookie) == ck.(ct0 := cookie.value);
      } else {
        assert Apply(ck, cookie) == ck;
      }
    }
  }

  lemma TailNoFill(cookies: seq<BrowserCookie>, i: nat, name: string)
    requires i < |cookies|
    requires forall j :: i < j < |cookies| ==> !Fills(cookies[j], name)
    ensures forall j :: i <= j < |cookies| - 1 ==> !Fills(cookies[1..][j], name)
  {
    forall j | i <= j < |cookies| - 1 ensures !Fills(cookies[1..][j], name) {
      assert cookies[1..][j] == cookies[j + 1];
    }
  }

  /** With no site cookie of that name, the cookie keeps the value it had. */
  lemma {:induction false} NoMatchKeeps(ck: AuthCookies, cookies: seq<BrowserCookie>, name: string)
    requires IsAuthName(name)
    requires forall i :: 0 <= i < |cookies| ==> !Fills(cookies[i], name)
    ensures Slot(ApplyAll(ck, cookies), name) == Slot(ck, name)
    decreases |cookies|
  {
    if cookies != [] {
      assert !Fills(cookies[0], name);
      ApplySlot(ck, cookies[0], name);
      TailNoFill(cookies, 0, name);
      NoMatchKeeps(Apply(ck, cookies[0]), cookies[1..], name);
    }
  }

  lemma FirstMatchThenNone(ck: AuthCookies, cookies: seq<BrowserCookie>, name: string)
    requires IsAuthName(name)
    requires 0 < |cookies| && Fills(cookies[0], name)
    requires forall j :: 0 < j < |cookies| ==> !Fills(cookies[j], name)
    ensures Slot(ApplyAll(ck, cookies), name) == cookies[0].value
  {
    var ck1 := Apply(ck, cookies[0]);
    ApplySlot(ck, cookies[0], name);
    assert Slot(ck1, name) == cookies[0].value;
    TailNoFill(cookies, 0, name);
    NoMatchKeeps(ck1, cookies[1..], name);
  }

  /** The last site cookie of that name (compared case-insensitively) decides its value. */
  lemma {:induction false} LastMatchWins(ck: AuthCookies, cookies: seq<BrowserCookie>, i: nat, name: string)
    requires IsAuthName(name)
    requires i < |cookies| && Fills(cookies[i], name)
    requires forall j :: i < j < |cookies| ==> !Fills(cookies[j], name)
    ensures Slot(ApplyAll(ck, cookies), name) == cookies[i].value
    decreases |cookies|
  {
    if i == 0 {
      FirstMatchThenNone(ck, cookies, name);
    } else {
      ShiftMatch(cookies, i, name);
      LastMatchWins(Apply(ck, cookies[0]), cookies[1..], i - 1, name);
    }
  }

  /** The match at `i` is the match at `i - 1` of the tail. */
  lemma ShiftMatch(cookies: seq<BrowserCookie>, i: nat, name: string)
    requires 0 < i < |cookies| && Fills(cookies[i], name)
    requires forall j :: i < j < |cookies| ==> !Fills(cookies[j], name)
    ensures Fills(cookies[1..][i - 1], name)
    ensures forall j :: i - 1 < j < |cookies[1..]| ==> !Fills(cookies[1..][j], name)
  {
    assert cookies[1..][i - 1] == cookies[i];
    TailNoFill(cookies, i, name);
  }

  /** A cookie that is not one of the three, or not for the site, changes nothing. */
  lemma IgnoredCookie(ck: AuthCookies, cookie: BrowserCookie)
    requires !ForSite(cookie) || !IsAuthName(ToLower(cookie.name))
    ensures ApplyAll(ck, [cookie]) == ck
  {
  }

  // ---------------------------------------------------------------------------
  // Loading and saving

  /** Why a single essentials file could not be loaded. */
  datatype LoadError = ReadFailed(message: string) | ParseFailed(message: string)

  /** The error `loadEssentialsFromPath` returns. */
  function LoadErrorText(e: LoadError): string
  {
    match e
    case ReadFailed(m) => m
    case ParseFailed(m) => "failed to parse essentials.json: " + m
  }

  /** What the fallback loop ends with, from the candidate `paths[i..]` on, with `last` the
      most recent error: the first candidate that loads, else the last error, else
      "no essentials.json found". */
  function FirstLoad(paths: seq<string>, i: nat, last: Option<string>, read: string -> Result<Essentials, LoadError>)
    : Result<Essentials, string>
    decreases |paths| - i
  {
    if i >= |paths| then
      match last
      case Some(e) => Failure(e)
      case None => Failure("no essentials.json found")
    else if IsBlank(paths[i]) then FirstLoad(paths, i + 1, last, read)
    else match read(paths[i])
      case Failure(e) => FirstLoad(paths, i + 1, Some(LoadErrorText(e)), read)
      case Success(d) => Success(d)
  }

  /** A path that is tried: not blank. */
  predicate Tried(paths: seq<string>, i: int)
  {
    0 <= i < |paths| && !IsBlank(paths[i])
  }

  /** The fallback loads exactly when some tried path loads. */
  lemma {:induction false} FirstLoadSucceedsIff(paths: seq<string>, i: nat, last: Option<string>,
                                                read: string -> Result<Essentials, LoadError>)
    requires i <= |paths|
    ensures FirstLoad(paths, i, last, read).Success?
      <==> exists k :: i <= k < |paths| && Tried(paths, k) && read(paths[k]).Success?
    decreases |paths| - i
  {
    if i < |paths| {
      if IsBlank(paths[i]) {
        FirstLoadSucceedsIff(paths, i + 1, last, read);
      } else if read(paths[i]).Failure? {
        FirstLoadSucceedsIff(paths, i + 1, Some(LoadErrorText(read(paths[i]).error)), read);
      }
    }
  }

  /** The first tried path that loads gives the configuration. */
  lemma {:induction false} FirstLoadFirst(paths: seq<string>, i: nat, last: Option<string>,
                                          read: string -> Result<Essentials, LoadError>, k: nat)
    requires i <= k < |paths| && Tried(paths, k) && read(paths[k]).Success?
    requires forall j :: i <= j < k && Tried(paths, j) ==> read(paths[j]).Failure?
    ensures FirstLoad(paths, i, last, read) == Success(read(paths[k]).value)
    decreases |paths| - i
  {
    if i < k {
      if IsBlank(paths[i]) {
        FirstLoadFirst(paths, i + 1, last, read, k);
      } else {
        assert Tried(paths, i);
        FirstLoadFirst(paths, i + 1, Some(LoadErrorText(read(paths[i]).error)), read, k);
      }
    } else {
      assert !IsBlank(paths[k]);
    }
  }

  /** When no path is tried, the error is the one carried in, or "no essentials.json found". */
  lemma {:induction false} FirstLoadNoneTried(paths: seq<string>, i: nat, last: Option<string>,
                                              read: string -> Result<Essentials, LoadError>)
    requires i <= |paths|
    requires forall k :: i <= k < |paths| ==> !Tried(paths, k)
    ensures FirstLoad(paths, i, last, read)
      == if last.Some? then Failure(last.value) else Failure("no essentials.json found")
    decreases |paths| - i
  {
    if i < |paths| {
      assert !Tried(paths, i);
      FirstLoadNoneTried(paths, i + 1, last, read);
    }
  }

  /** When every tried path fails, the error is that of the last tried path. */
  lemma {:induction false} FirstLoadLastError(paths: seq<string>, i: nat, last: Option<string>,
                                              read: string -> Result<Essentials, LoadError>, k: nat)
    requires i <= k < |paths| && Tried(paths, k) && read(paths[k]).Failure?
    requires forall j :: i <= j < k && Tried(paths, j) ==> read(paths[j]).Failure?
    requires forall j :: k < j < |paths| ==> !Tried(paths, j)
    ensures FirstLoad(paths, i, last, read) == Failure(LoadErrorText(read(paths[k]).error))
    decreases |paths| - i
  {
    if i < k {
      if IsBlank(paths[i]) {
        FirstLoadLastError(paths, i + 1, last, read, k);
      } else {
        assert Tried(paths, i);
        FirstLoadLastError(paths, i + 1, Some(LoadErrorText(read(paths[i]).error)), read, k);
      }
    } else {
      assert !IsBlank(paths[k]);
      FirstLoadNoneTried(paths, k + 1, Some(LoadErrorText(read(paths[k]).error)), read);
    }
  }

  /** `LoadEssentialsWithFallback`, with the file reader and JSON decoder as `read`. */
  method LoadEssentialsWithFallback(paths: seq<string>, read: string -> Result<Essentials, LoadError>)
    returns (r: Result<EssentialsConfig, string>)
    ensures r.Success? <==> FirstLoad(paths, 0, None, read).Success?
    ensures r.Failure? ==> r.error == FirstLoad(paths, 0, None, read).error
    ensures r.Success? ==> fresh(r.value)
    ensures r.Success? ==>
      var d := FirstLoad(paths, 0, None, read).value;
      r.value.Snapshot() == d.(network := NormalizeNetwork(d.network))
  {
    var lastErr: Option<string> := None;
    var i := 0;
    while i < |paths|
      invariant 0 <= i <= |paths|
      invariant FirstLoad(paths, i, lastErr, read) == FirstLoad(paths, 0, None, read)
    {
      var path := paths[i];
      i := i + 1;
      if IsBlank(path) {
        continue;
      }
      var loaded := read(path);
      if loaded.Failure? {
        lastErr := Some(LoadErrorText(loaded.error));
        continue;
      }
      var cfg := new EssentialsConfig.FromDecoded(loaded.value);
      return Success(cfg);
    }
    if lastErr.Some? {
      return Failure(lastErr.value);
    }
    return Failure("no essentials.json found");
  }

  /** `SaveEssentials`: the argument checks come before the directory is created or anything
      is written; `persist` stands for creating the directory, marshalling and the atomic write. */
  function SaveEssentials(cfg: EssentialsConfig?, path: string, persist: (string, Essentials) -> Option<string>)
    : (err: Option<string>)
    reads cfg
    ensures cfg == null ==> err == Some("nil config")
    ensures cfg != null && IsBlank(path) ==> err == Some("empty essentials path")
    ensures cfg != null && !IsBlank(path) ==> err == persist(path, cfg.Snapshot())
  {
    if cfg == null then Some("nil config")
    else if IsBlank(path) then Some("empty essentials path")
    else persist(path, cfg.Snapshot())
  }
}
