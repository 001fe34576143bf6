/** `emu/cli.py`: where the `start` command binds its listener, and the
    configuration list it builds. */
module Cli {
  import opened Results
  import opened Text
  import opened UrlSplit
  import opened Lists

  /** The service URL used when the configuration has none. */
  const DefaultUrl: string := "http://localhost:5000/wps"

  /** The port assumed when the network location names none. */
  const DefaultPort: int := 80

  /** The route under which the output directory is served. */
  const OutputsRoute: string := "/outputs"

  datatype Endpoint = Endpoint(host: string, port: int)

  /** The exceptions of `get_host` that the model covers, each a `ValueError`
      in Python. */
  datatype HostError =
    | BadUrl(reason: UrlError)    // raised inside `urlparse`
    | UnpackMismatch(pieces: nat) // `host, port = ...split(':')` with pieces != 2
    | InvalidPort(text: string)   // `int(port)` on a non-integer

  /** `url or 'http://localhost:5000/wps'`, for the configured `server.url`. */
  function ServiceUrl(configured: Option<string>): (url: string)
    ensures configured.Some? && configured.value != "" ==> url == configured.value
    ensures configured.None? || configured.value == "" ==> url == DefaultUrl
  {
    if configured.Some? && configured.value != "" then configured.value else DefaultUrl
  }

  /** The host/port split of `get_host` on a network location. */
  function HostPort(netloc: string): (r: Result<Endpoint, HostError>)
    ensures r.Err? ==> ':' in netloc
    ensures r.Ok? ==> ':' !in r.value.host
  {
    if ':' in netloc then
      var parts := Split(netloc, ':');
      SplitPiecesFree(netloc, ':');
      if |parts| != 2 then Err(UnpackMismatch(|parts|))
      else match ParseInt(parts[1])
        case None => Err(InvalidPort(parts[1]))
        case Some(port) => Ok(Endpoint(parts[0], port))
    else Ok(Endpoint(netloc, DefaultPort))
  }

  /** `get_host()`, with the configured `server.url` as its input. */
  function GetHost(configured: Option<string>): (r: Result<Endpoint, HostError>)
    ensures r.Ok? ==> ':' !in r.value.host
    ensures r.Err? && !r.error.BadUrl? ==>
      Netloc(ServiceUrl(configured)).Ok? && ':' in Netloc(ServiceUrl(configured)).value
  {
    match Netloc(ServiceUrl(configured))
    case Err(e) => Err(BadUrl(e))
    case Ok(netloc) => HostPort(netloc)
  }

  /** Without a colon the whole network location is the host and the port
      is 80, whatever the scheme. */
  lemma HostPortNoColon(netloc: string)
    requires ':' !in netloc
    ensures HostPort(netloc) == Ok(Endpoint(netloc, DefaultPort))
  {
  }

  /** With exactly one colon the host is the text before it and the port
      the integer after it; a non-integer port text is an error. */
  lemma HostPortOneColon(host: string, portText: string)
    requires ':' !in host && ':' !in portText
    ensures ParseInt(portText).Some? ==>
      HostPort(host + ":" + portText) == Ok(Endpoint(host, ParseInt(portText).value))
    ensures ParseInt(portText).None? ==>
      HostPort(host + ":" + portText) == Err(InvalidPort(portText))
  {
    SplitAround(host, portText, ':');
    assert host + ":" + portText == host + [':'] + portText;
  }

  /** Two or more colons always fail: the split yields more than the two
      names the assignment unpacks into. */
  lemma HostPortManyColons(netloc: string)
    requires Count(netloc, ':') >= 2
    ensures HostPort(netloc) == Err(UnpackMismatch(Count(netloc, ':') + 1))
  {
    SplitCount(netloc, ':');
  }

  /** Every integer within the digit limit of `int()` is accepted as a
      port, with no range check. */
  lemma HostPortAnyPort(host: string, port: int)
    requires ':' !in host
    requires |ShowNat(Abs(port))| <= MaxStrDigits
    ensures HostPort(host + ":" + ShowInt(port)) == Ok(Endpoint(host, port))
  {
    var text := ShowInt(port);
    assert ':' !in text by {
      var digits := ShowNat(Abs(port));
      assert forall j :: 0 <= j < |digits| ==> digits[j] != ':';
      assert text == digits || text == "-" + digits;
    }
    ParseShowRoundTrip(port);
    HostPortOneColon(host, text);
  }

  /** Conversely, a successful split is one of the two shapes above. */
  lemma HostPortSound(netloc: string, e: Endpoint)
    requires HostPort(netloc) == Ok(e)
    ensures (':' !in netloc && e.host == netloc && e.port == DefaultPort) ||
            (exists portText :: netloc == e.host + ":" + portText &&
                                ':' !in e.host && ':' !in portText &&
                                ParseInt(portText) == Some(e.port))
  {
    if ':' in netloc {
      var parts := Split(netloc, ':');
      SplitJoin(netloc, ':');
      SplitPiecesFree(netloc, ':');
      assert parts == [parts[0], parts[1]];
      assert Join(parts, ':') == parts[0] + [':'] + parts[1];
      assert ':' !in parts[0] && ':' !in parts[1];
      assert netloc == e.host + ":" + parts[1];
    }
  }

  lemma DefaultUrlParts()
    ensures DefaultUrl == "http" + "://" + "localhost:5000" + "/wps"
    ensures IsScheme("http")
  {
  }

  lemma DefaultAuthorityShape()
    ensures forall j :: 0 <= j < |"localhost:5000"| ==> !IsNetlocDelimiter("localhost:5000"[j])
    ensures ('[' in "localhost:5000") == (']' in "localhost:5000")
    ensures IsSafe("localhost:5000") && IsSafe("/wps")
    ensures ':' !in "localhost"
  {
  }

  lemma DefaultPortText()
    ensures "localhost:5000" == "localhost" + ":" + ShowInt(5000)
  {
    assert ShowNat(50) == "50";
    assert ShowNat(500) == "500";
    assert ShowNat(5000) == "5000";
  }

  lemma DefaultNetloc()
    ensures Netloc(DefaultUrl) == Ok("localhost:5000")
  {
    DefaultUrlParts();
    DefaultAuthorityShape();
    NetlocOfSimpleUrl("http", "localhost:5000", "/wps");
  }

  lemma DefaultHostPort()
    ensures HostPort("localhost:5000") == Ok(Endpoint("localhost", 5000))
  {
    DefaultAuthorityShape();
    DefaultPortText();
    HostPortAnyPort("localhost", 5000);
  }

  /** An absent `server.url` gives `localhost` on port 5000. */
  lemma GetHostUnset()
    ensures GetHost(None) == Ok(Endpoint("localhost", 5000))
  {
    DefaultNetloc();
    DefaultHostPort();
  }

  /** An empty `server.url` is treated as an absent one. */
  lemma GetHostEmptyUrl()
    ensures GetHost(Some("")) == Ok(Endpoint("localhost", 5000))
  {
    DefaultNetloc();
    DefaultHostPort();
  }

  /** For a URL of the form `scheme://authority/...` the endpoint is the
      host/port split of `authority`. */
  lemma GetHostSimpleUrl(scheme: string, authority: string, tail: string)
    requires IsScheme(scheme)
    requires forall j :: 0 <= j < |authority| ==> !IsNetlocDelimiter(authority[j])
    requires ('[' in authority) == (']' in authority)
    requires tail == [] || IsNetlocDelimiter(tail[0])
    requires IsSafe(authority) && IsSafe(tail)
    ensures GetHost(Some(scheme + "://" + authority + tail)) == HostPort(authority)
  {
    NetlocOfSimpleUrl(scheme, authority, tail);
  }

  lemma HttpsUrlShape()
    ensures "https://example.org/wps" == "https" + "://" + "example.org" + "/wps"
    ensures IsScheme("https")
    ensures ':' !in "example.org"
  {
  }

  lemma HttpsAuthorityChars()
    ensures forall j :: 0 <= j < |"example.org"| ==> !IsNetlocDelimiter("example.org"[j])
    ensures ('[' in "example.org") == (']' in "example.org")
    ensures IsSafe("example.org") && IsSafe("/wps")
  {
  }

  lemma HttpsNetloc()
    ensures Netloc("https://example.org/wps") == Ok("example.org")
  {
    HttpsUrlShape();
    HttpsAuthorityChars();
    NetlocOfSimpleUrl("https", "example.org", "/wps");
  }

  /** `https://example.org/wps`: no port in the URL means port 80, even
      for an `https` scheme. */
  lemma GetHostHttpsWithoutPort()
    ensures GetHost(Some("https://example.org/wps")) == Ok(Endpoint("example.org", 80))
  {
    HttpsNetloc();
    HttpsUrlShape();
    HttpsAuthorityChars();
    HostPortNoColon("example.org");
  }

  lemma UserinfoUrlShape()
    ensures "http://user:pw@host:8080/" == "http" + "://" + "user:pw@host:8080" + "/"
    ensures IsScheme("http")
  {
  }

  lemma UserinfoAuthorityChars()
    ensures forall j :: 0 <= j < |"user:pw@host:8080"| ==> !IsNetlocDelimiter("user:pw@host:8080"[j])
    ensures ('[' in "user:pw@host:8080") == (']' in "user:pw@host:8080")
    ensures IsSafe("user:pw@host:8080") && IsSafe("/")
  {
  }

  lemma UserinfoColons()
    ensures Count("user:pw@host:8080", ':') == 2
  {
    var a, b, c := "user", "pw@host", "8080";
    assert ':' !in a && ':' !in b && ':' !in c;
    assert Count(":", ':') == 1;
    assert "user:pw@host:8080" == a + ":" + b + ":" + c;
    CountConcat(a, ":", ':');
    CountConcat(a + ":", b, ':');
    CountConcat(a + ":" + b, ":", ':');
    CountConcat(a + ":" + b + ":", c, ':');
  }

  /** A password in the user information adds a second colon and fails. */
  lemma GetHostUserinfoFails()
    ensures GetHost(Some("http://user:pw@host:8080/")) == Err(UnpackMismatch(3))
  {
    UserinfoUrlShape();
    UserinfoAuthorityChars();
    UserinfoColons();
    GetHostSimpleUrl("http", "user:pw@host:8080", "/");
    HostPortManyColons("user:pw@host:8080");
  }

  lemma IPv6UrlShape()
    ensures "http://[::1]:5000/wps" == "http" + "://" + "[::1]:5000" + "/wps"
    ensures IsScheme("http")
  {
  }

  lemma IPv6AuthorityChars()
    ensures forall j :: 0 <= j < |"[::1]:5000"| ==> !IsNetlocDelimiter("[::1]:5000"[j])
    ensures ('[' in "[::1]:5000") == (']' in "[::1]:5000")
    ensures IsSafe("[::1]:5000") && IsSafe("/wps")
  {
  }

  lemma IPv6HostColons()
    ensures Count("[::1]", ':') == 2
  {
    assert ':' !in "[" && ':' !in "1]";
    assert Count(":", ':') == 1;
    assert "[::1]" == "[" + ":" + ":" + "1]";
    CountConcat("[", ":", ':');
    CountConcat("[" + ":", ":", ':');
    CountConcat("[" + ":" + ":", "1]", ':');
  }

  lemma IPv6Colons()
    ensures Count("[::1]:5000", ':') == 3
  {
    var a, b := "[::1]", "5000";
    IPv6HostColons();
    assert ':' !in b;
    assert Count(":", ':') == 1;
    assert "[::1]:5000" == a + ":" + b;
    CountConcat(a, ":", ':');
    CountConcat(a + ":", b, ':');
  }

  /** A bracketed IPv6 literal has colons of its own and fails. */
  lemma GetHostIPv6Fails()
    ensures GetHost(Some("http://[::1]:5000/wps")) == Err(UnpackMismatch(4))
  {
    IPv6UrlShape();
    IPv6AuthorityChars();
    IPv6Colons();
    GetHostSimpleUrl("http", "[::1]:5000", "/wps");
    HostPortManyColons("[::1]:5000");
  }

  lemma UnpairedBracketUrlShape()
    ensures "http://[::1:5000/wps" == "http" + "://" + "[::1:5000" + "/wps"
    ensures IsScheme("http")
  {
  }

  lemma UnpairedBracketAuthorityChars()
    ensures forall j :: 0 <= j < |"[::1:5000"| ==> !IsNetlocDelimiter("[::1:5000"[j])
    ensures '[' in "[::1:5000" && ']' !in "[::1:5000"
    ensures IsSafe("[::1:5000") && IsSafe("/wps")
  {
  }

  /** An opening bracket without its closing one is rejected by `urlparse`
      before any colon is looked at. */
  lemma GetHostUnpairedBracketFails()
    ensures GetHost(Some("http://[::1:5000/wps")) == Err(BadUrl(InvalidIPv6Url))
  {
    UnpairedBracketUrlShape();
    UnpairedBracketAuthorityChars();
    NetlocUnpairedBrackets("http", "[::1:5000", "/wps");
  }

  lemma EmptyPortUrlShape()
    ensures "http://localhost:/wps" == "http" + "://" + "localhost:" + "/wps"
    ensures IsScheme("http")
    ensures "localhost:" == "localhost" + ":" + "" && ':' !in "localhost"
  {
  }

  lemma EmptyPortAuthorityChars()
    ensures forall j :: 0 <= j < |"localhost:"| ==> !IsNetlocDelimiter("localhost:"[j])
    ensures ('[' in "localhost:") == (']' in "localhost:")
    ensures IsSafe("localhost:") && IsSafe("/wps")
  {
  }

  /** An empty port text fails at the integer conversion. */
  lemma GetHostEmptyPortFails()
    ensures GetHost(Some("http://localhost:/wps")) == Err(InvalidPort(""))
  {
    EmptyPortUrlShape();
    EmptyPortAuthorityChars();
    GetHostSimpleUrl("http", "localhost:", "/wps");
    ParseIntEmpty();
    HostPortOneColon("localhost", "");
  }

  lemma NonNumericPortUrlShape()
    ensures "http://localhost:abc/wps" == "http" + "://" + "localhost:abc" + "/wps"
    ensures IsScheme("http")
    ensures "localhost:abc" == "localhost" + ":" + "abc" && ':' !in "localhost" && ':' !in "abc"
  {
  }

  lemma NonNumericPortAuthorityChars()
    ensures forall j :: 0 <= j < |"localhost:abc"| ==> !IsNetlocDelimiter("localhost:abc"[j])
    ensures ('[' in "localhost:abc") == (']' in "localhost:abc")
    ensures IsSafe("localhost:abc") && IsSafe("/wps")
  {
  }

  /** A non-numeric port text fails at the integer conversion. */
  lemma GetHostNonNumericPortFails()
    ensures GetHost(Some("http://localhost:abc/wps")) == Err(InvalidPort("abc"))
  {
    NonNumericPortUrlShape();
    NonNumericPortAuthorityChars();
    GetHostSimpleUrl("http", "localhost:abc", "/wps");
    ParseIntNonNumeric("abc", 0);
    HostPortOneColon("localhost", "abc");
  }

  lemma LargePortUrlShape()
    ensures "http://localhost:99999/wps" == "http" + "://" + "localhost:99999" + "/wps"
    ensures IsScheme("http")
    ensures ':' !in "localhost"
  {
  }

  lemma LargePortAuthorityChars()
    ensures forall j :: 0 <= j < |"localhost:99999"| ==> !IsNetlocDelimiter("localhost:99999"[j])
    ensures ('[' in "localhost:99999") == (']' in "localhost:99999")
    ensures IsSafe("localhost:99999") && IsSafe("/wps")
  {
  }

  lemma LargePortText()
    ensures "localhost:99999" == "localhost" + ":" + ShowInt(99999)
  {
    assert ShowNat(99) == "99";
    assert ShowNat(999) == "999";
    assert ShowNat(9999) == "9999";
    assert ShowNat(99999) == "99999";
  }

  /** A port outside 0..65535 is returned unchanged. */
  lemma GetHostPortOutOfRange()
    ensures GetHost(Some("http://localhost:99999/wps")) == Ok(Endpoint("localhost", 99999))
  {
    LargePortUrlShape();
    LargePortAuthorityChars();
    GetHostSimpleUrl("http", "localhost:99999", "/wps");
    LargePortText();
    HostPortAnyPort("localhost", 99999);
  }

  /** The parameters `inner` hands to `run_simple`. */
  datatype ServeOptions = ServeOptions(
    hostname: string,
    port: int,
    threaded: bool,
    useDebugger: bool,
    useReloader: bool,
    useEvalex: bool,
    staticFiles: map<string, string>)

  /** `inner(application, bind_host, daemon)`: resolve the endpoint, let a
      non-empty bind host override the parsed host, and serve the output
      directory beside the application. `outputPath` is the configured
      `server.outputpath`. */
  method Serve(bindHost: Option<string>, daemon: bool, configuredUrl: Option<string>, outputPath: string)
    returns (r: Result<ServeOptions, HostError>)
    ensures r.Err? <==> GetHost(configuredUrl).Err?
    ensures r.Err? ==> r.error == GetHost(configuredUrl).error
    ensures r.Ok? ==> r.value.port == GetHost(configuredUrl).value.port
    ensures r.Ok? && bindHost.Some? && bindHost.value != "" ==> r.value.hostname == bindHost.value
    ensures r.Ok? && (bindHost.None? || bindHost.value == "") ==>
      r.value.hostname == GetHost(configuredUrl).value.host
    ensures r.Ok? ==> r.value.threaded && !r.value.useDebugger && !r.value.useReloader
    ensures r.Ok? ==> r.value.useEvalex == !daemon
    ensures r.Ok? ==> r.value.staticFiles == map[OutputsRoute := outputPath]
  {
    var endpoint := GetHost(configuredUrl);
    if endpoint.Err? {
      return Err(endpoint.error);
    }
    var host, port := endpoint.value.host, endpoint.value.port;
    var hostname := host;
    if bindHost.Some? && bindHost.value != "" {
      hostname := bindHost.value;
    }
    var staticFiles := map[OutputsRoute := outputPath];
    r := Ok(ServeOptions(hostname, port, true, false, false, !daemon, staticFiles));
  }

  /** What one `start` run sets up: the configuration list given to the
      engine and the watchdog, and the listener the worker thread
      tries to bind. */
  datatype StartPlan = StartPlan(
    appConfig: seq<string>,
    watchdogConfig: seq<string>,
    server: Result<ServeOptions, HostError>)

  /** `start(config, bind_host)`. The worker thread calls `inner` with two
      arguments, so `daemon` is always false there. A failure in the
      thread does not stop the watchdog, which gets the same list. */
  method Start(config: Option<string>, bindHost: string, configuredUrl: Option<string>, outputPath: string)
    returns (plan: StartPlan)
    ensures plan.watchdogConfig == plan.appConfig
    ensures config.None? || config.value == "" ==> plan.appConfig == []
    ensures config.Some? && config.value != "" ==> plan.appConfig == [config.value]
    ensures plan.server.Err? <==> GetHost(configuredUrl).Err?
    ensures plan.server.Err? ==> plan.server.error == GetHost(configuredUrl).error
    ensures plan.server.Ok? ==> plan.server.value.port == GetHost(configuredUrl).value.port
    ensures plan.server.Ok? && bindHost != "" ==> plan.server.value.hostname == bindHost
    ensures plan.server.Ok? && bindHost == "" ==>
      plan.server.value.hostname == GetHost(configuredUrl).value.host
    ensures plan.server.Ok? ==> plan.server.value.threaded
    ensures plan.server.Ok? ==> !plan.server.value.useDebugger && !plan.server.value.useReloader
    ensures plan.server.Ok? ==> plan.server.value.useEvalex
    ensures plan.server.Ok? ==> plan.server.value.staticFiles == map[OutputsRoute := outputPath]
  {
    var cfgfiles := new MutableList<string>([]);
    if config.Some? && config.value != "" {
      cfgfiles.Append(config.value);
    }
    var server := Serve(Some(bindHost), false, configuredUrl, outputPath);
    plan := StartPlan(cfgfiles.items, cfgfiles.items, server);
  }
}
