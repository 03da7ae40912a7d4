/**
 * `parse_share_link` (xray_ip_test.py): a `vless://<id>@<host>[:<port>]?<query>`
 * share link to the outbound descriptor Xray runs with.
 *
 * The link enters already cut by `urlparse` into its scheme, its network
 * location (`netloc`, the part between `//` and the path or query) and its
 * query fields; the fragment is not part of it. Everything after that is
 * modelled: the lower-casing of the scheme, the split of the network
 * location on `@` and `:`, `int()` on the port text, `parse_qs` and the
 * mapping of the parameters onto the descriptor.
 */
module ShareLink {
  import opened Outcomes
  import opened Strings
  import opened PyInt
  import opened Query
  import opened Descriptor

  /** A share link as `urlparse` decomposes it. */
  datatype Uri = Uri(scheme: string, netloc: string, query: Fields)

  /** What went wrong inside the parser. */
  datatype Cause =
    | UnsupportedProtocol(protocol: string)
    | PortNotInteger(text: string)

  /** The one error the parser raises, wrapping whatever failed inside it. */
  datatype ParseError = ParseError(cause: Cause)

  /** The port Xray assumes when the link gives none. */
  const DefaultPort := 443

  /**
   * `parsed.username`: the text before the first `:` of the user information,
   * which is everything before the last `@`; nothing when there is no `@`.
   */
  function Username(netloc: string): Option<string>
  {
    if '@' in netloc then
      var userinfo := netloc[..LastIndexOf(netloc, '@')];
      Some(userinfo[..IndexOf(userinfo, ':')])
    else None
  }

  /**
   * `parsed.username or parsed.netloc.split('@')[0]`: a prefix of the network
   * location, all of it when there is no `@`. Otherwise the user information
   * (the text before the last `@`) is cut at its first `:`; when that leaves
   * nothing, the id falls back to the text before the first `@`.
   */
  function UserId(netloc: string): (id: string)
    ensures |id| <= |netloc| && id == netloc[..|id|]
    ensures '@' !in netloc ==> id == netloc
    ensures '@' in netloc ==> |id| <= LastIndexOf(netloc, '@')
    ensures '@' in netloc ==>
      var userinfo := netloc[..LastIndexOf(netloc, '@')];
      && (IndexOf(userinfo, ':') > 0 ==> id == userinfo[..IndexOf(userinfo, ':')])
      && (IndexOf(userinfo, ':') == 0 ==> id == netloc[..IndexOf(netloc, '@')])
  {
    SplitFirst(netloc, '@');
    var first := Split(netloc, '@')[0];
    match Username(netloc)
    case Some(u) => if u != "" then u else first
    case None => first
  }

  /**
   * The host and port part: the text between the first and the second `@`
   * (or the end), or all of the network location when it has no `@`.
   */
  function HostPort(netloc: string): (hp: string)
    ensures '@' !in netloc ==> hp == netloc
    ensures '@' in netloc ==>
      var start := IndexOf(netloc, '@') + 1;
      && start + |hp| <= |netloc| && hp == netloc[start..start + |hp|]
      && '@' !in hp
      && (start + |hp| < |netloc| ==> netloc[start + |hp|] == '@')
  {
    if '@' in netloc then
      SecondPiece(netloc, '@');
      Split(netloc, '@')[1]
    else netloc
  }

  /** `host_port.split(':')[0]`: the text before the first `:`, all of it when there is none. */
  function Host(hostPort: string): (host: string)
    ensures |host| <= |hostPort| && host == hostPort[..|host|]
    ensures ':' !in host
    ensures |host| < |hostPort| ==> hostPort[|host|] == ':'
  {
    SplitFirst(hostPort, ':');
    Split(hostPort, ':')[0]
  }

  /** `int(host_port.split(':')[1]) if ':' in host_port else 443`. */
  function Port(hostPort: string): Result<int, Cause>
  {
    if ':' in hostPort then
      SplitFirst(hostPort, ':');
      var text := Split(hostPort, ':')[1];
      match ParseInt(text)
      case Some(n) => Ok(n)
      case None => Err(PortNotInteger(text))
    else Ok(DefaultPort)
  }

  /** `a or b` on strings: `a` unless it is empty. */
  function OrElse(a: string, b: string): string
  {
    if a != "" then a else b
  }

  /**
   * The `tlsSettings` record built when `security` is `tls`: the `sni` value
   * when present and non-empty, else the host; insecure only for `1`; the `alpn` value
   * cut at its commas, so that joining the pieces gives it back; `fp` as given.
   */
  function Tls(params: Params, host: string): (t: TlsSettings)
    ensures t.serverName ==
      if Get(params, "sni").Some? && Get(params, "sni").value != "" then Get(params, "sni").value else host
    ensures t.allowInsecure <==> Get(params, "allowInsecure") == Some("1")
    ensures t.alpn.Some? <==> Get(params, "alpn").Some?
    ensures t.alpn.Some? ==>
      && |t.alpn.value| >= 1
      && Join(t.alpn.value, ',') == Get(params, "alpn").value
      && forall k :: 0 <= k < |t.alpn.value| ==> ',' !in t.alpn.value[k]
    ensures t.fingerprint == Get(params, "fp")
  {
    TlsSettings(
      allowInsecure := GetOr(params, "allowInsecure", "0") == "1",
      serverName := OrElse(GetOr(params, "sni", ""), host),
      alpn :=
        match Get(params, "alpn")
        case Some(a) =>
          JoinSplit(a, ',');
          SplitPiecesFree(a, ',');
          Some(Split(a, ','))
        case None => None,
      fingerprint := Get(params, "fp"))
  }

  /**
   * The `realitySettings` record built when `security` is `reality`: the `sni`
   * value when present and non-empty, else the host; `pbk` and `sid` as given,
   * empty when missing;
   * `fp`, `chrome` when missing.
   */
  function Reality(params: Params, host: string): (r: RealitySettings)
    ensures r.serverName ==
      if Get(params, "sni").Some? && Get(params, "sni").value != "" then Get(params, "sni").value else host
    ensures Get(params, "pbk").None? ==> r.publicKey == ""
    ensures forall v :: Get(params, "pbk") == Some(v) ==> r.publicKey == v
    ensures Get(params, "sid").None? ==> r.shortId == ""
    ensures forall v :: Get(params, "sid") == Some(v) ==> r.shortId == v
    ensures Get(params, "fp").None? ==> r.fingerprint == "chrome"
    ensures forall v :: Get(params, "fp") == Some(v) ==> r.fingerprint == v
  {
    RealitySettings(
      serverName := OrElse(GetOr(params, "sni", ""), host),
      publicKey := GetOr(params, "pbk", ""),
      shortId := GetOr(params, "sid", ""),
      fingerprint := GetOr(params, "fp", "chrome"))
  }

  /** The `streamSettings` dictionary: the security branch, then the network branch. */
  function Stream(params: Params, host: string): (ss: StreamSettings)
    ensures Consistent(ss)
  {
    var network := GetOr(params, "type", "tcp");
    var security := GetOr(params, "security", "none");
    StreamSettings(
      network := network,
      security := if security == "tls" || security == "reality" then Some(security) else None,
      tlsSettings := if security == "tls" then Some(Tls(params, host)) else None,
      realitySettings := if security == "reality" then Some(Reality(params, host)) else None,
      wsSettings :=
        if network == "ws" then
          Some(WsSettings(
            GetOr(params, "path", "/"),
            match Get(params, "host") case Some(h) => map["Host" := h] case None => map[]))
        else None,
      grpcSettings := if network == "grpc" then Some(GrpcSettings(GetOr(params, "serviceName", ""))) else None,
      httpSettings :=
        if network == "h2" then
          Some(HttpSettings(
            GetOr(params, "path", "/"),
            match Get(params, "host") case Some(h) => [h] case None => []))
        else None)
  }

  /** `parse_share_link`: the outbound descriptor, or the parse error it raises. */
  function ParseShareLink(uri: Uri): (r: Result<Outbound, ParseError>)
    ensures r.Ok? <==> Lower(uri.scheme) == "vless" && Port(HostPort(uri.netloc)).Ok?
    ensures r.Ok? ==> Consistent(r.value.streamSettings)
  {
    var protocol := Lower(uri.scheme);
    if protocol != "vless" then Err(ParseError(UnsupportedProtocol(protocol)))
    else
      var hostPort := HostPort(uri.netloc);
      var host := Host(hostPort);
      match Port(hostPort)
      case Err(cause) => Err(ParseError(cause))
      case Ok(port) =>
        var params := ParseQs(uri.query);
        var user := User(
          id := UserId(uri.netloc),
          encryption := GetOr(params, "encryption", "none"),
          flow := GetOr(params, "flow", ""),
          level := 0);
        Ok(Outbound(
          protocol := "vless",
          vnext := [Server(host, port, [user])],
          streamSettings := Stream(params, host)))
  }
}
