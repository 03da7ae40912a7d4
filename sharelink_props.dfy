/**
 * What `parse_share_link` promises, stated against the query fields of the
 * link rather than against the parser's own lookups: "the first non-empty
 * value given for a key" (`FirstValue`) and "no non-empty value given"
 * (`NeverGiven`).
 */
module ShareLinkProperties {
  import opened Outcomes
  import opened Strings
  import opened PyInt
  import opened Query
  import opened Descriptor
  import opened ShareLink

  /**
   * Only the `vless` scheme is accepted, in any mix of letter cases; any other
   * scheme fails with an unsupported-protocol error naming it in lower case.
   */
  lemma {:induction false} SchemeRule(uri: Uri)
    ensures Lower(uri.scheme) != "vless" ==>
      ParseShareLink(uri) == Err(ParseError(UnsupportedProtocol(Lower(uri.scheme))))
    ensures Lower(uri.scheme) == "vless" <==>
      |uri.scheme| == 5 && forall k :: 0 <= k < 5 ==> uri.scheme[k] == "vless"[k] || uri.scheme[k] == "VLESS"[k]
  {
    LowerMatches(uri.scheme, "vless");
    var s := uri.scheme;
    if |s| == 5 {
      forall k | 0 <= k < 5
        ensures (s[k] == "vless"[k] || s[k] as int == "vless"[k] as int - 32)
            <==> (s[k] == "vless"[k] || s[k] == "VLESS"[k])
      {
        assert "VLESS"[k] as int == "vless"[k] as int - 32;
      }
    }
  }

  /**
   * Text that `int()` rejects: text that is blank to `int()`, or text with a
   * character no integer literal holds (the separators 0x1C..0x1F among them,
   * although `str.strip()` would remove those).
   */
  lemma {:induction false} ParseIntRejects(s: string)
    requires Trim(s, IntBlanks) == "" || exists k :: 0 <= k < |s| && !IntTextChar(s[k])
    ensures ParseInt(s) == None
  {
    if ParseInt(s).Some? {
      ParseIntChars(s);
    }
  }

  /**
   * The port is 443 when the host and port part has no `:`. Otherwise it is
   * the integer the text between the first and the second `:` spells, and
   * text that is not an integer (an empty port among it) fails the parse.
   */
  lemma {:induction false} PortRule(uri: Uri)
    requires Lower(uri.scheme) == "vless"
    ensures var hp := HostPort(uri.netloc);
      ':' !in hp ==> ParseShareLink(uri).Ok? && ParseShareLink(uri).value.vnext[0].port == 443
    ensures var hp := HostPort(uri.netloc);
      ':' in hp ==>
        var rest := hp[IndexOf(hp, ':') + 1..];
        var text := rest[..IndexOf(rest, ':')];
        && (ParseInt(text) == None ==> ParseShareLink(uri) == Err(ParseError(PortNotInteger(text))))
        && (forall n :: ParseInt(text) == Some(n) ==>
              ParseShareLink(uri).Ok? && ParseShareLink(uri).value.vnext[0].port == n)
        && (Trim(text, IntBlanks) == "" ==> ParseShareLink(uri).Err?)
  {
    var hp := HostPort(uri.netloc);
    if ':' in hp {
      SplitSecond(hp, ':');
      var rest := hp[IndexOf(hp, ':') + 1..];
      var text := rest[..IndexOf(rest, ':')];
      if Trim(text, IntBlanks) == "" {
        ParseIntRejects(text);
      }
    }
  }

  /** A network location `<id>@<rest>` with a single `@` and no `:` in the id gives back the id and the rest. */
  lemma {:induction false} SplitAtSign(id: string, rest: string)
    requires '@' !in id && ':' !in id && '@' !in rest
    ensures UserId(id + "@" + rest) == id
    ensures HostPort(id + "@" + rest) == rest
  {
    var netloc := id + "@" + rest;
    assert Join([id, rest], '@') == netloc;
    SplitJoin([id, rest], '@');
    assert netloc[|id|] == '@';
    assert forall k :: 0 <= k < |id| ==> netloc[k] == id[k];
    assert forall k :: |id| < k < |netloc| ==> netloc[k] == rest[k - |id| - 1];
    assert LastIndexOf(netloc, '@') == |id|;
    assert netloc[..|id|] == id;
  }

  /** `<host>:<text>` with no `:` in the host and the text cuts back into the host and the text. */
  lemma {:induction false} SplitAtColon(host: string, text: string)
    requires ':' !in host && ':' !in text
    ensures Split(host + ":" + text, ':') == [host, text]
  {
    assert Join([host, text], ':') == host + ":" + text;
    SplitJoin([host, text], ':');
  }

  /**
   * A network location written as `<id>@<host>:<port>`, with no `@` or `:`
   * inside the id or the host, is read back as that id, that host and that
   * port; written as `<id>@<host>`, the port is 443.
   */
  lemma {:induction false} AuthorityRoundTrip(id: string, host: string, port: Option<int>)
    requires '@' !in id && ':' !in id
    requires '@' !in host && ':' !in host
    ensures var netloc := id + "@" + host + (match port case Some(n) => ":" + Decimal(n) case None => "");
      && UserId(netloc) == id
      && Host(HostPort(netloc)) == host
      && Port(HostPort(netloc)) == Ok(match port case Some(n) => n case None => DefaultPort)
  {
    match port
    case None =>
      assert id + "@" + host + "" == id + "@" + host;
      SplitAtSign(id, host);
    case Some(n) =>
      var digits := Decimal(n);
      assert ':' !in digits && '@' !in digits by {
        forall k | 0 <= k < |digits| ensures digits[k] != ':' && digits[k] != '@' {
          if n < 0 && k > 0 { assert digits[k] == digits[1..][k - 1]; }
        }
      }
      var hp := host + ":" + digits;
      assert '@' !in hp by {
        forall k | 0 <= k < |hp| ensures hp[k] != '@' {
          if k < |host| { assert hp[k] == host[k]; }
          else if k > |host| { assert hp[k] == digits[k - |host| - 1]; }
        }
      }
      assert id + "@" + host + (":" + digits) == id + "@" + hp;
      SplitAtSign(id, hp);
      SplitAtColon(host, digits);
      ParseDecimal(n);
  }

  /**
   * `streamSettings.network` is the first `type` value, `tcp` by default; the
   * `security` key is present exactly when the first `security` value is
   * `tls` or `reality`, and then holds that value.
   */
  lemma {:induction false} NetworkAndSecurity(uri: Uri)
    requires ParseShareLink(uri).Ok?
    ensures var ss := ParseShareLink(uri).value.streamSettings;
      && (NeverGiven(uri.query, "type") ==> ss.network == "tcp")
      && (forall v :: FirstValue(uri.query, "type", v) ==> ss.network == v)
      && (forall v :: ss.security == Some(v) <==>
            FirstValue(uri.query, "security", v) && (v == "tls" || v == "reality"))
  {
    GetFirst(uri.query, "type", "tcp");
    GetFirst(uri.query, "security", "none");
  }

  /**
   * With `security=tls`: the server name is the first `sni` value, else the
   * host; `allowInsecure` holds exactly when the first `allowInsecure` value is
   * `1`; `alpn` is present exactly when an `alpn` value is given, and is then
   * that value cut at its commas; `fingerprint` is present exactly when `fp` is.
   */
  lemma {:induction false} TlsFields(uri: Uri)
    requires ParseShareLink(uri).Ok?
    requires FirstValue(uri.query, "security", "tls")
    ensures var o := ParseShareLink(uri).value;
      && o.streamSettings.tlsSettings.Some?
      && o.streamSettings.realitySettings.None?
      && var t := o.streamSettings.tlsSettings.value;
      && (forall v :: FirstValue(uri.query, "sni", v) ==> t.serverName == v)
      && (NeverGiven(uri.query, "sni") ==> t.serverName == o.vnext[0].address)
      && (t.allowInsecure <==> FirstValue(uri.query, "allowInsecure", "1"))
      && (t.alpn.Some? <==> !NeverGiven(uri.query, "alpn"))
      && (forall v :: FirstValue(uri.query, "alpn", v) ==>
            t.alpn.Some? && Join(t.alpn.value, ',') == v
            && forall k :: 0 <= k < |t.alpn.value| ==> ',' !in t.alpn.value[k])
      && (forall v :: t.fingerprint == Some(v) <==> FirstValue(uri.query, "fp", v))
  {
    var q := uri.query;
    GetFirst(q, "security", "none");
    GetFirst(q, "sni", "");
    GetFirst(q, "allowInsecure", "0");
    GetFirst(q, "alpn", "");
    GetFirst(q, "fp", "");
    var t := ParseShareLink(uri).value.streamSettings.tlsSettings.value;
    if t.allowInsecure {
      assert Get(ParseQs(q), "allowInsecure") == Some("1");
    }
  }

  /**
   * With `security=reality`: the server name is the first `sni` value, else the
   * host; the public key and short id are the first `pbk` and `sid` values,
   * empty by default; the fingerprint is the first `fp` value, `chrome` by default.
   */
  lemma {:induction false} RealityFields(uri: Uri)
    requires ParseShareLink(uri).Ok?
    requires FirstValue(uri.query, "security", "reality")
    ensures var o := ParseShareLink(uri).value;
      && o.streamSettings.realitySettings.Some?
      && o.streamSettings.tlsSettings.None?
      && var r := o.streamSettings.realitySettings.value;
      && (forall v :: FirstValue(uri.query, "sni", v) ==> r.serverName == v)
      && (NeverGiven(uri.query, "sni") ==> r.serverName == o.vnext[0].address)
      && (forall v :: FirstValue(uri.query, "pbk", v) ==> r.publicKey == v)
      && (NeverGiven(uri.query, "pbk") ==> r.publicKey == "")
      && (forall v :: FirstValue(uri.query, "sid", v) ==> r.shortId == v)
      && (NeverGiven(uri.query, "sid") ==> r.shortId == "")
      && (forall v :: FirstValue(uri.query, "fp", v) ==> r.fingerprint == v)
      && (NeverGiven(uri.query, "fp") ==> r.fingerprint == "chrome")
  {
    var q := uri.query;
    GetFirst(q, "security", "none");
    GetFirst(q, "sni", "");
    GetFirst(q, "pbk", "");
    GetFirst(q, "sid", "");
    GetFirst(q, "fp", "chrome");
  }

  /** Any first `security` value other than `tls` and `reality` gives no security key and no security record. */
  lemma {:induction false} NoSecurity(uri: Uri)
    requires ParseShareLink(uri).Ok?
    requires NeverGiven(uri.query, "security")
      || exists v :: FirstValue(uri.query, "security", v) && v != "tls" && v != "reality"
    ensures var ss := ParseShareLink(uri).value.streamSettings;
      ss.security.None? && ss.tlsSettings.None? && ss.realitySettings.None?
  {
    GetFirst(uri.query, "security", "none");
  }

  /**
   * With `type=ws`: the path is the first `path` value, `/` by default, and the
   * headers hold exactly one entry, `Host`, exactly when a `host` value is
   * given, mapping it to that value.
   */
  lemma {:induction false} WsFields(uri: Uri)
    requires ParseShareLink(uri).Ok?
    requires FirstValue(uri.query, "type", "ws")
    ensures var ss := ParseShareLink(uri).value.streamSettings;
      && ss.wsSettings.Some? && ss.grpcSettings.None? && ss.httpSettings.None?
      && var ws := ss.wsSettings.value;
      && (forall v :: FirstValue(uri.query, "path", v) ==> ws.path == v)
      && (NeverGiven(uri.query, "path") ==> ws.path == "/")
      && ws.headers.Keys <= {"Host"}
      && ("Host" in ws.headers <==> !NeverGiven(uri.query, "host"))
      && (forall v :: FirstValue(uri.query, "host", v) ==> ws.headers == map["Host" := v])
  {
    var q := uri.query;
    GetFirst(q, "type", "tcp");
    GetFirst(q, "path", "/");
    GetFirst(q, "host", "");
  }

  /** With `type=grpc`: the service name is the first `serviceName` value, empty by default. */
  lemma {:induction false} GrpcFields(uri: Uri)
    requires ParseShareLink(uri).Ok?
    requires FirstValue(uri.query, "type", "grpc")
    ensures var ss := ParseShareLink(uri).value.streamSettings;
      && ss.grpcSettings.Some? && ss.wsSettings.None? && ss.httpSettings.None?
      && (forall v :: FirstValue(uri.query, "serviceName", v) ==> ss.grpcSettings.value.serviceName == v)
      && (NeverGiven(uri.query, "serviceName") ==> ss.grpcSettings.value.serviceName == "")
  {
    var q := uri.query;
    GetFirst(q, "type", "tcp");
    GetFirst(q, "serviceName", "");
  }

  /**
   * With `type=h2`: the path is the first `path` value, `/` by default, and the
   * host list is the first `host` value alone, or empty when none is given.
   */
  lemma {:induction false} HttpFields(uri: Uri)
    requires ParseShareLink(uri).Ok?
    requires FirstValue(uri.query, "type", "h2")
    ensures var ss := ParseShareLink(uri).value.streamSettings;
      && ss.httpSettings.Some? && ss.wsSettings.None? && ss.grpcSettings.None?
      && var h := ss.httpSettings.value;
      && (forall v :: FirstValue(uri.query, "path", v) ==> h.path == v)
      && (NeverGiven(uri.query, "path") ==> h.path == "/")
      && (forall v :: FirstValue(uri.query, "host", v) ==> h.host == [v])
      && (NeverGiven(uri.query, "host") ==> h.host == [])
  {
    var q := uri.query;
    GetFirst(q, "type", "tcp");
    GetFirst(q, "path", "/");
    GetFirst(q, "host", "");
  }

  /** Any network other than `ws`, `grpc` and `h2` (plain `tcp` among them) gets no network record. */
  lemma {:induction false} OtherNetwork(uri: Uri)
    requires ParseShareLink(uri).Ok?
    requires NeverGiven(uri.query, "type")
      || exists v :: FirstValue(uri.query, "type", v) && v != "ws" && v != "grpc" && v != "h2"
    ensures var ss := ParseShareLink(uri).value.streamSettings;
      ss.wsSettings.None? && ss.grpcSettings.None? && ss.httpSettings.None?
  {
    GetFirst(uri.query, "type", "tcp");
  }

  /**
   * The outbound speaks `vless` to exactly one server, the host and port of the
   * link, presenting exactly one user: the link's id, the first `encryption`
   * value (`none` by default), the first `flow` value (empty by default), level 0.
   */
  lemma {:induction false} OutboundShape(uri: Uri)
    requires ParseShareLink(uri).Ok?
    ensures var o := ParseShareLink(uri).value;
      && o.protocol == "vless"
      && |o.vnext| == 1
      && o.vnext[0].address == Host(HostPort(uri.netloc))
      && Port(HostPort(uri.netloc)) == Ok(o.vnext[0].port)
      && |o.vnext[0].users| == 1
      && var u := o.vnext[0].users[0];
      && u.id == UserId(uri.netloc)
      && u.level == 0
      && (forall v :: FirstValue(uri.query, "encryption", v) ==> u.encryption == v)
      && (NeverGiven(uri.query, "encryption") ==> u.encryption == "none")
      && (forall v :: FirstValue(uri.query, "flow", v) ==> u.flow == v)
      && (NeverGiven(uri.query, "flow") ==> u.flow == "")
  {
    GetFirst(uri.query, "encryption", "none");
    GetFirst(uri.query, "flow", "");
  }

  /**
   * A link `vless://<id>@<host>:<port>?...` (or without `:<port>`) whose id and
   * host hold no `@` or `:` parses, and its outbound names that server and user.
   */
  lemma {:induction false} WellFormedLinkParses(scheme: string, id: string, host: string, port: Option<int>, q: Fields)
    requires Lower(scheme) == "vless"
    requires '@' !in id && ':' !in id
    requires '@' !in host && ':' !in host
    ensures var netloc := id + "@" + host + (match port case Some(n) => ":" + Decimal(n) case None => "");
      var r := ParseShareLink(Uri(scheme, netloc, q));
      && r.Ok?
      && r.value.vnext[0].address == host
      && r.value.vnext[0].port == (match port case Some(n) => n case None => 443)
      && r.value.vnext[0].users[0].id == id
  {
    AuthorityRoundTrip(id, host, port);
  }
}
