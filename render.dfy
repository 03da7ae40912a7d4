/**
 * The dictionaries the tool hands to `json.dump`: the outbound with the keys
 * `parse_share_link` gives it, and the configuration `main` assembles around
 * it. Each writer has a reader, and reading what was written gives back the
 * same descriptor or configuration.
 */
module Render {
  import opened Outcomes
  import opened Json
  import opened Descriptor
  import opened Config

  // Writers: the dictionaries, key by key.

  function StringsValue(xs: seq<string>): Value
  {
    ArrayOf(xs, StringValue)
  }

  function UserValue(u: User): Value
  {
    JObject(map[
      "id" := JString(u.id),
      "encryption" := JString(u.encryption),
      "flow" := JString(u.flow),
      "level" := JInt(u.level)])
  }

  function ServerValue(s: Server): Value
  {
    JObject(map[
      "address" := JString(s.address),
      "port" := JInt(s.port),
      "users" := ArrayOf(s.users, UserValue)])
  }

  function TlsValue(t: TlsSettings): Value
  {
    var m := map["allowInsecure" := JBool(t.allowInsecure), "serverName" := JString(t.serverName)];
    JObject(WithOptional(WithOptional(m, "alpn", t.alpn, StringsValue), "fingerprint", t.fingerprint, StringValue))
  }

  function RealityValue(r: RealitySettings): Value
  {
    JObject(map[
      "serverName" := JString(r.serverName),
      "publicKey" := JString(r.publicKey),
      "shortId" := JString(r.shortId),
      "fingerprint" := JString(r.fingerprint)])
  }

  function HeadersValue(h: map<string, string>): Value
  {
    JObject(map k | k in h :: JString(h[k]))
  }

  function WsValue(w: WsSettings): Value
  {
    JObject(map["path" := JString(w.path), "headers" := HeadersValue(w.headers)])
  }

  function GrpcValue(g: GrpcSettings): Value
  {
    JObject(map["serviceName" := JString(g.serviceName)])
  }

  function HttpValue(h: HttpSettings): Value
  {
    JObject(map["path" := JString(h.path), "host" := StringsValue(h.host)])
  }

  function StreamFields(ss: StreamSettings): map<string, Value>
  {
    var m0 := map["network" := JString(ss.network)];
    var m1 := WithOptional(m0, "security", ss.security, StringValue);
    var m2 := WithOptional(m1, "tlsSettings", ss.tlsSettings, TlsValue);
    var m3 := WithOptional(m2, "realitySettings", ss.realitySettings, RealityValue);
    var m4 := WithOptional(m3, "wsSettings", ss.wsSettings, WsValue);
    var m5 := WithOptional(m4, "grpcSettings", ss.grpcSettings, GrpcValue);
    WithOptional(m5, "httpSettings", ss.httpSettings, HttpValue)
  }

  function OutboundValue(o: Outbound): Value
  {
    JObject(map[
      "protocol" := JString(o.protocol),
      "settings" := JObject(map["vnext" := ArrayOf(o.vnext, ServerValue)]),
      "streamSettings" := JObject(StreamFields(o.streamSettings))])
  }

  function InboundValue(i: Inbound): Value
  {
    JObject(map[
      "port" := JInt(i.port),
      "listen" := JString(i.listen),
      "protocol" := JString(i.protocol),
      "settings" := JObject(map["auth" := JString(i.auth), "udp" := JBool(i.udp)])])
  }

  function ConfigValue(c: ProcessConfig): Value
  {
    JObject(map[
      "log" := JObject(map["loglevel" := JString(c.logLevel)]),
      "inbounds" := ArrayOf(c.inbounds, InboundValue),
      "outbounds" := ArrayOf(c.outbounds, OutboundValue)])
  }

  // Readers: the typed value back from a dictionary, or nothing when a key is missing or mistyped.

  function ReadStrings(v: Value): Option<seq<string>>
  {
    if v.JArray? then ReadAll(v.items, AsString) else None
  }

  function ReadUser(v: Value): Option<User>
  {
    if !v.JObject? then None
    else
      var id :- StringMember(v.fields, "id");
      var encryption :- StringMember(v.fields, "encryption");
      var flow :- StringMember(v.fields, "flow");
      var level :- IntMember(v.fields, "level");
      Some(User(id, encryption, flow, level))
  }

  function ReadServer(v: Value): Option<Server>
  {
    if !v.JObject? then None
    else
      var address :- StringMember(v.fields, "address");
      var port :- IntMember(v.fields, "port");
      var users :- ArrayMember(v.fields, "users", ReadUser);
      Some(Server(address, port, users))
  }

  function ReadTls(v: Value): Option<TlsSettings>
  {
    if !v.JObject? then None
    else
      var allowInsecure :- BoolMember(v.fields, "allowInsecure");
      var serverName :- StringMember(v.fields, "serverName");
      var alpn :- OptionalMember(v.fields, "alpn", ReadStrings);
      var fingerprint :- OptionalMember(v.fields, "fingerprint", AsString);
      Some(TlsSettings(allowInsecure, serverName, alpn, fingerprint))
  }

  function ReadReality(v: Value): Option<RealitySettings>
  {
    if !v.JObject? then None
    else
      var serverName :- StringMember(v.fields, "serverName");
      var publicKey :- StringMember(v.fields, "publicKey");
      var shortId :- StringMember(v.fields, "shortId");
      var fingerprint :- StringMember(v.fields, "fingerprint");
      Some(RealitySettings(serverName, publicKey, shortId, fingerprint))
  }

  function ReadHeaders(v: Value): Option<map<string, string>>
  {
    if v.JObject? && forall k :: k in v.fields ==> v.fields[k].JString? then
      Some(map k | k in v.fields :: v.fields[k].str)
    else None
  }

  function ReadWs(v: Value): Option<WsSettings>
  {
    if !v.JObject? then None
    else
      var path :- StringMember(v.fields, "path");
      var headers :- Member(v.fields, "headers", ReadHeaders);
      Some(WsSettings(path, headers))
  }

  function ReadGrpc(v: Value): Option<GrpcSettings>
  {
    if !v.JObject? then None
    else
      var serviceName :- StringMember(v.fields, "serviceName");
      Some(GrpcSettings(serviceName))
  }

  function ReadHttp(v: Value): Option<HttpSettings>
  {
    if !v.JObject? then None
    else
      var path :- StringMember(v.fields, "path");
      var host :- Member(v.fields, "host", ReadStrings);
      Some(HttpSettings(path, host))
  }

  function ReadStream(m: map<string, Value>): Option<StreamSettings>
  {
    var network :- StringMember(m, "network");
    var security :- OptionalMember(m, "security", AsString);
    var tls :- OptionalMember(m, "tlsSettings", ReadTls);
    var reality :- OptionalMember(m, "realitySettings", ReadReality);
    var ws :- OptionalMember(m, "wsSettings", ReadWs);
    var grpc :- OptionalMember(m, "grpcSettings", ReadGrpc);
    var http :- OptionalMember(m, "httpSettings", ReadHttp);
    Some(StreamSettings(network, security, tls, reality, ws, grpc, http))
  }

  function ReadStreamValue(v: Value): Option<StreamSettings>
  {
    if v.JObject? then ReadStream(v.fields) else None
  }

  function ReadOutbound(v: Value): Option<Outbound>
  {
    if !v.JObject? then None
    else
      var protocol :- StringMember(v.fields, "protocol");
      var settings :- Member(v.fields, "settings", AsObject);
      var vnext :- ArrayMember(settings, "vnext", ReadServer);
      var stream :- Member(v.fields, "streamSettings", ReadStreamValue);
      Some(Outbound(protocol, vnext, stream))
  }

  function ReadInbound(v: Value): Option<Inbound>
  {
    if !v.JObject? then None
    else
      var port :- IntMember(v.fields, "port");
      var listen :- StringMember(v.fields, "listen");
      var protocol :- StringMember(v.fields, "protocol");
      var settings :- Member(v.fields, "settings", AsObject);
      var auth :- StringMember(settings, "auth");
      var udp :- BoolMember(settings, "udp");
      Some(Inbound(port, listen, protocol, auth, udp))
  }

  function ReadConfig(v: Value): Option<ProcessConfig>
  {
    if !v.JObject? then None
    else
      var log :- Member(v.fields, "log", AsObject);
      var logLevel :- StringMember(log, "loglevel");
      var inbounds :- ArrayMember(v.fields, "inbounds", ReadInbound);
      var outbounds :- ArrayMember(v.fields, "outbounds", ReadOutbound);
      Some(ProcessConfig(logLevel, inbounds, outbounds))
  }

  // Round trips: reading what was written gives back what was written.

  lemma {:induction false} StringsRoundTrip(xs: seq<string>)
    ensures ReadStrings(StringsValue(xs)) == Some(xs)
  {
    ReadAllWritten(xs, StringValue, AsString);
  }

  lemma {:induction false} UserRoundTrip(u: User)
    ensures ReadUser(UserValue(u)) == Some(u)
  {
  }

  lemma {:induction false} ServerRoundTrip(s: Server)
    ensures ReadServer(ServerValue(s)) == Some(s)
  {
    forall k | 0 <= k < |s.users| ensures ReadUser(UserValue(s.users[k])) == Some(s.users[k]) {
      UserRoundTrip(s.users[k]);
    }
    ReadAllWritten(s.users, UserValue, ReadUser);
  }

  lemma {:induction false} TlsRoundTrip(t: TlsSettings)
    ensures ReadTls(TlsValue(t)) == Some(t)
  {
    if t.alpn.Some? {
      StringsRoundTrip(t.alpn.value);
    }
  }

  lemma {:induction false} HeadersRoundTrip(h: map<string, string>)
    ensures ReadHeaders(HeadersValue(h)) == Some(h)
  {
    var back := map k | k in HeadersValue(h).fields :: HeadersValue(h).fields[k].str;
    assert back == h;
  }

  /**
   * The `streamSettings` dictionary holds `network`, and `security` exactly
   * when that field is present, with the field written under it.
   */
  lemma {:induction false} StreamSecurityKeys(ss: StreamSettings)
    ensures var f := StreamFields(ss);
      && "network" in f && f["network"] == JString(ss.network)
      && ("security" in f <==> ss.security.Some?)
      && (ss.security.Some? ==> f["security"] == JString(ss.security.value))
  {
  }

  /** The same for the security records: each is present exactly when its field is, holding it. */
  lemma {:induction false} StreamRecordKeys(ss: StreamSettings)
    ensures var f := StreamFields(ss);
      && ("tlsSettings" in f <==> ss.tlsSettings.Some?)
      && (ss.tlsSettings.Some? ==> f["tlsSettings"] == TlsValue(ss.tlsSettings.value))
      && ("realitySettings" in f <==> ss.realitySettings.Some?)
      && (ss.realitySettings.Some? ==> f["realitySettings"] == RealityValue(ss.realitySettings.value))
  {
  }

  /** The same for the transport keys: each is present exactly when its field is, holding it. */
  lemma {:induction false} StreamNetworkKeys(ss: StreamSettings)
    ensures var f := StreamFields(ss);
      && ("wsSettings" in f <==> ss.wsSettings.Some?)
      && (ss.wsSettings.Some? ==> f["wsSettings"] == WsValue(ss.wsSettings.value))
      && ("grpcSettings" in f <==> ss.grpcSettings.Some?)
      && (ss.grpcSettings.Some? ==> f["grpcSettings"] == GrpcValue(ss.grpcSettings.value))
      && ("httpSettings" in f <==> ss.httpSettings.Some?)
      && (ss.httpSettings.Some? ==> f["httpSettings"] == HttpValue(ss.httpSettings.value))
  {
    assert "grpcSettings"[0] != "httpSettings"[0];
  }

  /** The tag and security members of the `streamSettings` dictionary read back as the fields they were written from. */
  lemma {:induction false} StreamSecurityRead(ss: StreamSettings)
    ensures var f := StreamFields(ss);
      && StringMember(f, "network") == Some(ss.network)
      && OptionalMember(f, "security", AsString) == Some(ss.security)
      && OptionalMember(f, "tlsSettings", ReadTls) == Some(ss.tlsSettings)
      && OptionalMember(f, "realitySettings", ReadReality) == Some(ss.realitySettings)
  {
    StreamSecurityKeys(ss);
    StreamRecordKeys(ss);
    if ss.tlsSettings.Some? { TlsRoundTrip(ss.tlsSettings.value); }
  }

  /** The transport members of the `streamSettings` dictionary read back as the fields they were written from. */
  lemma {:induction false} StreamNetworkRead(ss: StreamSettings)
    ensures var f := StreamFields(ss);
      && OptionalMember(f, "wsSettings", ReadWs) == Some(ss.wsSettings)
      && OptionalMember(f, "grpcSettings", ReadGrpc) == Some(ss.grpcSettings)
      && OptionalMember(f, "httpSettings", ReadHttp) == Some(ss.httpSettings)
  {
    StreamNetworkKeys(ss);
    if ss.wsSettings.Some? { HeadersRoundTrip(ss.wsSettings.value.headers); }
    if ss.httpSettings.Some? { StringsRoundTrip(ss.httpSettings.value.host); }
  }

  lemma {:induction false} StreamRoundTrip(ss: StreamSettings)
    ensures ReadStream(StreamFields(ss)) == Some(ss)
  {
    StreamSecurityRead(ss);
    StreamNetworkRead(ss);
  }

  /** Reading back the dictionary of an outbound gives back the same outbound. */
  lemma {:induction false} OutboundRoundTrip(o: Outbound)
    ensures ReadOutbound(OutboundValue(o)) == Some(o)
  {
    forall k | 0 <= k < |o.vnext| ensures ReadServer(ServerValue(o.vnext[k])) == Some(o.vnext[k]) {
      ServerRoundTrip(o.vnext[k]);
    }
    ReadAllWritten(o.vnext, ServerValue, ReadServer);
    StreamRoundTrip(o.streamSettings);
  }

  lemma {:induction false} InboundRoundTrip(i: Inbound)
    ensures ReadInbound(InboundValue(i)) == Some(i)
  {
  }

  lemma {:induction false} InboundsRoundTrip(xs: seq<Inbound>)
    ensures ReadAll(ArrayOf(xs, InboundValue).items, ReadInbound) == Some(xs)
  {
    forall k | 0 <= k < |xs| ensures ReadInbound(InboundValue(xs[k])) == Some(xs[k]) {
      InboundRoundTrip(xs[k]);
    }
    ReadAllWritten(xs, InboundValue, ReadInbound);
  }

  lemma {:induction false} OutboundsRoundTrip(xs: seq<Outbound>)
    ensures ReadAll(ArrayOf(xs, OutboundValue).items, ReadOutbound) == Some(xs)
  {
    forall k | 0 <= k < |xs| ensures ReadOutbound(OutboundValue(xs[k])) == Some(xs[k]) {
      OutboundRoundTrip(xs[k]);
    }
    ReadAllWritten(xs, OutboundValue, ReadOutbound);
  }

  /** Reading back the dictionary of a configuration gives back the same configuration. */
  lemma {:induction false} ConfigRoundTrip(c: ProcessConfig)
    ensures ReadConfig(ConfigValue(c)) == Some(c)
  {
    InboundsRoundTrip(c.inbounds);
    OutboundsRoundTrip(c.outbounds);
  }

  /**
   * The configuration `main` writes reads back as one no-auth SOCKS inbound
   * with UDP on 127.0.0.1 at the chosen port, at log level `warning`, and the
   * parsed outbound as the only outbound.
   */
  lemma {:induction false} AssembledConfigReadsBack(o: Outbound, port: int)
    ensures var c := ReadConfig(ConfigValue(Assemble(o, port)));
      && c.Some?
      && c.value.logLevel == "warning"
      && |c.value.inbounds| == 1
      && c.value.inbounds[0] == Inbound(port, "127.0.0.1", "socks", "noauth", true)
      && c.value.outbounds == [o]
  {
    ConfigRoundTrip(Assemble(o, port));
  }
}
