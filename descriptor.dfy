/**
 * The outbound descriptor the share-link parser builds: the dictionary
 * handed to Xray as one element of `outbounds`, with the same keys. A key
 * the parser adds only on some paths is an `Option` field here.
 */
module Descriptor {
  import opened Outcomes

  datatype User = User(id: string, encryption: string, flow: string, level: int)

  /** One `vnext` entry: the server and the users to present to it. */
  datatype Server = Server(address: string, port: int, users: seq<User>)

  datatype TlsSettings = TlsSettings(
    allowInsecure: bool,
    serverName: string,
    alpn: Option<seq<string>>,
    fingerprint: Option<string>)

  datatype RealitySettings = RealitySettings(
    serverName: string,
    publicKey: string,
    shortId: string,
    fingerprint: string)

  datatype WsSettings = WsSettings(path: string, headers: map<string, string>)

  datatype GrpcSettings = GrpcSettings(serviceName: string)

  datatype HttpSettings = HttpSettings(path: string, host: seq<string>)

  /** `streamSettings`: the transport tag, the security tag and their settings records. */
  datatype StreamSettings = StreamSettings(
    network: string,
    security: Option<string>,
    tlsSettings: Option<TlsSettings>,
    realitySettings: Option<RealitySettings>,
    wsSettings: Option<WsSettings>,
    grpcSettings: Option<GrpcSettings>,
    httpSettings: Option<HttpSettings>)

  datatype Outbound = Outbound(protocol: string, vnext: seq<Server>, streamSettings: StreamSettings)

  /**
   * The settings records agree with the tags: a security record is present
   * exactly when the security tag names it, and a network record exactly when
   * the network tag names it, so at most one of each kind is present.
   */
  predicate Consistent(ss: StreamSettings)
  {
    && (ss.security == None || ss.security == Some("tls") || ss.security == Some("reality"))
    && (ss.tlsSettings.Some? <==> ss.security == Some("tls"))
    && (ss.realitySettings.Some? <==> ss.security == Some("reality"))
    && (ss.wsSettings.Some? <==> ss.network == "ws")
    && (ss.grpcSettings.Some? <==> ss.network == "grpc")
    && (ss.httpSettings.Some? <==> ss.network == "h2")
  }
}
