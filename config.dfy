/**
 * The pure steps of `main` around the parser: accepting the listener port
 * typed by the user, assembling the configuration Xray is started with, and
 * naming the file it is written to.
 */
module Config {
  import opened Outcomes
  import opened Strings
  import opened PyInt
  import opened Descriptor

  const DefaultListenPort := 9999
  const MinListenPort := 1024
  const MaxListenPort := 65535

  /**
   * Why a listener port is refused: `int()` raised on the text (the error
   * leaves `main` and ends the run), or the number lies outside 1024..65535
   * (`main` reports it and returns).
   */
  datatype PortError = NotAnInteger(text: string) | OutOfRange(port: int)

  /** The port typed at the prompt, whitespace stripped; empty input means 9999. */
  function ListenPort(input: string): (r: Result<int, PortError>)
    ensures r.Ok? ==> MinListenPort <= r.value <= MaxListenPort
  {
    var text := Strip(input);
    var parsed := if text == "" then Some(DefaultListenPort) else ParseInt(text);
    match parsed
    case None => Err(NotAnInteger(text))
    case Some(port) =>
      if MinListenPort <= port <= MaxListenPort then Ok(port) else Err(OutOfRange(port))
  }

  /**
   * Empty input selects 9999. Any other input is read by `int()` once
   * stripped, so ` 8080`, `08080`, `+8080` and `8_080` all give 8080: a number
   * in 1024..65535 is accepted, any other number is refused as out of range,
   * and text `int()` rejects is refused as not an integer.
   */
  lemma {:induction false} ListenPortRule(input: string)
    ensures Strip(input) == "" ==> ListenPort(input) == Ok(DefaultListenPort)
    ensures Strip(input) != "" && ParseInt(Strip(input)) == None ==>
      ListenPort(input) == Err(NotAnInteger(Strip(input)))
    ensures forall n :: Strip(input) != "" && ParseInt(Strip(input)) == Some(n) ==>
      ListenPort(input) == if MinListenPort <= n <= MaxListenPort then Ok(n) else Err(OutOfRange(n))
  {
  }

  /** A number typed in decimal is accepted exactly when it lies in 1024..65535. */
  lemma {:induction false} ListenPortDecimal(port: int)
    ensures ListenPort(Decimal(port)) ==
      if MinListenPort <= port <= MaxListenPort then Ok(port) else Err(OutOfRange(port))
  {
    DecimalTrimmed(port, StrBlanks);
    ParseDecimal(port);
  }

  /** The local SOCKS listener Xray is told to open. */
  datatype Inbound = Inbound(port: int, listen: string, protocol: string, auth: string, udp: bool)

  /** The whole configuration: log level, inbounds, outbounds. */
  datatype ProcessConfig = ProcessConfig(logLevel: string, inbounds: seq<Inbound>, outbounds: seq<Outbound>)

  /** The configuration `main` writes: one no-auth SOCKS inbound on loopback at `port`, the parsed outbound. */
  function Assemble(outbound: Outbound, port: int): ProcessConfig
  {
    ProcessConfig(
      logLevel := "warning",
      inbounds := [Inbound(port, "127.0.0.1", "socks", "noauth", true)],
      outbounds := [outbound])
  }

  /**
   * `f"xray_test_{port}.json"`: the fixed prefix and suffix around `str(port)`,
   * the canonical decimal form, which `int()` reads back as the port.
   */
  function ConfigFileName(port: int): (name: string)
    ensures |name| > 15 && name[..10] == "xray_test_" && name[|name| - 5..] == ".json"
    ensures name == "xray_test_" + Decimal(port) + ".json"
    ensures ParseInt(name[10..|name| - 5]) == Some(port)
  {
    var name := "xray_test_" + Decimal(port) + ".json";
    assert name[10..|name| - 5] == Decimal(port);
    ParseDecimal(port);
    name
  }

  /** The file name tells the port: two ports share a file name only when they are the same port. */
  lemma {:induction false} ConfigFileNameInjective(a: int, b: int)
    requires ConfigFileName(a) == ConfigFileName(b)
    ensures a == b
  {
  }
}
