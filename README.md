# VLESS share-link parser of the Xray IP diagnostic tool

The diagnostic tool in `xray_ip_test.py` reads a VLESS share link of the form
`vless://<id>@<host>[:<port>]?<query>`. It turns the link into an Xray
*outbound* (protocol `vless`, one server, one user and the `streamSettings`
for the transport and security layers). It then wraps that outbound into a
configuration with a local SOCKS *inbound* on a port the user picks, and
writes the configuration to `xray_test_<port>.json` before starting Xray.

This project models those pure steps in Dafny and proves what they promise.

- `Strings` (`strings.dfy`): the Python string operations the parser uses.
  These are `split` on one character, the cut points of `partition`/`rpartition`,
  the whitespace trimming of `strip()` and of `int()`, and ASCII `lower`, with
  `Join` as the inverse of `Split`.
- `PyInt` (`pyint.dfy`): Python's `int(text)` in base 10 (whitespace, sign,
  underscores between digits, leading zeros) and `str(n)`, with the round trip
  `int(str(n)) == n`. `int()` skips only space and `\t\n\v\f\r`; the
  separators 0x1C..0x1F, which `strip()` removes, make `int()` fail.
- `Query` (`query.dfy`): `parse_qs` with `keep_blank_values=False`, and
  `params.get(key, [default])[0]`. An empty value (`sni=`) counts as absent.
- `Descriptor` (`descriptor.dfy`): the outbound dictionary as datatypes. A key
  that is only set on some paths is an `Option` field. `Consistent` is the
  invariant that each settings record is present exactly when its tag names it.
- `ShareLink` (`sharelink.dfy`): `parse_share_link`. The link enters already
  cut by `urlparse` into its scheme, its network location and its decoded
  query fields.
- `ShareLinkProperties` (`sharelink_props.dfy`): the parser's promises, field
  by field, stated against the query fields. `FirstValue(q, key, v)` says the
  first field giving `key` a non-empty value gives `v`. `NeverGiven(q, key)`
  says no field gives `key` a non-empty value.
- `Config` (`config.dfy`): the listener-port rule, the assembled configuration
  and its file name.
- `Json`, `Render` (`json.dfy`, `render.dfy`): the dictionaries handed to
  `json.dump`, written key by key. Each has a reader, and reading what was
  written gives the same value back.

Some behaviour of the code is easy to miss, and the model keeps it as written:

- A network location without `@` is not an error. The user id is then the
  whole network location (`UserId`), because `netloc.split('@')[0]` is all of it.
- The port read from the link is not range-checked. `vless://id@h:-5` and
  `vless://id@h:99999` both parse, and `int()` also accepts ` 443 `, `+443`,
  `0443` and `4_43`. Only text that `int()` rejects fails, such as an empty
  port (`h:`), a bracketed IPv6 host (`[::1]:443` gives host `[` and port text
  `""`), letters, or a port framed by the separator characters 0x1C..0x1F.
- The `security` key is written only for `tls` and `reality`. Any other value,
  `none` included, leaves it out. The `network` value is whatever `type` says.
  Only `ws`, `grpc` and `h2` get a settings record.
- With more than one `@` the host part is the text between the first and the
  second `@`, while `urlparse`'s user name is cut at the last `@`.

## Model

| member | source | states |
|---|---|---|
| `Strings.SplitFirst` | xray_ip_test.py:51-54 | `str.split` on one character: the first piece is the text before the first separator; there is more than one piece exactly when the separator occurs |
| `Strings.SplitPiecesFree` | xray_ip_test.py:51-54 | no piece of a split contains the separator |
| `Strings.JoinSplit` | xray_ip_test.py:51-54 | joining the pieces of a split with the separator gives back the original text |
| `Strings.SplitJoin` | xray_ip_test.py:51-54 | splitting joined pieces that hold no separator gives back exactly those pieces |
| `Strings.SplitSecond` | xray_ip_test.py:54 | `split(':')[1]` exists when `:` occurs and is the text between the first and the second `:` |
| `Strings.SecondPiece` | xray_ip_test.py:52 | the second piece starts right after the first separator, holds no separator, and ends at the next separator or at the end of the text |
| `Strings.LastIndexOf` | xray_ip_test.py:51 | the cut point of `rpartition`: an occurrence of the character with none after it |
| `Strings.TrimSlice` | xray_ip_test.py:140-141 | `strip()` (and the trimming `int()` does) returns a slice of the text with nothing but whitespace before and after it |
| `Strings.TrimEnds` | xray_ip_test.py:140-141 | what trimming returns neither begins nor ends with whitespace |
| `Strings.LowerMatches` | xray_ip_test.py:48 | lower-casing equals a lower-case word exactly when each character is that word's character in either case |
| `Strings.LowerTwice` | xray_ip_test.py:48 | lower-casing is idempotent, so lower-casing a scheme `urlsplit` has already lower-cased changes nothing |
| `PyInt.ParseInt` | xray_ip_test.py:54 | text `int()` accepts is not blank once trimmed; a negative result comes only from text starting with `-`, and such text never gives a positive number |
| `PyInt.ParseIntChars` | xray_ip_test.py:54 | text `int()` accepts holds only digits, `int()` whitespace, underscores and signs |
| `PyInt.Decimal` | xray_ip_test.py:197 | `str(n)`: a `-` exactly for negative numbers, then at least one digit and no leading zero except in `0` |
| `PyInt.ParseDecimal` | xray_ip_test.py:141 | `int(str(n)) == n` for every integer |
| `PyInt.ParseSigned` | xray_ip_test.py:54 | `int()` accepts `int()` whitespace, then no sign, `+` or `-`, then digits with single underscores between them, then `int()` whitespace, and reads the number the digits spell, negated under `-` |
| `PyInt.ParseIntShape` | xray_ip_test.py:54 | the converse: text `int()` accepts always has that shape and that value, so text such as `4-4`, `4__43`, `_443`, `443_` or `+-443` raises `ValueError` |
| `PyInt.ParseDecorated` | xray_ip_test.py:54 | `int()` reads the decimal digits of a number behind any leading zeros, an optional `+` or `-`, and surrounding `int()` whitespace as that number, negated under `-` |
| `PyInt.ParseUnderscored` | xray_ip_test.py:54 | the same text with one underscore put between two of its digits reads as the same number |
| `PyInt.DecimalTrimmed` | xray_ip_test.py:140-141 | `str(n)` is never blank and has no surrounding whitespace, so `strip()` and `int()` leave it alone |
| `PyInt.DecimalInjective` | xray_ip_test.py:197 | different integers have different decimal forms |
| `Query.ParseQsKeys` | xray_ip_test.py:55 | the keys of the `parse_qs` dictionary are exactly the names some field gives a non-empty value; each key's list is non-empty and starts with the first such value |
| `Query.ValuesFirst` | xray_ip_test.py:55 | a key's value list is empty exactly when no field gives it a non-empty value; otherwise it starts with the first such value |
| `Query.GivenIsPresent` | xray_ip_test.py:55 | a key is in the `parse_qs` dictionary exactly when some field gives it a non-empty value |
| `Query.GetFirst` | xray_ip_test.py:58-59 | `params.get(key)` is the first non-empty value given for the key, or nothing; `params.get(key, [d])[0]` is that value, or `d` |
| `ShareLink.UserId` | xray_ip_test.py:51 | the user id is a prefix of the network location: all of it when there is no `@`; otherwise the user information before the last `@` cut at its first `:`, and when that is empty the text before the first `@` |
| `ShareLink.HostPort` | xray_ip_test.py:52 | the host and port part is all of a network location without `@`; otherwise it is the `@`-free text after the first `@`, up to the next `@` or the end |
| `ShareLink.Host` | xray_ip_test.py:53 | the host is the longest prefix of the host and port part without `:`, followed by `:` unless it is all of it |
| `ShareLink.Tls` | xray_ip_test.py:67-76 | the TLS record takes `sni` when present and non-empty, else the host (also for an empty `sni`); is insecure exactly for `allowInsecure` `1`; has `alpn` exactly when given, as one or more comma-free pieces that join back to the value; carries `fp` as given |
| `ShareLink.Reality` | xray_ip_test.py:79-86 | the REALITY record takes `sni` when present and non-empty, else the host (also for an empty `sni`); `pbk` and `sid` are taken as given, empty when missing; `fp` is taken as given, `chrome` when missing |
| `ShareLink.Stream` | xray_ip_test.py:62-108 | the stream settings are consistent: at most one security record and at most one network record, each present exactly when its tag names it |
| `ShareLink.ParseShareLink` | xray_ip_test.py:44-132 | the parse succeeds exactly when the lower-cased scheme is `vless` and the port text is an integer (or absent); a result's stream settings are consistent |
| `ShareLinkProperties.SchemeRule` | xray_ip_test.py:48-50 | a scheme that is not `vless` in some letter case fails with an unsupported-protocol error naming the lower-cased scheme, and no outbound |
| `ShareLinkProperties.ParseIntRejects` | xray_ip_test.py:54 | text that is blank to `int()`, or text with a character no integer holds (the separators 0x1C..0x1F among them), is rejected by `int()` |
| `ShareLinkProperties.PortRule` | xray_ip_test.py:52-54 | port 443 without `:`; otherwise the integer between the first and second `:`; non-integer or blank port text is a parse error carrying that text |
| `ShareLinkProperties.SplitAtSign` | xray_ip_test.py:51-52 | `<id>@<rest>` with one `@` and no `:` in the id yields that id as the user and `<rest>` as the host-port part |
| `ShareLinkProperties.SplitAtColon` | xray_ip_test.py:53-54 | `<host>:<text>` with no `:` in either splits back into the host and the text |
| `ShareLinkProperties.AuthorityRoundTrip` | xray_ip_test.py:51-54 | a network location `<id>@<host>[:<port>]` reads back as that id, that host and that port (443 when omitted) |
| `ShareLinkProperties.NetworkAndSecurity` | xray_ip_test.py:58-68 | `network` is the first `type` value, else `tcp`; `security` is present exactly when the first `security` value is `tls` or `reality`, and equals it |
| `ShareLinkProperties.TlsFields` | xray_ip_test.py:67-76 | for `tls`: server name is `sni`, else the host; `allowInsecure` iff the first value is `1`; `alpn` present iff given, and then the value cut at commas; `fingerprint` present iff `fp` given, and equal to it |
| `ShareLinkProperties.RealityFields` | xray_ip_test.py:79-86 | for `reality`: server name is `sni`, else the host; public key and short id are `pbk` and `sid`, else empty; fingerprint is `fp`, else `chrome` |
| `ShareLinkProperties.NoSecurity` | xray_ip_test.py:59-86 | any other `security` value, or none, gives no security key and no security record |
| `ShareLinkProperties.WsFields` | xray_ip_test.py:89-95 | for `ws`: path is `path`, else `/`; the headers hold only `Host`, present iff `host` is given, and then mapped to it |
| `ShareLinkProperties.GrpcFields` | xray_ip_test.py:98-101 | for `grpc`: service name is `serviceName`, else empty; no other network record |
| `ShareLinkProperties.HttpFields` | xray_ip_test.py:104-108 | for `h2`: path is `path`, else `/`; the host list is `[host]` when `host` is given, else empty |
| `ShareLinkProperties.OtherNetwork` | xray_ip_test.py:89-108 | any other network, `tcp` included, gets no network record |
| `ShareLinkProperties.OutboundShape` | xray_ip_test.py:111-126 | protocol `vless`, exactly one server at the link's host and port, exactly one user with the link's id, `encryption` (else `none`), `flow` (else empty), level 0 |
| `ShareLinkProperties.WellFormedLinkParses` | xray_ip_test.py:44-128 | any `vless` link `<id>@<host>[:<port>]` with no `@` or `:` in the id and host parses, to that server, port and user |
| `Config.ListenPort` | xray_ip_test.py:140-145 | an accepted listener port lies in 1024..65535 |
| `Config.ListenPortRule` | xray_ip_test.py:140-145 | for every input: blank input selects 9999; otherwise the stripped text is read by `int()`, a number in 1024..65535 is accepted, any other number is refused as out of range, and text `int()` rejects is refused as not an integer |
| `Config.ListenPortDecimal` | xray_ip_test.py:140-145 | a port typed in decimal is accepted exactly when it lies in 1024..65535, otherwise refused as out of range |
| `Config.ConfigFileName` | xray_ip_test.py:197 | the file name is `xray_test_`, then `str(port)` in its canonical decimal form, then `.json`; `int()` reads the middle back as the port |
| `Config.ConfigFileNameInjective` | xray_ip_test.py:197 | two ports share a configuration file name only when they are the same port |
| `Json.ReadAllWritten` | xray_ip_test.py:114-123 | a list written element by element reads back as the same list when each element does |
| `Render.StreamSecurityKeys` | xray_ip_test.py:62-68 | the `streamSettings` dictionary always holds `network`, and holds `security` exactly when that field is present, with the field's value under each |
| `Render.StreamRecordKeys` | xray_ip_test.py:67-86 | `tlsSettings` and `realitySettings` are keys exactly when their records are present, each holding its record |
| `Render.StreamNetworkKeys` | xray_ip_test.py:89-108 | `wsSettings`, `grpcSettings` and `httpSettings` are keys exactly when their records are present, each holding its record |
| `Render.StreamRoundTrip` | xray_ip_test.py:62-108 | the `streamSettings` dictionary reads back as the same stream settings |
| `Render.OutboundRoundTrip` | xray_ip_test.py:111-128 | the outbound dictionary reads back as the same outbound |
| `Render.ConfigRoundTrip` | xray_ip_test.py:187-196 | the configuration dictionary reads back as the same configuration |
| `Render.AssembledConfigReadsBack` | xray_ip_test.py:187-196 | the configuration `Config.Assemble` builds, written and read back, has log level `warning`, exactly one inbound (SOCKS on 127.0.0.1 at the chosen port, no auth, UDP on) and the parsed outbound as its only outbound |

## Left out

- `urlparse` itself is not modelled. The model starts from its result, taking
  the scheme before `urlsplit` lower-cases it; the parser lower-cases it again,
  and lower-casing twice gives what lower-casing once does (`Strings.LowerTwice`),
  so the outcome is the same. It also takes the network location and the query fields. The fields are
  already split at `&` and at the first `=`, and percent-decoded. Library
  behaviour stays outside the model: `link.strip()`, the fragment, `+` as a
  space, dropping tab and newline characters, recognising a scheme, and the
  `ValueError` for unbalanced IPv6 brackets.
- `parse_qs` limits: fields without `=` and the `max_num_fields` limit belong to
  building the field list and are not modelled. A raw value is empty exactly
  when its decoded value is, so dropping empty values after decoding matches
  the library.
- `Strings.IsSpace`, `Strings.IsIntSpace`, `Strings.Lower`, `PyInt.ParseInt`:
  only ASCII is covered. Non-ASCII whitespace (such as U+00A0) and non-ASCII
  decimal digits, which Python's `strip()` and `int()` also accept, are not
  modelled.
- `PyInt.ParseInt`, `PyInt.Decimal`: Python's limit on decimal conversions
  (`sys.set_int_max_str_digits`, 4300 digits by default) is not modelled.
  Python raises `ValueError` for longer text, while the model reads numbers of
  any length. So `PyInt.ParseDecimal`, `PyInt.ParseDecorated`,
  `PyInt.ParseUnderscored`, `Config.ListenPortRule`,
  `ShareLinkProperties.AuthorityRoundTrip` and
  `ShareLinkProperties.WellFormedLinkParses` also hold for numbers that Python
  would refuse to convert.
- `Render`: key order is not modelled, because objects are maps. `json.dump`
  text (indentation, `ensure_ascii=False`) is not modelled either. Writing,
  re-reading and deleting the file are file I/O.
- Console colours (`init_colors`, `Colors`, `log`), the `input()` prompts and
  the check for an empty link (xray_ip_test.py:147-152) are terminal I/O.
- The search for `xray.exe` among candidate names is filesystem I/O.
- Starting, polling, terminating and killing the Xray process, including the
  debug re-run and the waits, is process control and timing.
- The HTTP probes through the SOCKS port, their error classification and the
  final report are network I/O and console output.
