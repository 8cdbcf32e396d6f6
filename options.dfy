/** The options that `createClient` hands to the native module, and their
    derivation from `options.uri` before the native call. */
module ConnectOptions {
  import opened Wrappers
  import opened Js
  import Uri

  /** The options object as `createClient` sees it. `protocol` is a string
      because a caller may set any value when it gives no URI; `extra`
      stands for every other property (clientId, user, pass, keepalive, ...),
      which `createClient` forwards untouched. */
  datatype Options = Options(
    uri: Option<string>,
    host: Option<string>,
    port: Option<nat>,
    protocol: Option<string>,
    tls: Option<bool>,
    extra: map<string, string>)

  /** Reading `matches[2]` of a `null` match throws a `TypeError` inside the
      async `createClient`, which rejects its promise. `UriMismatch(uri)`
      stands in for that `TypeError`; the real error does not carry the URI. */
  datatype ConfigError = UriMismatch(uri: string)

  /** `mqtts` and `wss` switch TLS on. */
  predicate IsSecure(sc: Uri.Scheme)
  {
    sc == Uri.Mqtts || sc == Uri.Wss
  }

  /** `ws` and `wss` select the WebSocket transport. */
  predicate IsWebSocket(sc: Uri.Scheme)
  {
    sc == Uri.Ws || sc == Uri.Wss
  }

  /** The assignments of lines 73-91: with a truthy `uri`, `port`, `host`
      and `protocol` are overwritten from the match and `tls` is set only
      for a secure scheme; a URI that does not match is an error and
      nothing is assigned. */
  function DeriveOptions(o: Options): (r: Result<Options, ConfigError>)
    ensures !Truthy(o.uri) ==> r == Success(o)
    ensures r.Failure? <==> Truthy(o.uri) && Uri.MatchUri(o.uri.value).None?
    ensures r.Failure? ==> r.error == UriMismatch(o.uri.value)
    ensures r.Success? ==> r.value.uri == o.uri && r.value.extra == o.extra
  {
    if !Truthy(o.uri) then Success(o)
    else match Uri.MatchUri(o.uri.value)
      case None => Failure(UriMismatch(o.uri.value))
      case Some(m) =>
        Success(o.(
          port := Some(Uri.DecimalValue(m.port)),
          host := Some(m.host),
          protocol := Some(if IsWebSocket(m.scheme) then "ws" else "tcp"),
          tls := if IsSecure(m.scheme) then Some(true) else o.tls))
  }

  /** The matched scheme is a WebSocket one exactly when the URI begins with
      `ws:` or `wss:`. */
  lemma WebSocketIffPrefix(u: string)
    requires Uri.MatchUri(u).Some?
    ensures IsWebSocket(Uri.MatchUri(u).value.scheme) <==> Uri.StartsWith(u, "ws:") || Uri.StartsWith(u, "wss:")
  {
    assert Uri.SchemeText(Uri.Ws) + ":" == "ws:";
    assert Uri.SchemeText(Uri.Wss) + ":" == "wss:";
    Uri.MatchedSchemeIsPrefix(u, Uri.Ws);
    Uri.MatchedSchemeIsPrefix(u, Uri.Wss);
  }

  /** The matched scheme is a secure one exactly when the URI begins with
      `mqtts:` or `wss:`. */
  lemma SecureIffPrefix(u: string)
    requires Uri.MatchUri(u).Some?
    ensures IsSecure(Uri.MatchUri(u).value.scheme) <==> Uri.StartsWith(u, "mqtts:") || Uri.StartsWith(u, "wss:")
  {
    assert Uri.SchemeText(Uri.Mqtts) + ":" == "mqtts:";
    assert Uri.SchemeText(Uri.Wss) + ":" == "wss:";
    Uri.MatchedSchemeIsPrefix(u, Uri.Mqtts);
    Uri.MatchedSchemeIsPrefix(u, Uri.Wss);
  }

  /** When the URI is accepted, the protocol is "ws" exactly when the URI
      begins with `ws:` or `wss:`, and "tcp" otherwise (also for `mqtt:`,
      `mqtts:` and the empty scheme). */
  lemma ProtocolFollowsScheme(o: Options)
    requires Truthy(o.uri) && DeriveOptions(o).Success?
    ensures var u := o.uri.value;
      DeriveOptions(o).value.protocol
        == Some(if Uri.StartsWith(u, "ws:") || Uri.StartsWith(u, "wss:") then "ws" else "tcp")
  {
    WebSocketIffPrefix(o.uri.value);
  }

  /** When the URI is accepted, `tls` becomes true exactly when the URI
      begins with `mqtts:` or `wss:`; otherwise the caller's value, whatever
      it was, is kept. */
  lemma TlsFollowsScheme(o: Options)
    requires Truthy(o.uri) && DeriveOptions(o).Success?
    ensures var u := o.uri.value;
      DeriveOptions(o).value.tls
        == if Uri.StartsWith(u, "mqtts:") || Uri.StartsWith(u, "wss:") then Some(true) else o.tls
  {
    SecureIffPrefix(o.uri.value);
  }

  /** `scheme://H:D` sets host H and port the decimal value of D. */
  lemma HostAndPortFromUri(o: Options, sc: Uri.Scheme, h: string, p: string)
    requires Uri.AllHostChars(h) && p != [] && Uri.AllDigits(p)
    requires o.uri == Some(Uri.SchemeText(sc) + "://" + h + ":" + p)
    ensures DeriveOptions(o).Success?
    ensures DeriveOptions(o).value.host == Some(h)
    ensures DeriveOptions(o).value.port == Some(Uri.DecimalValue(p))
  {
    Uri.HostColonPort(sc, h, p);
  }

  /** `scheme://A` with no colon in A keeps all but the last character as
      host and takes the last digit alone as port. */
  lemma PortIsLastDigitWithoutColon(o: Options, sc: Uri.Scheme, a: string)
    requires a != [] && Uri.AllHostChars(a) && Uri.IsDigit(a[|a| - 1])
    requires o.uri == Some(Uri.SchemeText(sc) + "://" + a)
    ensures DeriveOptions(o).Success?
    ensures DeriveOptions(o).value.host == Some(a[..|a| - 1])
    ensures DeriveOptions(o).value.port == Some(a[|a| - 1] as int - '0' as int)
  {
    Uri.HostWithoutColon(sc, a);
    assert a[|a| - 1..] == [a[|a| - 1]];
    Uri.SingleDigitValue(a[|a| - 1]);
  }

  /** A truthy URI that the pattern does not spell is a configuration error
      and no option is updated; one that it spells is accepted. */
  lemma AcceptedExactlyWhenSpelled(o: Options)
    requires Truthy(o.uri)
    ensures DeriveOptions(o).Success? <==> exists m, sep :: Uri.Spells(o.uri.value, m, sep)
    ensures DeriveOptions(o).Failure? ==> DeriveOptions(o) == Failure(UriMismatch(o.uri.value))
  {
    var u := o.uri.value;
    Uri.MatchIsSound(u);
    if exists m, sep :: Uri.Spells(u, m, sep) {
      var m, sep :| Uri.Spells(u, m, sep);
      Uri.MatchIsComplete(u, m, sep);
    }
  }

  /** Deriving again from derived options changes nothing: the URI is the
      same, so the same values are assigned, and `tls` is already true
      wherever it is forced. */
  lemma DeriveIsIdempotent(o: Options)
    requires DeriveOptions(o).Success?
    ensures DeriveOptions(DeriveOptions(o).value) == DeriveOptions(o)
  {
  }

  /** The greedy trap on the whole derivation: `mqtt://broker1883` gives
      host `broker188`, port 3, protocol "tcp" and leaves `tls` alone. */
  lemma BrokerWithoutColonOptions(tls: Option<bool>)
    ensures DeriveOptions(Options(Some("mqtt://broker1883"), None, None, None, tls, map[]))
         == Success(Options(Some("mqtt://broker1883"), Some("broker188"), Some(3), Some("tcp"), tls, map[]))
  {
    var o := Options(Some("mqtt://broker1883"), None, None, None, tls, map[]);
    Uri.BrokerWithoutColon();
    Uri.SingleDigitValue('3');
    assert "3" == ['3'];
    PlainSchemeDerivation(o, "broker188", "3");
  }

  /** The usual form: `mqtt://broker:1883` gives host `broker`, port 1883,
      protocol "tcp" and leaves `tls` alone. */
  lemma BrokerWithColonOptions(tls: Option<bool>)
    ensures DeriveOptions(Options(Some("mqtt://broker:1883"), None, None, None, tls, map[]))
         == Success(Options(Some("mqtt://broker:1883"), Some("broker"), Some(1883), Some("tcp"), tls, map[]))
  {
    var o := Options(Some("mqtt://broker:1883"), None, None, None, tls, map[]);
    Uri.BrokerWithColon();
    Uri.DecimalValueOf1883();
    PlainSchemeDerivation(o, "broker", "1883");
  }

  /** With an accepted `mqtt:` URI, the derivation sets host, port and
      protocol "tcp" and keeps everything else. */
  lemma PlainSchemeDerivation(o: Options, h: string, p: string)
    requires Truthy(o.uri) && Uri.MatchUri(o.uri.value) == Some(Uri.UriMatch(Uri.Mqtt, h, p))
    requires Uri.AllDigits(p)
    ensures DeriveOptions(o) == Success(o.(port := Some(Uri.DecimalValue(p)), host := Some(h), protocol := Some("tcp")))
  {
  }
}
