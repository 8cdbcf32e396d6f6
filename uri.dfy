/** The URI pattern of `createClient`,
      ^((mqtt[s]?|ws[s]?)?:(\/\/)([0-9a-zA-Z_\-\.]*):?(\d+))$
    as a deterministic matcher. `MatchUri` stands for `uri.match(pattern)`:
    it returns the capture groups (group 2: the scheme, group 4: the host,
    group 5: the port digits), or `None` where `match` yields `null`.
    `Spells` is the language of the pattern written out directly; the
    lemmas below show that `MatchUri` accepts exactly that language and
    picks the spelling with the longest host, the choice that the greedy
    host group makes. */
module Uri {
  import opened Wrappers

  /** The host character class `[0-9a-zA-Z_\-\.]`. */
  predicate IsHostChar(c: char)
  {
    ('0' <= c <= '9') || ('a' <= c <= 'z') || ('A' <= c <= 'Z') || c == '_' || c == '-' || c == '.'
  }

  /** The class `\d`: ASCII digits only. */
  predicate IsDigit(c: char)
  {
    '0' <= c <= '9'
  }

  predicate AllHostChars(s: string)
  {
    forall i :: 0 <= i < |s| ==> IsHostChar(s[i])
  }

  predicate AllDigits(s: string)
  {
    forall i :: 0 <= i < |s| ==> IsDigit(s[i])
  }

  predicate NoColon(s: string)
  {
    forall i :: 0 <= i < |s| ==> s[i] != ':'
  }

  predicate StartsWith(s: string, p: string)
  {
    |p| <= |s| && s[..|p|] == p
  }

  /** Group 2 of the pattern; `NoScheme` is the group not taking part. */
  datatype Scheme = NoScheme | Mqtt | Mqtts | Ws | Wss

  function SchemeText(sc: Scheme): string
  {
    match sc
    case NoScheme => ""
    case Mqtt => "mqtt"
    case Mqtts => "mqtts"
    case Ws => "ws"
    case Wss => "wss"
  }

  /** The capture groups of a successful match. */
  datatype UriMatch = UriMatch(scheme: Scheme, host: string, port: string)

  /** `s` is spelled by the pattern with captures `m`, where `sep` is what
      the optional `:?` consumed. */
  predicate Spells(s: string, m: UriMatch, sep: string)
  {
    && (sep == "" || sep == ":")
    && AllHostChars(m.host)
    && m.port != [] && AllDigits(m.port)
    && s == SchemeText(m.scheme) + "://" + m.host + sep + m.port
  }

  /** The position of the first colon of `s`, if any. */
  function FirstColon(s: string): (r: Option<nat>)
    ensures r.Some? ==> r.value < |s| && s[r.value] == ':' && NoColon(s[..r.value])
    ensures r.None? <==> NoColon(s)
  {
    if s == [] then None
    else if s[0] == ':' then Some(0)
    else match FirstColon(s[1..])
      case None => None
      case Some(i) =>
        assert s[..i + 1] == [s[0]] + s[1..][..i];
        Some(i + 1)
  }

  /** The scheme part `(mqtt[s]?|ws[s]?)?:`: the alternatives contain no
      colon, so at most one of them can be followed by the colon. */
  function MatchScheme(s: string): (r: Option<Scheme>)
    ensures r.Some? ==> StartsWith(s, SchemeText(r.value) + ":")
    ensures r.None? ==> forall sc :: !StartsWith(s, SchemeText(sc) + ":")
  {
    if StartsWith(s, "mqtts:") then Some(Mqtts)
    else if StartsWith(s, "mqtt:") then Some(Mqtt)
    else if StartsWith(s, "wss:") then Some(Wss)
    else if StartsWith(s, "ws:") then Some(Ws)
    else if StartsWith(s, ":") then Some(NoScheme)
    else None
  }

  /** The part `([0-9a-zA-Z_\-\.]*):?(\d+)$` after `//`. The host class has
      no colon: with a colon present the host is what precedes it and the
      port all that follows; without one, the greedy host gives back just
      one character, so the port is the final digit alone. */
  function MatchAuthority(a: string): (r: Option<(string, string)>)
    ensures r.Some? ==> AllHostChars(r.value.0) && r.value.1 != [] && AllDigits(r.value.1)
  {
    match FirstColon(a)
    case Some(c) =>
      if AllHostChars(a[..c]) && c + 1 < |a| && AllDigits(a[c + 1..]) then Some((a[..c], a[c + 1..]))
      else None
    case None =>
      if a != [] && AllHostChars(a) && IsDigit(a[|a| - 1]) then Some((a[..|a| - 1], a[|a| - 1..]))
      else None
  }

  /** `options.uri.match(pattern)`: the capture groups, or `None` for `null`. */
  function MatchUri(s: string): (r: Option<UriMatch>)
    ensures r.Some? ==> AllHostChars(r.value.host) && r.value.port != [] && AllDigits(r.value.port)
  {
    match MatchScheme(s)
    case None => None
    case Some(sc) =>
      var rest := s[|SchemeText(sc)| + 1..];
      if !StartsWith(rest, "//") then None
      else match MatchAuthority(rest[2..])
        case None => None
        case Some(hp) => Some(UriMatch(sc, hp.0, hp.1))
  }

  function Pow10(k: nat): (r: nat)
    ensures r >= 1
  {
    if k == 0 then 1 else 10 * Pow10(k - 1)
  }

  /** `parseInt` of a digit string, in base ten: `k` digits give a value
      below ten to the `k`. */
  function DecimalValue(d: string): (r: nat)
    requires AllDigits(d)
    ensures r < Pow10(|d|)
  {
    if d == [] then 0 else 10 * DecimalValue(d[..|d| - 1]) + (d[|d| - 1] as int - '0' as int)
  }

  /** The digit character of a value below ten. */
  function DigitChar(n: nat): (c: char)
    requires n < 10
    ensures IsDigit(c) && c as int - '0' as int == n
  {
    (n + '0' as int) as char
  }

  /** The decimal numeral of `n`, without leading zeros. */
  function DigitsOf(n: nat): (d: string)
    ensures d != [] && AllDigits(d)
  {
    if n < 10 then [DigitChar(n)] else DigitsOf(n / 10) + [DigitChar(n % 10)]
  }

  // ---------------------------------------------------------------------
  // Helper facts about the scheme prefix.

  lemma SchemeTextHasNoColon(sc: Scheme)
    ensures NoColon(SchemeText(sc))
  {
  }

  lemma SchemeTextInjective(a: Scheme, b: Scheme)
    requires SchemeText(a) == SchemeText(b)
    ensures a == b
  {
    match a
    case NoScheme =>
    case Mqtt => assert SchemeText(a)[..] == "mqtt";
    case Mqtts => assert |SchemeText(b)| == 5;
    case Ws => assert |SchemeText(b)| == 2;
    case Wss => assert |SchemeText(b)| == 3 && SchemeText(b)[0] == 'w';
  }

  /** Two colon-free words each followed by a colon cannot both begin `s`
      unless they are the same word. */
  lemma ColonTerminatedPrefixUnique(s: string, t1: string, t2: string)
    requires NoColon(t1) && NoColon(t2)
    requires StartsWith(s, t1 + ":") && StartsWith(s, t2 + ":")
    ensures t1 == t2
  {
    assert s[..|t1|] == t1 && s[|t1|] == ':' by {
      assert (t1 + ":")[..|t1|] == t1;
    }
    assert s[..|t2|] == t2 && s[|t2|] == ':' by {
      assert (t2 + ":")[..|t2|] == t2;
    }
  }

  /** The scheme that a string begins with is the one `MatchScheme` reports. */
  lemma SchemeOfPrefix(s: string, sc: Scheme)
    requires StartsWith(s, SchemeText(sc) + ":")
    ensures MatchScheme(s) == Some(sc)
  {
    var r := MatchScheme(s);
    assert r.Some?;
    SchemeTextHasNoColon(sc);
    SchemeTextHasNoColon(r.value);
    ColonTerminatedPrefixUnique(s, SchemeText(sc), SchemeText(r.value));
    SchemeTextInjective(sc, r.value);
  }

  /** Matching `scheme://a` comes down to matching the authority `a`. */
  lemma MatchUriUnfold(sc: Scheme, a: string)
    ensures MatchUri(SchemeText(sc) + "://" + a)
         == match MatchAuthority(a)
            case None => None
            case Some(hp) => Some(UriMatch(sc, hp.0, hp.1))
  {
    var t := SchemeText(sc);
    var s := t + "://" + a;
    assert s == (t + ":") + ("//" + a);
    assert s[..|t + ":"|] == t + ":";
    SchemeOfPrefix(s, sc);
    var rest := s[|t| + 1..];
    assert rest == "//" + a;
    assert rest[..2] == "//";
    assert rest[2..] == a;
  }

  // ---------------------------------------------------------------------
  // The authority part.

  /** `H:D` yields host H and port D. */
  lemma AuthorityWithColon(h: string, p: string)
    requires AllHostChars(h) && p != [] && AllDigits(p)
    ensures MatchAuthority(h + ":" + p) == Some((h, p))
  {
    var a := h + ":" + p;
    assert a[|h|] == ':';
    assert forall i :: 0 <= i < |h| ==> a[i] == h[i];
    assert a[..|h|] == h;
    assert a[|h| + 1..] == p;
  }

  /** Without a colon the port is the final digit alone. */
  lemma AuthorityWithoutColon(a: string)
    requires a != [] && AllHostChars(a) && IsDigit(a[|a| - 1])
    ensures MatchAuthority(a) == Some((a[..|a| - 1], a[|a| - 1..]))
  {
    assert NoColon(a);
  }

  /** A spelling is a scheme, `://`, and an authority. */
  lemma SpellingSplits(s: string, m: UriMatch, sep: string)
    requires Spells(s, m, sep)
    ensures s == SchemeText(m.scheme) + "://" + (m.host + sep + m.port)
  {
  }

  /** Host characters followed by digits form a colon-free authority ending
      in a digit. */
  lemma HostThenDigits(h: string, p: string)
    requires AllHostChars(h) && p != [] && AllDigits(p)
    ensures var a := h + p; a != [] && AllHostChars(a) && IsDigit(a[|a| - 1])
  {
    var a := h + p;
    assert a[|a| - 1] == p[|p| - 1];
  }

  /** Whatever `MatchAuthority` accepts is host, optional colon, digits. */
  lemma AuthoritySound(a: string)
    requires MatchAuthority(a).Some?
    ensures var hp := MatchAuthority(a).value;
      a == hp.0 + ":" + hp.1 || (a == hp.0 + hp.1 && NoColon(a))
  {
    match FirstColon(a)
    case Some(c) =>
      assert a == a[..c] + ":" + a[c + 1..];
    case None =>
      assert a == a[..|a| - 1] + a[|a| - 1..];
  }

  // ---------------------------------------------------------------------
  // The matcher against the language of the pattern.

  /** A string that begins with `p` is `p` followed by the rest. */
  lemma PrefixSplit(s: string, p: string)
    requires StartsWith(s, p)
    ensures s == p + s[|p|..]
  {
  }

  lemma JoinSlashes(t: string, x: string)
    ensures t + ":" + ("//" + x) == t + "://" + x
  {
    assert t + ":" + ("//" + x) == t + (":" + "//") + x;
  }

  /** A match splits the input into scheme, `://` and an authority that
      `MatchAuthority` accepts. */
  lemma MatchUriParts(s: string)
    requires MatchUri(s).Some?
    ensures var g := MatchUri(s).value; var k := |SchemeText(g.scheme)| + 3;
      k <= |s| && s == SchemeText(g.scheme) + "://" + s[k..] && MatchAuthority(s[k..]) == Some((g.host, g.port))
  {
    var g := MatchUri(s).value;
    var sc := MatchScheme(s).value;
    var t := SchemeText(sc);
    var rest := s[|t| + 1..];
    assert g.scheme == sc && StartsWith(rest, "//") && MatchAuthority(rest[2..]) == Some((g.host, g.port));
    PrefixSplit(s, t + ":");
    PrefixSplit(rest, "//");
    assert rest[2..] == s[|t| + 3..];
    JoinSlashes(t, rest[2..]);
  }

  lemma Reassociate(x: string, h: string, sep: string, p: string)
    ensures x + (h + sep + p) == x + h + sep + p
  {
    assert x + ((h + sep) + p) == (x + (h + sep)) + p;
    assert x + (h + sep) == (x + h) + sep;
  }

  /** A scheme, `://` and an authority that is host, optional colon and
      digits make a spelling. */
  lemma SpellsFromParts(s: string, sc: Scheme, a: string, h: string, p: string)
    requires s == SchemeText(sc) + "://" + a
    requires a == h + ":" + p || a == h + p
    requires AllHostChars(h) && p != [] && AllDigits(p)
    ensures Spells(s, UriMatch(sc, h, p), ":") || Spells(s, UriMatch(sc, h, p), "")
  {
    if a == h + ":" + p {
      Reassociate(SchemeText(sc) + "://", h, ":", p);
    } else {
      assert h + "" + p == a;
      Reassociate(SchemeText(sc) + "://", h, "", p);
    }
  }

  /** Every match is a spelling of the input by the pattern. */
  lemma MatchIsSound(s: string)
    ensures MatchUri(s).Some? ==> Spells(s, MatchUri(s).value, ":") || Spells(s, MatchUri(s).value, "")
  {
    if MatchUri(s).Some? {
      var g := MatchUri(s).value;
      MatchUriParts(s);
      var a := s[|SchemeText(g.scheme)| + 3..];
      AuthoritySound(a);
      SpellsFromParts(s, g.scheme, a, g.host, g.port);
    }
  }

  /** A spelling that uses the colon is matched with exactly its parts. */
  lemma SpelledWithColon(s: string, m: UriMatch)
    requires Spells(s, m, ":")
    ensures MatchUri(s) == Some(m)
  {
    SpellingSplits(s, m, ":");
    MatchUriUnfold(m.scheme, m.host + ":" + m.port);
    AuthorityWithColon(m.host, m.port);
  }

  lemma AuthorityDigits(h: string, p: string)
    requires AllHostChars(h) && p != [] && AllDigits(p)
    ensures var a := h + p; |a| > 0 && MatchAuthority(a) == Some((a[..|a| - 1], a[|a| - 1..]))
  {
    HostThenDigits(h, p);
    AuthorityWithoutColon(h + p);
  }

  /** A spelling without the colon is matched with the last digit as port. */
  lemma SpelledWithoutColon(s: string, m: UriMatch)
    requires Spells(s, m, "")
    ensures var a := m.host + m.port;
      MatchUri(s) == Some(UriMatch(m.scheme, a[..|a| - 1], a[|a| - 1..]))
  {
    var a := m.host + m.port;
    assert s == SchemeText(m.scheme) + "://" + a by {
      assert m.host + "" == m.host;
      Reassociate(SchemeText(m.scheme) + "://", m.host, "", m.port);
    }
    AuthorityDigits(m.host, m.port);
    MatchUriUnfold(m.scheme, a);
  }

  /** Every spelling of the input is found, with the same scheme, and the
      reported host is the longest one possible (greedy backtracking); when
      the spelling uses the colon, the captures are exactly its parts. */
  lemma MatchIsComplete(s: string, m: UriMatch, sep: string)
    requires Spells(s, m, sep)
    ensures MatchUri(s).Some?
    ensures MatchUri(s).value.scheme == m.scheme
    ensures |m.host| <= |MatchUri(s).value.host|
    ensures sep == ":" ==> MatchUri(s) == Some(m)
  {
    if sep == ":" {
      SpelledWithColon(s, m);
    } else {
      SpelledWithoutColon(s, m);
    }
  }

  /** `scheme://H:D` gives host H and port digits D. */
  lemma HostColonPort(sc: Scheme, h: string, p: string)
    requires AllHostChars(h) && p != [] && AllDigits(p)
    ensures MatchUri(SchemeText(sc) + "://" + h + ":" + p) == Some(UriMatch(sc, h, p))
  {
    MatchIsComplete(SchemeText(sc) + "://" + h + ":" + p, UriMatch(sc, h, p), ":");
  }

  /** `scheme://A` with no colon in A gives all of A but its last character
      as host and that last digit as port. */
  lemma HostWithoutColon(sc: Scheme, a: string)
    requires a != [] && AllHostChars(a) && IsDigit(a[|a| - 1])
    ensures MatchUri(SchemeText(sc) + "://" + a) == Some(UriMatch(sc, a[..|a| - 1], a[|a| - 1..]))
  {
    MatchUriUnfold(sc, a);
    AuthorityWithoutColon(a);
  }

  /** The scheme reported is the one the string begins with. */
  lemma MatchedSchemeIsPrefix(s: string, sc: Scheme)
    requires MatchUri(s).Some?
    ensures MatchUri(s).value.scheme == sc <==> StartsWith(s, SchemeText(sc) + ":")
  {
    var r := MatchScheme(s).value;
    if StartsWith(s, SchemeText(sc) + ":") {
      SchemeOfPrefix(s, sc);
    }
  }

  /** A leading zero does not change the value (`parseInt("01883")` is 1883). */
  lemma {:induction false} LeadingZeroIgnored(d: string)
    requires AllDigits(d)
    ensures AllDigits("0" + d) && DecimalValue("0" + d) == DecimalValue(d)
  {
    if d != [] {
      var init := d[..|d| - 1];
      assert ("0" + d)[..|"0" + d| - 1] == "0" + init;
      assert ("0" + d)[|"0" + d| - 1] == d[|d| - 1];
      LeadingZeroIgnored(init);
    } else {
      assert "0" + d == "0";
    }
  }

  /** A single digit is worth its own value. */
  lemma SingleDigitValue(c: char)
    requires IsDigit(c)
    ensures AllDigits([c]) && DecimalValue([c]) == c as int - '0' as int
  {
    assert [c][..0] == [];
  }

  /** Reading back the numeral of `n` gives `n`. */
  lemma {:induction false} DecimalValueOfDigits(n: nat)
    ensures DecimalValue(DigitsOf(n)) == n
  {
    var d := DigitsOf(n);
    if n < 10 {
      assert d[..|d| - 1] == [];
    } else {
      DecimalValueOfDigits(n / 10);
      assert d[..|d| - 1] == DigitsOf(n / 10);
      assert d[|d| - 1] == DigitChar(n % 10);
    }
  }

  /** A numeral that does not start with zero has a positive value. */
  lemma {:induction false} LeadingNonZeroPositive(d: string)
    requires d != [] && AllDigits(d) && d[0] != '0'
    ensures DecimalValue(d) >= 1
  {
    if |d| > 1 {
      var init := d[..|d| - 1];
      assert init[0] == d[0];
      LeadingNonZeroPositive(init);
    } else {
      assert d[..|d| - 1] == [];
    }
  }

  /** A numeral without leading zeros is the numeral of its value, so
      `DigitsOf` and `DecimalValue` are inverse on such numerals. */
  lemma {:induction false} DigitsOfDecimalValue(d: string)
    requires d != [] && AllDigits(d) && (d[0] != '0' || |d| == 1)
    ensures DigitsOf(DecimalValue(d)) == d
  {
    var n := DecimalValue(d);
    var init := d[..|d| - 1];
    var last := d[|d| - 1];
    var digit := last as int - '0' as int;
    assert n == 10 * DecimalValue(init) + digit;
    if |d| == 1 {
      assert init == [];
      assert DigitChar(n) == last;
      assert d == [last];
    } else {
      assert init[0] == d[0];
      LeadingNonZeroPositive(init);
      DigitsOfDecimalValue(init);
      assert n / 10 == DecimalValue(init) && n % 10 == digit;
      assert DigitChar(digit) == last;
      assert d == init + [last];
    }
  }

  /** The example of the greedy trap: a host written without a colon keeps
      the port's leading digits and the port is the single last digit. */
  lemma BrokerWithoutColon()
    ensures MatchUri("mqtt://broker1883") == Some(UriMatch(Mqtt, "broker188", "3"))
  {
    var a := "broker1883";
    assert SchemeText(Mqtt) + "://" + a == "mqtt://broker1883";
    assert a[..|a| - 1] == "broker188";
    assert a[|a| - 1..] == "3";
    assert AllHostChars(a);
    HostWithoutColon(Mqtt, a);
  }

  /** A string that begins with no accepted scheme and colon is refused. */
  lemma WrongSchemeRejected(s: string)
    requires forall sc :: !StartsWith(s, SchemeText(sc) + ":")
    ensures MatchUri(s) == None
  {
  }

  /** A scheme and colon not followed by `//` is refused. */
  lemma MissingSlashesRejected(sc: Scheme, t: string)
    requires !StartsWith(t, "//")
    ensures MatchUri(SchemeText(sc) + ":" + t) == None
  {
    var s := SchemeText(sc) + ":" + t;
    assert s[..|SchemeText(sc) + ":"|] == SchemeText(sc) + ":";
    SchemeOfPrefix(s, sc);
    assert s[|SchemeText(sc)| + 1..] == t;
  }

  /** A spelling ends with the last digit of its port. */
  lemma SpellingEndsInDigit(s: string, m: UriMatch, sep: string)
    requires Spells(s, m, sep)
    ensures s != [] && IsDigit(s[|s| - 1])
  {
    assert s[|s| - 1] == m.port[|m.port| - 1];
  }

  /** Every accepted string ends in a digit: no trailing digits, or any
      character after them, means no match. */
  lemma AcceptedEndsWithDigit(s: string)
    ensures MatchUri(s).Some? ==> s != [] && IsDigit(s[|s| - 1])
  {
    if MatchUri(s).Some? {
      var g := MatchUri(s).value;
      MatchIsSound(s);
      if Spells(s, g, ":") {
        SpellingEndsInDigit(s, g, ":");
      } else {
        SpellingEndsInDigit(s, g, "");
      }
    }
  }

  /** `mqtt://broker:1883`: host `broker`, port digits `1883`. */
  lemma BrokerWithColon()
    ensures MatchUri("mqtt://broker:1883") == Some(UriMatch(Mqtt, "broker", "1883"))
  {
    assert SchemeText(Mqtt) + "://" + "broker" + ":" + "1883" == "mqtt://broker:1883";
    assert AllHostChars("broker") && AllDigits("1883");
    HostColonPort(Mqtt, "broker", "1883");
  }

  lemma DecimalValueOf1883()
    ensures AllDigits("1883") && DecimalValue("1883") == 1883
  {
    assert "1883"[..3] == "188" && "188"[..2] == "18" && "18"[..1] == "1" && "1"[..0] == "";
  }

  /** An empty scheme is accepted: `://h:1` matches with no scheme. */
  lemma EmptySchemeAccepted()
    ensures MatchUri("://h:1") == Some(UriMatch(NoScheme, "h", "1"))
  {
    assert "://h:1" == SchemeText(NoScheme) + "://" + "h" + ":" + "1";
    HostColonPort(NoScheme, "h", "1");
  }
}
