/** Server addresses (src/chain/connect.rs, `parse_backend` and what it is made
    of; src/chain/electrum.rs, `parse`, `certificate_key`; src/chain/mod.rs,
    `canonical_host`): the form an address is kept in, and the two parsers
    that read it. */
module Addresses {
  import opened Wrappers
  import opened Texts

  // ----- what is left to other code --------------------------------------

  /** A host as the URL standard parses it: a domain, or an IP address in its
      canonical spelling. */
  datatype Host = Domain(text: string) | Address(text: string)

  /** The URL standard's host parser; whether a text holds wallet material;
      what an HTTP address is stored as, if it is one. */
  datatype Outside = Outside(parse: string -> Option<Host>, refused: string -> bool, http: string -> Option<string>)

  predicate IsSpace(c: char) {
    var n := c as int;
    9 <= n <= 13 || n in {0x20, 0x85, 0xA0, 0x1680, 0x2028, 0x2029, 0x202F, 0x205F, 0x3000} || 0x2000 <= n <= 0x200A
  }

  ghost predicate Clean(text: string) {
    forall i :: 0 <= i < |text| ==> !IsSpace(text[i]) && text[i] !in {'/', '?', '#', '[', ']'}
  }

  function Literal(host: string): string {
    if ':' in host && host[0] != '[' then "[" + host + "]" else host
  }

  predicate EndsInDot(text: string) { text != "" && text[|text| - 1] == '.' }

  function Undotted(text: string): string { if EndsInDot(text) then text[..|text| - 1] else text }

  /** What is taken of the standard's parser: what it hands out holds nothing
      a host may not, and is read back as it is, less a final dot too. */
  ghost predicate Standard(o: Outside) {
    forall x :: o.parse(x).Some? ==> ReadsBack(o, o.parse(x).value)
  }

  ghost predicate ReadsBack(o: Outside, host: Host) {
    match host
    case Address(a) => Clean(a) && a != "" && !EndsInDot(a) && o.parse(Literal(a)) == Some(Address(a))
    case Domain(d) =>
      && Clean(d) && ':' !in d && o.parse(d) == Some(Domain(d))
      && (EndsInDot(d) && d != "." ==>
            var less := Undotted(d);
            if EndsInDot(less) then o.parse(less).Some? && o.parse(less).value.Domain? ==>
                o.parse(less).value.text == less
            else o.parse(less) == Some(Domain(less)))
  }

  // ----- canonical hosts -------------------------------------------------

  function CanonicalHost(o: Outside, host: string): Option<string> {
    var parsed := o.parse(Literal(host));
    if parsed.None? then None
    else
      var text := if parsed.value.Domain? then Undotted(parsed.value.text) else parsed.value.text;
      if text == "" then None else Some(text)
  }

  /** A canonical host is its own canonical form, unless one of two final dots
      is left on it. */
  lemma {:induction false} Canonical(o: Outside, raw: string, host: string)
    requires Standard(o) && CanonicalHost(o, raw) == Some(host)
    ensures Clean(host) && host != ""
    ensures CanonicalHost(o, host) == Some(host) <==> !EndsInDot(host)
  {
    var parsed := o.parse(Literal(raw)).value;
    assert ReadsBack(o, parsed);
    if o.parse(Literal(host)).Some? {
      assert ReadsBack(o, o.parse(Literal(host)).value);
    }
  }

  // ----- the scanner -----------------------------------------------------

  datatype Refusal =
    | Nothing | Material | NoPort | OpenBracket | ManyColons | NoHost | Space | NoName | NoScheme | NoFlag | NoServer

  datatype Backend =
    | Electrum(url: string, host: string, port: nat, tls: bool, onion: bool)
    | Esplora(url: string)

  datatype HostPort = HostPort(host: string, port: Option<nat>)

  const PLAIN_PORTS := [50001, 60001, 20001, 50003]
  const TLS_PORTS := [50002, 60002, 20002, 50004]

  function Lower(text: string): (lower: string)
    ensures |lower| == |text|
  {
    seq(|text|, i requires 0 <= i < |text| => if 'A' <= text[i] <= 'Z' then (text[i] as int + 32) as char else text[i])
  }

  predicate IsOnion(host: string) {
    var name := Undotted(host);
    |name| >= 6 && Lower(name[|name| - 6..]) == ".onion"
  }

  /** `u16`'s parser: a plus is let through, and leading zeros. */
  function ParsePort(text: string): Option<nat> {
    var digits := if text != "" && text[0] == '+' then text[1..] else text;
    if digits != "" && AllDigits(digits) && Value(digits) <= 65535 then Some(Value(digits)) else None
  }

  function Count(text: string, c: char): nat {
    if text == "" then 0 else (if text[0] == c then 1 else 0) + Count(text[1..], c)
  }

  predicate IsHex(c: char) { IsDigit(c) || 'a' <= c <= 'f' || 'A' <= c <= 'F' }

  predicate IsBareIpv6(text: string) {
    Count(text, ':') > 1 && forall i :: 0 <= i < |text| ==> IsHex(text[i]) || text[i] == ':' || text[i] == '.'
  }

  /** `rsplit_once`. */
  datatype Cut = Cut(before: string, after: string)

  function LastCut(text: string, c: char): Option<Cut> {
    if text == "" then None
    else if text[|text| - 1] == c then Some(Cut(text[..|text| - 1], ""))
    else
      var front := LastCut(text[..|text| - 1], c);
      if front.None? then None else Some(Cut(front.value.before, front.value.after + [text[|text| - 1]]))
  }

  function PortOf(text: string): Result<nat, Refusal> {
    var port := ParsePort(text);
    if port.Some? && port.value > 0 then Ok(port.value) else Err(NoPort)
  }

  function Parts(rest: string): Result<HostPort, Refusal> {
    if rest != "" && rest[0] == '[' then
      var bracketed := rest[1..];
      var tail := After(bracketed, ']');
      if tail.None? then Err(OpenBracket)
      else if tail.value != "" && tail.value[0] == ':' then
        var port := PortOf(tail.value[1..]);
        if port.Err? then Err(port.error) else Ok(HostPort(Before(bracketed, ']'), Some(port.value)))
      else Ok(HostPort(Before(bracketed, ']'), None))
    else
      var cut := LastCut(rest, ':');
      if cut.None? then Ok(HostPort(rest, None))
      else if ':' in cut.value.before then
        if IsBareIpv6(rest) then Ok(HostPort(rest, None)) else Err(ManyColons)
      else
        var port := PortOf(cut.value.after);
        if port.Err? then Err(port.error) else Ok(HostPort(cut.value.before, Some(port.value)))
  }

  function SplitHostPort(o: Outside, rest: string): Result<HostPort, Refusal> {
    var parts := Parts(rest);
    if parts.Err? then parts
    else
      var HostPort(host, port) := parts.value;
      if host == "" then Err(NoHost)
      else if exists i :: 0 <= i < |host| && IsSpace(host[i]) then Err(Space)
      else
        var name := CanonicalHost(o, host);
        if name.None? then Err(NoName) else Ok(HostPort(name.value, port))
  }

  function Url(host: string, port: nat, tls: bool): string {
    (if tls then "ssl" else "tcp") + "://" + (if ':' in host then "[" + host + "]" else host) + ":" + Decimal(port)
  }

  function ElectrumOf(parts: HostPort, tls: bool): Backend {
    var port := if parts.port.Some? then parts.port.value else if tls then 50002 else 50001;
    Electrum(Url(parts.host, port, tls), parts.host, port, tls, IsOnion(parts.host))
  }

  function Started(text: string): string
    decreases |text|
  {
    if text != "" && IsSpace(text[0]) then Started(text[1..]) else text
  }

  function Unended(text: string, slash: bool): string
    decreases |text|
  {
    if text == "" then text
    else
      var last := text[|text| - 1];
      if (if slash then last == '/' else IsSpace(last)) then Unended(text[..|text| - 1], slash) else text
  }

  /** `split_once("://")`. */
  function Scheme(text: string): Option<Cut>
    decreases |text|
  {
    if |text| < 3 then None
    else if text[..3] == "://" then Some(Cut("", text[3..]))
    else
      var rest := Scheme(text[1..]);
      if rest.None? then None else Some(Cut([text[0]] + rest.value.before, rest.value.after))
  }

  function UpTo(text: string, ends: set<char>): string {
    if text == "" || text[0] in ends then "" else [text[0]] + UpTo(text[1..], ends)
  }

  const MATERIAL: seq<string> :=
    ["ur:", "b$", "xpub", "ypub", "zpub", "tpub", "vpub", "upub", "wpkh(", "wsh(", "sh(", "tr(", "pkh(", "bitcoin:",
     "bc1", "tb1", "bcrt1"]

  predicate NamesMaterial(text: string) {
    exists i :: 0 <= i < |MATERIAL| && MATERIAL[i] <= Lower(text)
  }

  function SplitFlag(text: string): Option<Cut> {
    if IsBareIpv6(text) then None
    else
      var cut := LastCut(text, ':');
      if cut.Some? && |cut.value.after| == 1 && 'a' <= Lower(cut.value.after)[0] <= 'z' then cut else None
  }

  function Of(parts: Result<HostPort, Refusal>, tls: bool): Result<Backend, Refusal> {
    if parts.Err? then Err(parts.error) else Ok(ElectrumOf(parts.value, tls))
  }

  function WithScheme(o: Outside, text: string, cut: Cut): Result<Backend, Refusal> {
    var scheme, rest := Lower(cut.before), UpTo(Unended(cut.after, true), {'/', '?', '#'});
    if scheme in {"http", "https"} then
      var url := o.http(text);
      if url.None? then Err(NoName) else Ok(Esplora(url.value))
    else if scheme in {"ssl", "tls", "electrums"} then Of(SplitHostPort(o, rest), true)
    else if scheme in {"tcp", "electrum"} then Of(SplitHostPort(o, rest), false)
    else Err(NoScheme)
  }

  function Bare(o: Outside, text: string): Result<Backend, Refusal> {
    var parts := SplitHostPort(o, text);
    if parts.Err? then Err(parts.error)
    else
      var HostPort(host, port) := parts.value;
      if '.' !in host && ':' !in host && host != "localhost" then Err(NoServer)
      else
        var tls := if port.Some? && port.value in PLAIN_PORTS then false
                   else if port.Some? && port.value in TLS_PORTS then true
                   else !IsOnion(host);
        Ok(ElectrumOf(parts.value, tls))
  }

  /** `parse_backend`. */
  function ParseBackend(o: Outside, given: string): Result<Backend, Refusal> {
    var text := Unended(Started(given), false);
    if text == "" then Err(Nothing)
    else if NamesMaterial(text) || o.refused(text) then Err(Material)
    else
      var cut := Scheme(text);
      if cut.Some? then WithScheme(o, text, cut.value)
      else
        var flag := SplitFlag(text);
        if flag.Some? then
          if Lower(flag.value.after) == "s" then Of(SplitHostPort(o, flag.value.before), true)
          else if Lower(flag.value.after) == "t" then Of(SplitHostPort(o, flag.value.before), false)
          else Err(NoFlag)
        else Bare(o, text)
  }

  // ----- the client ------------------------------------------------------

  /** How a server is reached. */
  datatype Transport = Transport(tls: bool, host: string, port: nat)

  /** `electrum::parse`. */
  function Parse(o: Outside, url: string): Option<Transport> {
    var cut := Scheme(url);
    var scheme := if cut.Some? then Lower(cut.value.before) else "ssl";
    if scheme !in {"ssl", "tls", "tcp"} then None
    else
      var tls := scheme != "tcp";
      var rest := UpTo(if cut.Some? then cut.value.after else url, {'/', '?'});
      var parts := ClientParts(rest, if tls then 50002 else 50001);
      if parts.None? || parts.value.before == "" then None
      else
        var host := CanonicalHost(o, parts.value.before);
        if host.None? then None else Some(Transport(tls, host.value, parts.value.port))
  }

  datatype Reached = Reached(before: string, port: nat)

  function ClientParts(rest: string, otherwise: nat): Option<Reached> {
    if rest != "" && rest[0] == '[' then
      var bracketed := rest[1..];
      var tail := After(bracketed, ']');
      if tail.None? then None
      else if tail.value != "" && tail.value[0] == ':' then
        var port := ParsePort(tail.value[1..]);
        if port.None? then None else Some(Reached(Before(bracketed, ']'), port.value))
      else Some(Reached(Before(bracketed, ']'), otherwise))
    else
      var cut := LastCut(rest, ':');
      if cut.Some? && ':' !in cut.value.before then
        var port := ParsePort(cut.value.after);
        if port.None? then None else Some(Reached(cut.value.before, port.value))
      else Some(Reached(rest, otherwise))
  }

  /** `certificate_key`. */
  function CertificateKey(o: Outside, url: string): string {
    var parsed := Parse(o, url);
    if parsed.None? then url
    else
      var again := CanonicalHost(o, parsed.value.host);
      (if again.Some? then again.value else parsed.value.host) + ":" + Decimal(parsed.value.port)
  }

  // ----- what a kept address is read as ----------------------------------

  lemma {:induction false} ParsePortIs(port: nat)
    requires port <= 65535
    ensures ParsePort(Decimal(port)) == Some(port) && ':' !in Decimal(port)
  {
    DecimalValue(port);
  }

  lemma {:induction false} LastCutAt(before: string, after: string, c: char)
    requires c !in after
    ensures LastCut(before + [c] + after, c) == Some(Cut(before, after))
  {
    var text := before + [c] + after;
    if after == "" {
      assert text[..|text| - 1] == before;
    } else {
      var front := after[..|after| - 1];
      assert forall i :: 0 <= i < |front| ==> front[i] == after[i];
      LastCutAt(before, front, c);
      assert text[..|text| - 1] == before + [c] + front;
      assert after == front + [after[|after| - 1]];
    }
  }

  lemma {:induction false} LastCutIs(text: string, c: char)
    ensures LastCut(text, c).None? <==> c !in text
    ensures LastCut(text, c).Some? ==>
              var cut := LastCut(text, c).value; text == cut.before + [c] + cut.after && c !in cut.after
  {
    if text != "" {
      LastCutIs(text[..|text| - 1], c);
      assert text == text[..|text| - 1] + [text[|text| - 1]];
    }
  }

  lemma {:induction false} SchemeNow(rest: string)
    ensures Scheme("://" + rest) == Some(Cut("", rest))
  {
    assert ("://" + rest)[..3] == "://" && ("://" + rest)[3..] == rest;
  }

  lemma {:induction false} SchemePast(scheme: string, after: string, rest: string)
    requires ':' !in scheme && |after| >= 3 && Scheme(after) == Some(Cut("", rest))
    ensures Scheme(scheme + after) == Some(Cut(scheme, rest))
  {
    hide Scheme;
    if scheme == "" {
      assert scheme + after == after;
    } else {
      SchemePast(scheme[1..], after, rest);
      SchemeOneMore(scheme[0], scheme[1..] + after);
      assert scheme[0] in scheme;
      assert scheme + after == [scheme[0]] + (scheme[1..] + after);
      assert [scheme[0]] + scheme[1..] == scheme;
    }
  }

  lemma {:induction false} SchemeAt(scheme: string, rest: string)
    requires ':' !in scheme
    ensures Scheme(scheme + "://" + rest) == Some(Cut(scheme, rest))
  {
    hide Scheme;
    SchemeNow(rest);
    SchemePast(scheme, "://" + rest, rest);
    assert scheme + "://" + rest == scheme + ("://" + rest);
  }

  lemma {:induction false} SchemeOneMore(c: char, rest: string)
    requires c != ':' && |rest| >= 3
    ensures Scheme([c] + rest) == if Scheme(rest).None? then None
        else Some(Cut([c] + Scheme(rest).value.before, Scheme(rest).value.after))
  {
    assert ([c] + rest)[..3][0] == c && ([c] + rest)[1..] == rest;
  }

  lemma {:induction false} UpToAll(text: string, ends: set<char>)
    requires forall i :: 0 <= i < |text| ==> text[i] !in ends
    ensures UpTo(text, ends) == text
  {
    if text != "" {
      assert forall i :: 0 <= i < |text[1..]| ==> text[1..][i] == text[i + 1];
      UpToAll(text[1..], ends);
    }
  }

  function Shown(host: string): string { if ':' in host then "[" + host + "]" else host }

  lemma {:induction false} CutsBracketed(host: string, digits: string)
    requires ']' !in host
    ensures var rest := "[" + host + "]" + ":" + digits;
            && rest[0] == '[' && Before(rest[1..], ']') == host && After(rest[1..], ']') == Some(":" + digits)
            && (":" + digits)[1..] == digits
  {
    var tail := "]" + ":" + digits;
    assert ("[" + host + "]" + ":" + digits)[1..] == host + tail;
    CutAt(host, tail, ']');
    assert tail[1..] == ":" + digits;
  }

  /** The two parsers cut a kept address at the same place. */
  lemma {:induction false} Cuts(host: string, port: nat, otherwise: nat)
    requires Clean(host) && host != "" && 0 < port <= 65535
    ensures Parts(Shown(host) + ":" + Decimal(port)) == Ok(HostPort(host, Some(port)))
    ensures ClientParts(Shown(host) + ":" + Decimal(port), otherwise) == Some(Reached(host, port))
  {
    hide Decimal, ParsePort, Value, IsSpace, Before, After, LastCut, Count;
    var digits := Decimal(port);
    ParsePortIs(port);
    if ':' in host {
      CutsBracketed(host, digits);
    } else {
      LastCutAt(host, digits, ':');
      assert (host + ":" + digits)[0] == host[0] && host[0] in host;
    }
  }

  lemma {:induction false} DigitsClean(port: nat)
    ensures forall i :: 0 <= i < |Decimal(port)| ==>
        !IsSpace(Decimal(port)[i]) && Decimal(port)[i] !in {'/', '?', '#', '[', ']'}
    ensures Decimal(port) != ""
  {
    DecimalValue(port);
  }

  lemma {:induction false} RestClean(host: string, port: nat, ends: set<char>)
    requires Clean(host) && ends <= {'/', '?', '#'}
    ensures var rest := Shown(host) + ":" + Decimal(port);
            && UpTo(rest, ends) == rest && Unended(rest, true) == rest && Unended(rest, false) == rest
            && rest != ""
  {
    hide Decimal;
    DigitsClean(port);
    UpToAll(Shown(host) + ":" + Decimal(port), ends);
  }

  lemma {:induction false} LowerSame()
    ensures Lower("ssl") == "ssl" && Lower("tcp") == "tcp"
  {
  }

  lemma {:induction false} NoMaterial(rest: string)
    ensures !NamesMaterial("ssl://" + rest) && !NamesMaterial("tcp://" + rest)
  {
    forall i | 0 <= i < |MATERIAL|
      ensures !(MATERIAL[i] <= Lower("ssl://" + rest)) && !(MATERIAL[i] <= Lower("tcp://" + rest))
    {
      assert Lower("ssl://" + rest)[0] == 's' && Lower("ssl://" + rest)[1] == 's';
      assert Lower("tcp://" + rest)[0] == 't' && Lower("tcp://" + rest)[1] == 'c';
      assert |MATERIAL[i]| >= 2 && (MATERIAL[i][0] != 's' || MATERIAL[i][1] != 's') &&
          (MATERIAL[i][0] != 't' || MATERIAL[i][1] != 'c');
    }
  }

  lemma {:induction false} UrlParts(host: string, port: nat, tls: bool)
    ensures var scheme, rest := if tls then "ssl" else "tcp", Shown(host) + ":" + Decimal(port);
            Url(host, port, tls) == scheme + "://" + rest && Scheme(Url(host, port, tls)) == Some(Cut(scheme, rest))
  {
    hide Decimal;
    var scheme, rest := if tls then "ssl" else "tcp", Shown(host) + ":" + Decimal(port);
    assert Url(host, port, tls) == scheme + "://" + rest;
    SchemeAt(scheme, rest);
  }

  lemma {:induction false} LettersNoSpace()
    ensures !IsSpace('s') && !IsSpace('t')
  {
  }

  lemma {:induction false} UrlTrimmed(host: string, port: nat, tls: bool)
    requires Clean(host)
    ensures var url := Url(host, port, tls); Unended(Started(url), false) == url && !NamesMaterial(url) && url != ""
  {
    hide Decimal, Scheme, Url, NamesMaterial, IsSpace, Shown;
    UrlParts(host, port, tls);
    DigitsClean(port);
    NoMaterial(Shown(host) + ":" + Decimal(port));
    var url := Url(host, port, tls);
    assert url == (if tls then "ssl://" else "tcp://") + (Shown(host) + ":" + Decimal(port));
    assert url[|url| - 1] == Decimal(port)[|Decimal(port)| - 1];
    assert !IsSpace('s') && !IsSpace('t') by {
      LettersNoSpace();
    }
  }

  /** Read again, a kept address is read as the canonical form of its host. */
  lemma {:induction false} ScannedAgain(o: Outside, host: string, port: nat, tls: bool)
    requires Clean(host) && host != "" && 0 < port <= 65535 && !o.refused(Url(host, port, tls))
    ensures var again := CanonicalHost(o, host);
            ParseBackend(o, Url(host, port, tls)) ==
            if again.None? then Err(NoName) else Ok(ElectrumOf(HostPort(again.value, Some(port)), tls))
  {
    hide Decimal, Parts, Lower, NamesMaterial, Scheme, UpTo, Unended, Started, Url, CanonicalHost, IsOnion;
    UrlTrimmed(host, port, tls);
    UrlParts(host, port, tls);
    RestClean(host, port, {'/', '?', '#'});
    LowerSame();
    Cuts(host, port, 0);
    NoSpace(host);
  }

  lemma {:induction false} NoSpace(host: string)
    requires Clean(host)
    ensures !exists i :: 0 <= i < |host| && IsSpace(host[i])
  {
  }

  lemma {:induction false} ClientReads(o: Outside, host: string, port: nat, tls: bool)
    requires Clean(host) && host != "" && 0 < port <= 65535
    ensures var again := CanonicalHost(o, host);
            Parse(o, Url(host, port, tls)) == if again.None? then None else Some(Transport(tls, again.value, port))
  {
    hide Decimal, ClientParts, Lower, Scheme, UpTo, Url, CanonicalHost;
    UrlParts(host, port, tls);
    RestClean(host, port, {'/', '?'});
    LowerSame();
    Cuts(host, port, if tls then 50002 else 50001);
  }

  // ----- what the scanner hands out --------------------------------------

  ghost predicate Kept(o: Outside, b: Backend) {
    b.Electrum? ==>
      && (exists raw :: CanonicalHost(o, raw) == Some(b.host))
      && 0 < b.port <= 65535 && b.url == Url(b.host, b.port, b.tls)
  }

  lemma {:induction false} PartsKept(o: Outside, rest: string, tls: bool)
    requires SplitHostPort(o, rest).Ok?
    ensures Kept(o, ElectrumOf(SplitHostPort(o, rest).value, tls))
  {
    hide Decimal, IsOnion, Url, CanonicalHost, Before, After, LastCut, Count;
    var raw := Parts(rest).value.host;
    assert CanonicalHost(o, raw) == Some(SplitHostPort(o, rest).value.host);
  }

  lemma {:induction false} ScannedKept(o: Outside, text: string)
    requires ParseBackend(o, text).Ok?
    ensures Kept(o, ParseBackend(o, text).value)
  {
    hide SplitHostPort, Kept, ElectrumOf, NamesMaterial, Scheme, UpTo, Unended, Started, SplitFlag, Lower, IsOnion;
    var trimmed := Unended(Started(text), false);
    var cut, flag := Scheme(trimmed), SplitFlag(trimmed);
    forall rest: string, tls: bool | SplitHostPort(o, rest).Ok?
      ensures Kept(o, ElectrumOf(SplitHostPort(o, rest).value, tls))
    {
      PartsKept(o, rest, tls);
    }
    EsploraKept(o, trimmed);
  }

  lemma {:induction false} EsploraKept(o: Outside, text: string)
    ensures o.http(text).Some? ==> Kept(o, Esplora(o.http(text).value))
  {
  }

  /** An address the scanner hands out is read again as it is, and by the
      client as the same server, exactly when its host does not end in a dot,
      as one does of which only the last of several final dots was dropped. */
  lemma {:induction false} KeptAddress(o: Outside, text: string)
    requires Standard(o)
    requires ParseBackend(o, text).Ok? && ParseBackend(o, text).value.Electrum?
    requires !o.refused(ParseBackend(o, text).value.url)
    ensures var b := ParseBackend(o, text).value;
            && (ParseBackend(o, b.url) == Ok(b) <==> !EndsInDot(b.host))
            && (Parse(o, b.url) == Some(Transport(b.tls, b.host, b.port)) <==> !EndsInDot(b.host))
            && (!EndsInDot(b.host) ==> CertificateKey(o, b.url) == b.host + ":" + Decimal(b.port))
  {
    hide ParseBackend, Parse, Decimal, Url, CanonicalHost, EndsInDot, Clean, IsOnion, Standard;
    var b := ParseBackend(o, text).value;
    ScannedKept(o, text);
    var raw: string :| CanonicalHost(o, raw) == Some(b.host);
    Canonical(o, raw, b.host);
    ScannedAgain(o, b.host, b.port, b.tls);
    ClientReads(o, b.host, b.port, b.tls);
    ElectrumKept(o, text);
  }

  lemma {:induction false} ElectrumKept(o: Outside, text: string)
    requires ParseBackend(o, text).Ok? && ParseBackend(o, text).value.Electrum?
    ensures var b := ParseBackend(o, text).value; b == ElectrumOf(HostPort(b.host, Some(b.port)), b.tls)
  {
  }

  /** The host a key is made of: the canonical form again, if there is one. */
  function KeyHost(o: Outside, host: string): string {
    var again := CanonicalHost(o, host);
    if again.Some? then again.value else host
  }

  /** Two addresses share a certificate key exactly when they are read as the
      same port, and hosts that come to the same by reading them once more;
      which is the same host but for a final dot left on either. */
  lemma {:induction false} KeysApart(o: Outside, one: string, two: string)
    requires Standard(o) && Parse(o, one).Some? && Parse(o, two).Some?
    ensures var a, b := Parse(o, one).value, Parse(o, two).value;
            && (CertificateKey(o, one) == CertificateKey(o, two) <==>
                KeyHost(o, a.host) == KeyHost(o, b.host) && a.port == b.port)
            && (KeyHost(o, a.host) == a.host <==> !EndsInDot(a.host) || CanonicalHost(o, a.host).None?)
  {
    hide Parse, CanonicalHost, Decimal, EndsInDot, Standard;
    var a, b := Parse(o, one).value, Parse(o, two).value;
    ParsedCanonical(o, one);
    DecimalValue(a.port);
    DecimalValue(b.port);
    DigitsNoColon(a.port);
    DigitsNoColon(b.port);
    LastCutAt(KeyHost(o, a.host), Decimal(a.port), ':');
    LastCutAt(KeyHost(o, b.host), Decimal(b.port), ':');
  }

  lemma {:induction false} DigitsNoColon(port: nat)
    ensures ':' !in Decimal(port)
  {
    DecimalValue(port);
  }

  lemma {:induction false} ParsedCanonical(o: Outside, url: string)
    requires Standard(o) && Parse(o, url).Some?
    ensures var host := Parse(o, url).value.host;
            CanonicalHost(o, host) == Some(host) <==> !EndsInDot(host)
  {
    hide Scheme, Lower, UpTo, CanonicalHost, EndsInDot, Standard;
    var cut := Scheme(url);
    var scheme := if cut.Some? then Lower(cut.value.before) else "ssl";
    var rest := UpTo(if cut.Some? then cut.value.after else url, {'/', '?'});
    var parts := ClientParts(rest, if scheme != "tcp" then 50002 else 50001);
    Canonical(o, parts.value.before, Parse(o, url).value.host);
  }

  /** A host parser that knows one name, with and without final dots. */
  function OneName(): Outside {
    Outside(x => if x in {"node", "node.", "node.."} then Some(Domain(x)) else None, x => false, x => None)
  }

  lemma {:induction false} OneNameUndotted()
    ensures EndsInDot("node..") && Undotted("node..") == "node."
    ensures EndsInDot("node.") && Undotted("node.") == "node"
    ensures !EndsInDot("node") && Undotted("node") == "node"
    ensures Literal("node..") == "node.." && Literal("node.") == "node." && Literal("node") == "node"
    ensures "node." != "." && "node.." != "." && "node" != "" && "node." != ""
  {
    assert "node.."[..5] == "node." && "node."[..4] == "node";
  }

  lemma {:induction false} OneNameClean()
    ensures Clean("node..") && Clean("node.") && Clean("node")
    ensures ':' !in "node.." && ':' !in "node." && ':' !in "node"
  {
  }

  lemma {:induction false} OneNameStandard()
    ensures Standard(OneName())
    ensures CanonicalHost(OneName(), "node..") == Some("node.")
    ensures CanonicalHost(OneName(), "node.") == Some("node") == CanonicalHost(OneName(), "node")
  {
    hide Clean, EndsInDot, Undotted, Literal;
    OneNameUndotted();
    OneNameClean();
  }

  /** A host typed with two final dots keeps one: the address handed out is
      read again as another, by the scanner and the client, and shares its key
      with it. */
  lemma {:induction false} DotKept()
    ensures var o := OneName();
            var b := ElectrumOf(HostPort("node.", Some(50002)), true);
            && Standard(o) && ParseBackend(o, Url("node..", 50002, true)) == Ok(b) && EndsInDot(b.host)
            && ParseBackend(o, b.url) == Ok(ElectrumOf(HostPort("node", Some(50002)), true))
            && Parse(o, Url("node..", 50002, true)) == Some(Transport(true, "node.", 50002))
            && Parse(o, b.url) == Some(Transport(true, "node", 50002))
            && CertificateKey(o, Url("node..", 50002, true)) == CertificateKey(o, b.url)
  {
    hide ParseBackend, Parse, Url, Decimal, IsOnion, CanonicalHost, Standard, EndsInDot, Clean;
    var o := OneName();
    OneNameStandard();
    OneNameUndotted();
    OneNameClean();
    ScannedAgain(o, "node..", 50002, true);
    ScannedAgain(o, "node.", 50002, true);
    ClientReads(o, "node..", 50002, true);
    ClientReads(o, "node.", 50002, true);
  }

  // ----- the form an address is stored in --------------------------------

  /** What `stored_form` has the scanner read of an Electrum address. */
  function Typed(url: string): string {
    var text := Unended(Started(url), false);
    if Scheme(text).Some? || SplitFlag(text).Some? then text
    else if IsBareIpv6(text) then "ssl://[" + text + "]"
    else "ssl://" + text
  }

  /** `stored_form`, of an Electrum address. */
  function StoredForm(o: Outside, url: string): Result<string, Refusal> {
    var scanned := ParseBackend(o, Typed(url));
    if scanned.Err? then Err(scanned.error)
    else if scanned.value.Esplora? then Err(NoScheme)
    else Ok(scanned.value.url)
  }

  lemma {:induction false} TypedUrl(host: string, port: nat, tls: bool)
    requires Clean(host)
    ensures Typed(Url(host, port, tls)) == Url(host, port, tls)
  {
    hide Decimal, Url, Scheme, Unended, Started, SplitFlag, NamesMaterial;
    UrlTrimmed(host, port, tls);
    UrlParts(host, port, tls);
  }

  lemma {:induction false} UrlsApart(one: string, two: string, port: nat, tls: bool)
    requires Clean(one) && Clean(two) && one != "" && two != "" && 0 < port <= 65535
    requires Url(one, port, tls) == Url(two, port, tls)
    ensures one == two
  {
    hide Decimal, Url, Parts, ClientParts, Shown;
    UrlParts(one, port, tls);
    UrlParts(two, port, tls);
    Cuts(one, port, 0);
    Cuts(two, port, 0);
  }

  /** An address stored comes back byte for byte when it is stored again,
      unless its host was left a final dot. */
  lemma {:induction false} StoredOnce(o: Outside, url: string)
    requires Standard(o) && StoredForm(o, url).Ok? && !o.refused(StoredForm(o, url).value)
    ensures var b := ParseBackend(o, Typed(url)).value;
            StoredForm(o, StoredForm(o, url).value) == Ok(StoredForm(o, url).value) <==> !EndsInDot(b.host)
  {
    hide ParseBackend, Decimal, Url, CanonicalHost, EndsInDot, Clean, IsOnion, Standard, Typed;
    var b := ParseBackend(o, Typed(url)).value;
    ScannedKept(o, Typed(url));
    var raw: string :| CanonicalHost(o, raw) == Some(b.host);
    Canonical(o, raw, b.host);
    ScannedAgain(o, b.host, b.port, b.tls);
    TypedUrl(b.host, b.port, b.tls);
    var again := CanonicalHost(o, b.host);
    if again.Some? {
      Canonical(o, b.host, again.value);
      if Url(again.value, b.port, b.tls) == b.url {
        UrlsApart(again.value, b.host, b.port, b.tls);
      }
    }
  }
}
