/** Server addresses as they are typed (src/chain/connect.rs, `parse_backend`,
    `stored_form`; src/chain/electrum.rs, `parse`): what each form is read as,
    and what is refused. */
module TypedAddresses {
  import opened Wrappers
  import opened Texts
  import opened Addresses

  // ----- what is typed ---------------------------------------------------

  /** A host, in brackets if it is IPv6, and its port if one is typed. */
  function Written(host: string, port: Option<nat>): string {
    Shown(host) + if port.None? then "" else ":" + Decimal(port.value)
  }

  /** What a host, a port and a transport come to: the canonical host, and the
      port of the transport where none was typed. */
  function ReadAs(o: Outside, host: string, port: Option<nat>, tls: bool): Result<Backend, Refusal> {
    var name := CanonicalHost(o, host);
    if name.None? then Err(NoName)
    else
      var number := if port.Some? then port.value else if tls then 50002 else 50001;
      Ok(Electrum((if tls then "ssl://" else "tcp://") + Shown(name.value) + ":" + Decimal(number), name.value, number,
                  tls, IsOnion(name.value)))
  }

  ghost predicate Typable(host: string, port: Option<nat>) {
    Clean(host) && host != "" && (port.Some? ==> 0 < port.value <= 65535)
  }

  /** Read once past what it starts with, and past the tests for material. */
  ghost predicate Passed(o: Outside, text: string) { !NamesMaterial(text) && !o.refused(text) }

  lemma {:induction false} OnionIs(host: string)
    ensures IsOnion(host) <==>
              exists name: string :: Lower(host) == name + ".onion" || Lower(host) == name + ".onion."
  {
    var name := Undotted(host);
    if IsOnion(host) {
      var front := Lower(name[..|name| - 6]);
      assert name == name[..|name| - 6] + name[|name| - 6..];
      assert Lower(name) == front + ".onion";
      assert host == name || host == name + ".";
      assert Lower(name + ".") == Lower(name) + ".";
      assert Lower(host) == front + ".onion" || Lower(host) == front + ".onion" + ".";
      assert front + ".onion" + "." == front + ".onion.";
    }
    if front: string :| Lower(host) == front + ".onion" || Lower(host) == front + ".onion." {
      OnionEnds(host, front);
    }
  }

  lemma {:induction false} OnionEnds(host: string, front: string)
    requires Lower(host) == front + ".onion" || Lower(host) == front + ".onion."
    ensures IsOnion(host)
  {
    var n, name := |front|, Undotted(host);
    assert Lower(host)[n..n + 6] == ".onion";
    assert Lower(host)[|host| - 1] == (if |host| == n + 6 then 'n' else '.');
    assert name == host[..n + 6];
    assert Lower(name[n..]) == Lower(host)[n..n + 6];
  }

  lemma {:induction false} BracketsAlone(host: string)
    requires ']' !in host
    ensures var rest := "[" + host + "]";
            rest[0] == '[' && Before(rest[1..], ']') == host && After(rest[1..], ']') == Some("")
  {
    hide Before, After;
    assert ("[" + host + "]")[1..] == host + "]";
    CutAt(host, "]", ']');
    assert "]"[1..] == "";
  }

  lemma {:induction false} PartsWritten(host: string, port: Option<nat>)
    requires Typable(host, port)
    ensures Parts(Written(host, port)) == Ok(HostPort(host, port))
  {
    hide Decimal, ParsePort, Value, IsSpace, Count, IsBareIpv6, Before, After, LastCut, Parts;
    if port.Some? {
      Cuts(host, port.value, 0);
      assert Written(host, port) == Shown(host) + ":" + Decimal(port.value);
    } else {
      assert Written(host, port) == Shown(host);
      PartsAlone(host);
    }
  }

  lemma {:induction false} PartsAlone(host: string)
    requires Clean(host) && host != ""
    ensures Parts(Shown(host)) == Ok(HostPort(host, None))
    ensures forall otherwise: nat :: ClientParts(Shown(host), otherwise) == Some(Reached(host, otherwise))
  {
    hide IsSpace, Count, IsBareIpv6, Before, After, LastCut;
    if ':' in host {
      BracketsAlone(host);
    } else {
      LastCutIs(host, ':');
      assert host[0] in host;
    }
  }

  lemma {:induction false} UrlIs(host: string, port: nat, tls: bool)
    ensures Url(host, port, tls) == (if tls then "ssl://" else "tcp://") + Shown(host) + ":" + Decimal(port)
  {
    hide Decimal;
    assert (if tls then "ssl" else "tcp") + "://" == if tls then "ssl://" else "tcp://";
  }

  lemma {:induction false} ElectrumIs(o: Outside, host: string, port: Option<nat>, tls: bool)
    ensures ReadAs(o, host, port, tls) ==
            if CanonicalHost(o, host).None? then Err(NoName)
            else Ok(ElectrumOf(HostPort(CanonicalHost(o, host).value, port), tls))
  {
    hide Decimal, CanonicalHost, IsOnion, Url, Shown;
    if CanonicalHost(o, host).Some? {
      UrlIs(CanonicalHost(o, host).value, if port.Some? then port.value else if tls then 50002 else 50001, tls);
    }
  }

  lemma {:induction false} SplitWritten(o: Outside, host: string, port: Option<nat>, tls: bool)
    requires Typable(host, port)
    ensures Of(SplitHostPort(o, Written(host, port)), tls) == ReadAs(o, host, port, tls)
    ensures SplitHostPort(o, Written(host, port)) ==
            if CanonicalHost(o, host).None? then Err(NoName) else Ok(HostPort(CanonicalHost(o, host).value, port))
  {
    hide Decimal, Parts, IsSpace, CanonicalHost, ElectrumOf, ReadAs, Written;
    PartsWritten(host, port);
    NoSpace(host);
    ElectrumIs(o, host, port, tls);
  }

  lemma {:induction false} NoScheme3(text: string)
    requires '/' !in text
    ensures Scheme(text).None?
    decreases |text|
  {
    if |text| >= 3 {
      assert text[..3][1] == text[1];
      NoScheme3(text[1..]);
    }
  }

  /** What is written is as it is typed, with nothing to take off either end. */
  lemma {:induction false} WrittenClean(host: string, port: Option<nat>)
    requires Typable(host, port)
    ensures var text := Written(host, port);
            && text != "" && '/' !in text && '?' !in text && '#' !in text
            && forall i :: 0 <= i < |text| ==> !IsSpace(text[i])
  {
    hide Decimal;
    if port.Some? {
      DigitsClean(port.value);
    }
  }

  lemma {:induction false} Untrimmed(text: string)
    requires text != "" && forall i :: 0 <= i < |text| ==> !IsSpace(text[i])
    ensures Unended(Started(text), false) == text
  {
  }

  lemma {:induction false} NoColonCount(text: string)
    requires ':' !in text
    ensures Count(text, ':') == 0
  {
    if text != "" {
      NoColonCount(text[1..]);
    }
  }

  /** An address flagged: `s` for TLS, `t` for plain TCP, in either case. */
  lemma {:induction false} FlagReads(o: Outside, host: string, port: Option<nat>, flag: char)
    requires Typable(host, port) && flag in {'s', 'S', 't', 'T'}
    requires Passed(o, Written(host, port) + ":" + [flag])
    ensures ParseBackend(o, Written(host, port) + ":" + [flag]) == ReadAs(o, host, port, flag in {'s', 'S'})
  {
    hide Decimal, Parts, IsSpace, CanonicalHost, IsOnion, Written, SplitHostPort, NamesMaterial, Scheme, ReadAs, Of,
        Started, Unended;
    var head := Written(host, port);
    var text := head + ":" + [flag];
    WrittenClean(host, port);
    FlagNoSpace(flag);
    Untrimmed(text);
    NoScheme3(text);
    LastCutAt(head, [flag], ':');
    SplitWritten(o, host, port, flag in {'s', 'S'});
    assert text[|text| - 1] == flag;
    FlagLower(flag);
  }

  lemma {:induction false} FlagNoSpace(flag: char)
    requires flag in {'s', 'S', 't', 'T'}
    ensures !IsSpace(flag) && !IsSpace(':') && !IsHex(flag) && flag != ':' && flag != '.'
  {
  }

  lemma {:induction false} FlagLower(flag: char)
    requires flag in {'s', 'S', 't', 'T'}
    ensures Lower([flag]) == if flag in {'s', 'S'} then "s" else "t"
  {
  }

  /** What says the transport when nothing typed does: the port if it is a usual
      one, and else whether the host is an onion. */
  function Guessed(name: string, port: Option<nat>): bool {
    if port.Some? && port.value in {50001, 60001, 20001, 50003} then false
    else if port.Some? && port.value in {50002, 60002, 20002, 50004} then true
    else !IsOnion(name)
  }

  lemma {:induction false} GuessedIs(o: Outside, text: string, host: string, port: Option<nat>)
    requires SplitHostPort(o, text) ==
             if CanonicalHost(o, host).None? then Err(NoName) else Ok(HostPort(CanonicalHost(o, host).value, port))
    ensures Bare(o, text) == BareAs(o, host, port)
  {
    hide Decimal, CanonicalHost, IsOnion, SplitHostPort, ElectrumOf, ReadAs;
    if CanonicalHost(o, host).Some? {
      ElectrumIs(o, host, port, Guessed(CanonicalHost(o, host).value, port));
    }
  }

  /** A host is a server's if it has a dot or a colon in it, or is this one. */
  function BareAs(o: Outside, host: string, port: Option<nat>): Result<Backend, Refusal> {
    var name := CanonicalHost(o, host);
    if name.None? then Err(NoName)
    else if '.' in name.value || ':' in name.value || name.value == "localhost" then
      ReadAs(o, host, port, Guessed(name.value, port))
    else Err(NoServer)
  }

  /** An address with neither scheme nor flag. */
  lemma {:induction false} BareReads(o: Outside, host: string, port: Option<nat>)
    requires Typable(host, port) && Passed(o, Written(host, port))
    ensures ParseBackend(o, Written(host, port)) == BareAs(o, host, port)
  {
    hide Decimal, Parts, IsSpace, CanonicalHost, IsOnion, SplitHostPort, NamesMaterial, Scheme, BareAs, Bare, Started,
        Unended, SplitFlag, Written;
    var text := Written(host, port);
    WrittenClean(host, port);
    Untrimmed(text);
    NoScheme3(text);
    SplitWritten(o, host, port, true);
    GuessedIs(o, text, host, port);
    WrittenUnflagged(host, port);
  }

  lemma {:induction false} WrittenUnflagged(host: string, port: Option<nat>)
    requires Typable(host, port)
    ensures SplitFlag(Written(host, port)).None?
  {
    hide Decimal, IsSpace, IsBareIpv6, LastCut, Lower;
    var text := Written(host, port);
    LastCutIs(text, ':');
    if port.Some? {
      DigitsNoColon(port.value);
      LastCutAt(Shown(host), Decimal(port.value), ':');
      DecimalValue(port.value);
      assert text == Shown(host) + [':'] + Decimal(port.value);
      OneDigit(Decimal(port.value));
    } else if ':' in host {
      assert text[|text| - 1] == ']';
      Bracketed(LastCut(text, ':').value.after);
    }
  }

  lemma {:induction false} Bracketed(text: string)
    ensures |text| == 1 && text[|text| - 1] == ']' ==> !('a' <= Lower(text)[0] <= 'z')
  {
  }

  lemma {:induction false} OneDigit(text: string)
    requires AllDigits(text)
    ensures |text| == 1 ==> !('a' <= Lower(text)[0] <= 'z')
  {
  }

  /** And a bare IPv6 address, whose colons are no port's. */
  lemma {:induction false} Ipv6Reads(o: Outside, host: string)
    requires Clean(host) && IsBareIpv6(host) && Passed(o, host)
    ensures ParseBackend(o, host) == BareAs(o, host, None)
  {
    hide Decimal, IsSpace, CanonicalHost, IsOnion, NamesMaterial, Scheme, BareAs, Bare, Started, Unended;
    Untrimmed(host);
    NoScheme3(host);
    Ipv6Parts(host);
    NoSpace(host);
    GuessedIs(o, host, host, None);
  }

  lemma {:induction false} Ipv6Parts(host: string)
    requires Clean(host) && IsBareIpv6(host)
    ensures host != "" && Parts(host) == Ok(HostPort(host, None))
  {
    hide IsSpace, IsHex;
    LastCutIs(host, ':');
    if ':' !in host {
      NoColonCount(host);
    } else {
      var cut := LastCut(host, ':').value;
      if ':' !in cut.before {
        OneColon(cut.before, cut.after);
      }
    }
  }

  lemma {:induction false} OneColon(before: string, after: string)
    requires ':' !in before && ':' !in after
    ensures Count(before + [':'] + after, ':') == 1
  {
    var text := before + [':'] + after;
    if before == "" {
      assert text[1..] == after;
      NoColonCount(after);
    } else {
      assert text[1..] == before[1..] + [':'] + after;
      OneColon(before[1..], after);
    }
  }

  /** What may follow a host and port, and is dropped. */
  ghost predicate Path(path: string, starts: set<char>) { path == "" || path[0] in starts }

  /** An address with a scheme, in either case, which says the transport whatever
      the port; what follows the port makes no difference. */
  lemma {:induction false} SchemeReads(o: Outside, scheme: string, host: string, port: Option<nat>, path: string)
    requires Typable(host, port) && Lower(scheme) in {"ssl", "tls", "electrums", "tcp", "electrum"}
    requires Path(path, {'/', '?', '#'}) && (path != "" ==> !IsSpace(path[|path| - 1]))
    requires Passed(o, scheme + "://" + (Written(host, port) + path))
    ensures ParseBackend(o, scheme + "://" + (Written(host, port) + path)) ==
            ReadAs(o, host, port, Lower(scheme) in {"ssl", "tls", "electrums"})
  {
    hide Decimal, Parts, IsSpace, CanonicalHost, IsOnion, Written, SplitHostPort, NamesMaterial, Scheme, ReadAs, Of,
        Started, Unended, UpTo, Lower;
    var head := Written(host, port);
    var text := scheme + "://" + (head + path);
    WrittenClean(host, port);
    SchemeLetters(scheme);
    assert text[0] == scheme[0] && text[|text| - 1] == (if path == "" then head[|head| - 1] else path[|path| - 1]);
    Padded("", text, "");
    assert "" + text + "" == text;
    SchemeAt(scheme, head + path);
    var rest := SlashesOff(head, path);
    UpToPath(head, rest, {'/', '?', '#'});
    SplitWritten(o, host, port, Lower(scheme) in {"ssl", "tls", "electrums"});
  }

  /** One of no server Electrum has is refused, or an Esplora server's, read as
      HTTP addresses are. */
  lemma {:induction false} SchemeElse(o: Outside, scheme: string, rest: string)
    requires ':' !in scheme && Lower(scheme) !in {"ssl", "tls", "electrums", "tcp", "electrum"}
    requires var text := scheme + "://" + rest;
             !IsSpace(text[0]) && !IsSpace(text[|text| - 1]) && Passed(o, text)
    ensures var text := scheme + "://" + rest;
            ParseBackend(o, text) ==
            if Lower(scheme) !in {"http", "https"} then Err(NoScheme)
            else if o.http(text).Some? then Ok(Esplora(o.http(text).value)) else Err(NoName)
  {
    hide IsSpace, Scheme, Lower, NamesMaterial, Started, Unended, UpTo, SplitHostPort;
    var text := scheme + "://" + rest;
    Padded("", text, "");
    assert "" + text + "" == text;
    SchemeAt(scheme, rest);
  }

  lemma {:induction false} SchemeLetters(scheme: string)
    requires Lower(scheme) in {"ssl", "tls", "electrums", "tcp", "electrum"}
    ensures ':' !in scheme && scheme != "" && !IsSpace(scheme[0])
  {
    hide IsSpace;
    forall i | 0 <= i < |scheme| ensures scheme[i] != ':' {
      assert Lower(scheme)[i] != ':';
    }
    assert Lower(scheme)[0] in {'s', 't', 'e'};
    LetterNoSpace(scheme[0]);
  }

  lemma {:induction false} LetterNoSpace(c: char)
    ensures Lower([c])[0] in {'s', 't', 'e'} ==> !IsSpace(c)
  {
  }

  lemma {:induction false} SlashesOff(head: string, path: string) returns (rest: string)
    requires head != "" && head[|head| - 1] != '/'
    ensures Unended(head + path, true) == head + rest && rest <= path
  {
    if path == "" {
      rest := "";
      assert head + path == head && head + rest == head;
    } else if path[|path| - 1] == '/' {
      var front := path[..|path| - 1];
      assert (head + path)[..|head + path| - 1] == head + front;
      rest := SlashesOff(head, front);
    } else {
      rest := path;
    }
  }

  lemma {:induction false} UpToPath(head: string, path: string, ends: set<char>)
    requires Path(path, ends) && forall i :: 0 <= i < |head| ==> head[i] !in ends
    ensures UpTo(head + path, ends) == head
  {
    if head == "" {
      assert head + path == path;
    } else {
      assert (head + path)[1..] == head[1..] + path;
      UpToPath(head[1..], path, ends);
    }
  }

  /** How the client reaches what it reads so. */
  function ReachedAs(o: Outside, host: string, port: Option<nat>, tls: bool): Option<Transport> {
    var name := CanonicalHost(o, host);
    if name.None? then None
    else Some(Transport(tls, name.value, if port.Some? then port.value else if tls then 50002 else 50001))
  }

  lemma {:induction false} ClientWritten(host: string, port: Option<nat>, otherwise: nat)
    requires Typable(host, port)
    ensures ClientParts(Written(host, port), otherwise)
            == Some(Reached(host, if port.Some? then port.value else otherwise))
  {
    hide Decimal, IsSpace, ClientParts;
    if port.Some? {
      Cuts(host, port.value, otherwise);
      assert Written(host, port) == Shown(host) + ":" + Decimal(port.value);
    } else {
      assert Written(host, port) == Shown(host);
      PartsAlone(host);
    }
  }

  /** The client reads a scheme as the scanner does, but for those it is never
      handed, and an address without one as TLS. */
  lemma {:induction false} ClientScheme(o: Outside, scheme: string, host: string, port: Option<nat>, path: string)
    requires Typable(host, port) && Path(path, {'/', '?'}) && ':' !in scheme
    ensures Parse(o, scheme + "://" + (Written(host, port) + path)) ==
            if Lower(scheme) in {"ssl", "tls", "tcp"} then ReachedAs(o, host, port, Lower(scheme) != "tcp") else None
  {
    hide Decimal, IsSpace, CanonicalHost, Written, Scheme, UpTo, Lower, ClientParts;
    var head := Written(host, port);
    WrittenClean(host, port);
    SchemeAt(scheme, head + path);
    UpToPath(head, path, {'/', '?'});
    ClientWritten(host, port, if Lower(scheme) != "tcp" then 50002 else 50001);
  }

  lemma {:induction false} ClientBare(o: Outside, host: string, port: Option<nat>)
    requires Typable(host, port)
    ensures Parse(o, Written(host, port)) == ReachedAs(o, host, port, true)
  {
    hide Decimal, IsSpace, CanonicalHost, Written, Scheme, UpTo, ClientParts;
    var head := Written(host, port);
    WrittenClean(host, port);
    NoScheme3(head);
    UpToAll(head, {'/', '?'});
    ClientWritten(host, port, 50002);
  }

  // ----- what is refused, and what makes no difference -------------------

  /** Hexadecimal digits, colons and dots, two colons at least. */
  lemma {:induction false} BareIpv6Is(text: string)
    ensures IsBareIpv6(text) <==>
              && (exists i, j :: 0 <= i < j < |text| && text[i] == text[j] == ':')
              && forall i :: 0 <= i < |text| ==>
                   var n := text[i] as int;
                   n == 46 || 48 <= n <= 58 || 65 <= n <= 70 || 97 <= n <= 102
  {
    hide Count;
    CountTwo(text);
    forall i | 0 <= i < |text|
      ensures IsHex(text[i]) || text[i] == ':' || text[i] == '.' <==>
              var n := text[i] as int; n == 46 || 48 <= n <= 58 || 65 <= n <= 70 || 97 <= n <= 102
    {
    }
  }

  lemma {:induction false} CountTwo(text: string)
    ensures Count(text, ':') > 0 <==> ':' in text
    ensures Count(text, ':') > 1 <==> exists i, j :: 0 <= i < j < |text| && text[i] == text[j] == ':'
  {
    if text != "" {
      var rest := text[1..];
      CountTwo(rest);
      if i, j :| 0 <= i < j < |rest| && rest[i] == rest[j] == ':' {
        assert text[i + 1] == text[j + 1] == ':';
      }
      if text[0] == ':' && ':' in rest {
        var j :| 0 <= j < |rest| && rest[j] == ':';
        assert text[0] == text[j + 1] == ':';
      }
      if i, j :| 0 <= i < j < |text| && text[i] == text[j] == ':' {
        assert rest[j - 1] == ':' && (i > 0 ==> rest[i - 1] == ':');
      }
    }
  }

  /** An IPv6 host is one with or without its brackets. */
  lemma {:induction false} BracketsSame(o: Outside, host: string)
    requires ':' in host && host[0] != '['
    ensures CanonicalHost(o, "[" + host + "]") == CanonicalHost(o, host)
  {
    assert ("[" + host + "]")[0] == '[';
  }

  /** Digits, after a plus or not, that make a port. */
  ghost predicate IsPort(text: string) {
    exists plus, digits :: text == plus + digits && plus in {"", "+"} && digits != "" && AllDigits(digits) &&
                           0 < Value(digits) <= 65535
  }

  lemma {:induction false} PortIs(text: string)
    ensures PortOf(text).Ok? <==> IsPort(text)
    ensures PortOf(text).Err? ==> PortOf(text).error == NoPort
  {
    var plus, digits := if text != "" && text[0] == '+' then "+" else "",
      if text != "" && text[0] == '+' then text[1..] else text;
    assert text == plus + digits;
    if PortOf(text).Ok? {
      assert AllDigits(digits) && 0 < Value(digits) <= 65535;
    }
    if p, d :| text == p + d && p in {"", "+"} && d != "" && AllDigits(d) && 0 < Value(d) <= 65535 {
      assert d[0] != '+';
      if p == "+" {
        assert text[0] == '+' && text[1..] == d;
      } else {
        assert text == d;
      }
    }
  }

  /** What is typed as the port: after the bracket that closes, or the only
      colon. */
  function PortTyped(rest: string): Option<string> {
    if rest != "" && rest[0] == '[' then
      var tail := After(rest[1..], ']');
      if tail.Some? && tail.value != "" && tail.value[0] == ':' then Some(tail.value[1..]) else None
    else if Count(rest, ':') == 1 then After(rest, ':') else None
  }

  /** Why a host and port are refused before the host is read. */
  lemma {:induction false} PartsRefused(rest: string)
    ensures var bracketed := rest != "" && rest[0] == '[';
            && (Parts(rest) == Err(OpenBracket) <==> bracketed && ']' !in rest[1..])
            && (Parts(rest) == Err(ManyColons) <==> !bracketed && Count(rest, ':') > 1 && !IsBareIpv6(rest))
            && (Parts(rest) == Err(NoPort) <==> PortTyped(rest).Some? && !IsPort(PortTyped(rest).value))
            && (Parts(rest).Err? ==> Parts(rest).error in {OpenBracket, ManyColons, NoPort})
  {
    hide IsBareIpv6, IsPort, PortOf, Count, LastCut, After, Before;
    if rest != "" && rest[0] == '[' {
      CutOnce(rest[1..], ']');
      PortTypedIs(rest);
    } else {
      LastCutIs(rest, ':');
      CountTwo(rest);
      PortTypedIs(rest);
      if ':' in rest {
        ColonsCut(rest);
      }
    }
  }

  lemma {:induction false} PortTypedIs(rest: string)
    ensures PortTyped(rest).Some? ==>
              (PortOf(PortTyped(rest).value).Ok? <==> IsPort(PortTyped(rest).value))
              && (PortOf(PortTyped(rest).value).Err? ==> PortOf(PortTyped(rest).value).error == NoPort)
  {
    hide PortOf, IsPort, PortTyped;
    if PortTyped(rest).Some? {
      PortIs(PortTyped(rest).value);
    }
  }

  /** The last colon is the only one if none is before it. */
  lemma {:induction false} ColonsCut(rest: string)
    requires ':' in rest
    ensures LastCut(rest, ':').Some?
    ensures var cut := LastCut(rest, ':').value;
            && (':' in cut.before <==> Count(rest, ':') > 1)
            && (':' !in cut.before ==> Count(rest, ':') == 1 && After(rest, ':') == Some(cut.after))
  {
    hide Count;
    LastCutIs(rest, ':');
    CountTwo(rest);
    var cut := LastCut(rest, ':').value;
    if ':' in cut.before {
      var i :| 0 <= i < |cut.before| && cut.before[i] == ':';
      assert rest[i] == rest[|cut.before|] == ':';
    } else {
      OneColon(cut.before, cut.after);
      assert rest == cut.before + ([':'] + cut.after);
      CutAt(cut.before, [':'] + cut.after, ':');
    }
  }

  /** And after: a host is one that is there, has no space, and reads as one. */
  lemma {:induction false} HostRefused(o: Outside, rest: string)
    requires Parts(rest).Ok?
    ensures var host, split := Parts(rest).value.host, SplitHostPort(o, rest);
            if host == "" then split == Err(NoHost)
            else if exists c :: c in host && IsSpace(c) then split == Err(Space)
            else if CanonicalHost(o, host).None? then split == Err(NoName)
            else split == Ok(HostPort(CanonicalHost(o, host).value, Parts(rest).value.port))
  {
    hide Parts, IsSpace, CanonicalHost;
    var host := Parts(rest).value.host;
    if c :| c in host && IsSpace(c) {
      var i :| 0 <= i < |host| && host[i] == c;
      assert IsSpace(host[i]);
    }
    if i :| 0 <= i < |host| && IsSpace(host[i]) {
      assert host[i] in host;
    }
  }

  lemma {:induction false} Padded(before: string, text: string, after: string)
    requires text != "" && !IsSpace(text[0]) && !IsSpace(text[|text| - 1])
    requires forall i :: 0 <= i < |before| ==> IsSpace(before[i])
    requires forall i :: 0 <= i < |after| ==> IsSpace(after[i])
    ensures Unended(Started(before + text + after), false) == text
  {
    hide IsSpace, Unended;
    PaddedStart(before, text + after);
    assert before + text + after == before + (text + after);
    PaddedEnd(text, after);
  }

  lemma {:induction false} PaddedStart(before: string, text: string)
    requires text != "" && !IsSpace(text[0]) && forall i :: 0 <= i < |before| ==> IsSpace(before[i])
    ensures Started(before + text) == text
  {
    hide IsSpace;
    if before == "" {
      assert before + text == text;
    } else {
      assert (before + text)[1..] == before[1..] + text;
      PaddedStart(before[1..], text);
    }
  }

  lemma {:induction false} PaddedEnd(text: string, after: string)
    requires text != "" && !IsSpace(text[|text| - 1]) && forall i :: 0 <= i < |after| ==> IsSpace(after[i])
    ensures Unended(text + after, false) == text
  {
    hide IsSpace;
    if after == "" {
      assert text + after == text;
    } else {
      var front := after[..|after| - 1];
      assert (text + after)[..|text + after| - 1] == text + front;
      PaddedEnd(text, front);
    }
  }

  /** Spaces around what is scanned make no difference. */
  lemma {:induction false} SpacesDropped(o: Outside, before: string, text: string, after: string)
    requires text != "" && !IsSpace(text[0]) && !IsSpace(text[|text| - 1])
    requires forall i :: 0 <= i < |before| ==> IsSpace(before[i])
    requires forall i :: 0 <= i < |after| ==> IsSpace(after[i])
    ensures ParseBackend(o, before + text + after) == ParseBackend(o, text)
  {
    hide IsSpace, Unended, Started, NamesMaterial, Scheme, SplitFlag, Bare, WithScheme, SplitHostPort, Of;
    Padded(before, text, after);
    Padded("", text, "");
    assert "" + text + "" == text;
  }

  /** What is refused as the wallet's and no server's: what starts like it, in
      either case, or is found to hold it; and nothing else. */
  lemma {:induction false} MaterialRefused(o: Outside, text: string)
    requires text != "" && !IsSpace(text[0]) && !IsSpace(text[|text| - 1])
    ensures ParseBackend(o, text) == Err(Material) <==>
              o.refused(text) || exists prefix :: prefix in MATERIAL && prefix <= Lower(text)
  {
    hide IsSpace, Unended, Started, Scheme, SplitFlag, Lower, IsOnion, IsBareIpv6, Parts;
    Padded("", text, "");
    assert "" + text + "" == text;
    if NamesMaterial(text) {
      var i :| 0 <= i < |MATERIAL| && MATERIAL[i] <= Lower(text);
      assert MATERIAL[i] in MATERIAL;
    }
    if prefix :| prefix in MATERIAL && prefix <= Lower(text) {
      var i :| 0 <= i < |MATERIAL| && MATERIAL[i] == prefix;
    }
    forall rest: string ensures SplitHostPort(o, rest).Err? ==> SplitHostPort(o, rest).error != Material {
      PartsRefused(rest);
    }
  }

  /** A letter that is no transport is refused, unless it ends an IPv6 address. */
  lemma {:induction false} FlagRefused(o: Outside, host: string, port: Option<nat>, flag: char)
    requires Typable(host, port) && ('a' <= flag <= 'z' || 'A' <= flag <= 'Z') && flag !in {'s', 'S', 't', 'T'}
    requires Passed(o, Written(host, port) + ":" + [flag]) && !IsBareIpv6(Written(host, port) + ":" + [flag])
    ensures ParseBackend(o, Written(host, port) + ":" + [flag]) == Err(NoFlag)
  {
    hide Decimal, IsSpace, Written, SplitHostPort, NamesMaterial, Scheme, Of, Started, Unended, IsBareIpv6;
    var head := Written(host, port);
    var text := head + ":" + [flag];
    WrittenClean(host, port);
    LettersNoSpaces(flag);
    Untrimmed(text);
    NoScheme3(text);
    LastCutAt(head, [flag], ':');
  }

  lemma {:induction false} LettersNoSpaces(flag: char)
    requires 'a' <= flag <= 'z' || 'A' <= flag <= 'Z'
    ensures !IsSpace(flag) && !IsSpace(':')
    ensures var lower := Lower([flag]);
            'a' <= lower[0] <= 'z' && (lower == "s" <==> flag in {'s', 'S'}) && (lower == "t" <==> flag in {'t', 'T'})
  {
  }

  // ----- what is stored --------------------------------------------------

  /** What is stored of an Electrum address read so. */
  function StoredAs(read: Result<Backend, Refusal>): Result<string, Refusal> {
    if read.Err? then Err(read.error) else if read.value.Esplora? then Err(NoScheme) else Ok(read.value.url)
  }

  /** Typed bare, an address is stored as TLS, whatever its port says; with a
      flag or a scheme, as they say. */
  lemma {:induction false} StoredReads(o: Outside, host: string, port: Option<nat>)
    requires Typable(host, port) && Passed(o, "ssl://" + Written(host, port))
    ensures StoredForm(o, Written(host, port)) == StoredAs(ReadAs(o, host, port, true))
  {
    hide ParseBackend, Decimal, IsSpace, Written, Scheme, SplitFlag, Started, Unended, IsBareIpv6, ReadAs;
    WrittenClean(host, port);
    Untrimmed(Written(host, port));
    NoScheme3(Written(host, port));
    WrittenUnflagged(host, port);
    WrittenNotIpv6(host, port);
    assert "ssl" + "://" + (Written(host, port) + "") == "ssl://" + Written(host, port);
    LowerSame();
    SchemeReads(o, "ssl", host, port, "");
  }

  lemma {:induction false} WrittenNotIpv6(host: string, port: Option<nat>)
    requires Typable(host, port)
    ensures !IsBareIpv6(Written(host, port))
  {
    hide Decimal, IsSpace, Count;
    var text := Written(host, port);
    if ':' in host {
      assert text[0] == '[';
    } else if port.Some? {
      DigitsNoColon(port.value);
      OneColon(host, Decimal(port.value));
      assert text == host + [':'] + Decimal(port.value);
    } else {
      NoColonCount(host);
      assert text == host;
    }
  }

  lemma {:induction false} StoredIpv6(o: Outside, host: string)
    requires Clean(host) && IsBareIpv6(host) && Passed(o, "ssl://[" + host + "]")
    ensures StoredForm(o, host) == StoredAs(ReadAs(o, host, None, true))
  {
    hide ParseBackend, Decimal, IsSpace, Scheme, Started, Unended, ReadAs;
    Ipv6Parts(host);
    Untrimmed(host);
    NoScheme3(host);
    if ':' !in host {
      NoColonCount(host);
    }
    assert Written(host, None) == "[" + host + "]";
    assert "ssl" + "://" + (Written(host, None) + "") == "ssl://[" + host + "]";
    LowerSame();
    SchemeReads(o, "ssl", host, None, "");
  }

  lemma {:induction false} StoredFlag(o: Outside, host: string, port: Option<nat>, flag: char)
    requires Typable(host, port) && flag in {'s', 'S', 't', 'T'}
    requires Passed(o, Written(host, port) + ":" + [flag])
    ensures StoredForm(o, Written(host, port) + ":" + [flag]) == StoredAs(ReadAs(o, host, port, flag in {'s', 'S'}))
  {
    hide ParseBackend, Decimal, IsSpace, Written, Scheme, Started, Unended, ReadAs;
    var head := Written(host, port);
    var text := head + ":" + [flag];
    WrittenClean(host, port);
    FlagNoSpace(flag);
    Untrimmed(text);
    NoScheme3(text);
    LastCutAt(head, [flag], ':');
    FlagLower(flag);
    assert text[|text| - 1] == flag;
    FlagReads(o, host, port, flag);
  }
}
