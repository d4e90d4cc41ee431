/** Ad-hoc targets `[user@]host[:port]` (src/app/adhoc.rs) and the endpoint a
    session shows (endpoint_label in src/app/session_picker.rs). */
module Adhoc {
  import opened Wrappers
  import Decimal
  import Text

  datatype Target = Target(user: Option<string>, host: string, port: Option<nat>, ipv6: bool)

  const MAX_PORT: nat := 65535

  // ---------------------------------------------------------------- splitting

  /** The first place of a character, None when it does not occur. */
  function Find(s: string, c: char): (r: Option<nat>)
    ensures r.None? <==> c !in s
    ensures r.Some? ==> r.value < |s| && s[r.value] == c && c !in s[..r.value]
  {
    if s == "" then None
    else if s[0] == c then Some(0)
    else match Find(s[1..], c)
         case None => None
         case Some(i) => assert s[..i + 1] == [s[0]] + s[1..][..i]; Some(i + 1)
  }

  /** The only place it can be found at is where it comes first. */
  lemma {:induction false} FindAt(a: string, c: char, b: string)
    requires c !in a
    ensures Find(a + [c] + b, c) == Some(|a|)
  {
    var s := a + [c] + b;
    if a != "" {
      assert s[0] == a[0] && a[0] in a;
      assert s[1..] == a[1..] + [c] + b;
      FindAt(a[1..], c, b);
    }
  }

  function Count(s: string, c: char): nat {
    if s == "" then 0 else (if s[0] == c then 1 else 0) + Count(s[1..], c)
  }

  predicate IsControl(c: char) {
    c as int < 0x20 || 0x7F <= c as int <= 0x9F
  }

  predicate HasGap(s: string) {
    exists c :: c in s && (Text.IsWhite(c) || IsControl(c))
  }

  /** A gap is anything up to the space, the second block of controls, the space that
      does not break, or a wide one. */
  lemma GapMeans(c: char)
    ensures HasGap([c]) <==> c as int <= 0x20 || 0x7F <= c as int <= 0xA0 || c in Text.WIDE_SPACES
  {
    assert c in [c];
    Text.WhiteMeans(c);
  }

  // ---------------------------------------------------------------- parsing

  function ParsePort(s: string): Option<nat> {
    match Decimal.Parse(s, MAX_PORT)
    case Some(p) => if p >= 1 then Some(p) else None
    case None => None
  }

  /** The host portion: bracketed, `host:port` with exactly one colon, or bare. */
  function ParseHost(rest: string): Option<(string, Option<nat>, bool)> {
    if rest != "" && rest[0] == '[' then
      match Find(rest[1..], ']')
      case None => None
      case Some(close) =>
        var tail := rest[1..][close + 1..];
        if tail == "" then Some((rest[1..][..close], None, true))
        else if tail[0] != ':' || ParsePort(tail[1..]).None? then None
        else Some((rest[1..][..close], ParsePort(tail[1..]), true))
    else if Count(rest, ':') == 1 && Find(rest, ':').Some? then
      var colon := Find(rest, ':').value;
      if ParsePort(rest[colon + 1..]).None? then None else Some((rest[..colon], ParsePort(rest[colon + 1..]), false))
    else Some((rest, None, false))
  }

  function ParseRest(user: Option<string>, rest: string): Option<Target> {
    if rest == "" || '@' in rest || ParseHost(rest).None? then None
    else
      var (host, port, ipv6) := ParseHost(rest).value;
      if host == "" || host[0] == '-' then None else Some(Target(user, host, port, ipv6))
  }

  function ParseAdhocTarget(input: string): Option<Target> {
    var s := Text.Trim(input);
    if s == "" || HasGap(s) then None
    else match Find(s, '@')
         case Some(at) =>
           if at == 0 || s[0] == '-' then None else ParseRest(Some(s[..at]), s[at + 1..])
         case None => ParseRest(None, s)
  }

  // ---------------------------------------------------------------- printing

  function WithUser(user: Option<string>, rest: string): string {
    if user.Some? then user.value + ['@'] + rest else rest
  }

  /** AdhocTarget::label */
  function Destination(t: Target): string {
    WithUser(t.user, t.host)
  }

  /** endpoint_label for a session whose address is known */
  function EndpointLabel(user: Option<string>, host: string, port: Option<nat>): string {
    WithUser(user,
             if port.None? then host
             else if ':' in host then "[" + host + "]:" + Decimal.Print(port.value)
             else host + ":" + Decimal.Print(port.value))
  }

  method BuildAdhocArgv(t: Target) returns (argv: seq<string>)
    ensures argv ==
      ["ssh", "-v"] + (if t.port.Some? then ["-p", Decimal.Print(t.port.value)] else []) + ["--", Destination(t)]
  {
    argv := ["ssh", "-v"];
    if t.port.Some? {
      argv := argv + ["-p"];
      argv := argv + [Decimal.Print(t.port.value)];
    }
    argv := argv + ["--"];
    argv := argv + [Destination(t)];
  }

  // ---------------------------------------------------------------- what is accepted

  /** An accepted target can be written on a command line. */
  predicate IsClean(user: Option<string>, host: string) {
    host != "" && host[0] != '-' && '@' !in host && !HasGap(host)
    && (user.Some? ==> user.value != "" && user.value[0] != '-' && '@' !in user.value && !HasGap(user.value))
  }

  /** How a target is written, with the port in any accepted spelling. */
  ghost predicate Spells(s: string, t: Target) {
    exists port: string ::
      SpelledHost(t, port) && s == WithUser(t.user, (if t.ipv6 then "[" + t.host + "]" else t.host) + port)
  }

  ghost predicate SpelledHost(t: Target, port: string) {
    if t.port.None? then port == "" else port != "" && port[0] == ':' && ParsePort(port[1..]) == t.port
  }

  lemma GapInPart(s: string, part: string)
    requires !HasGap(s) && forall c :: c in part ==> c in s
    ensures !HasGap(part)
  {
  }

  /** The text around a closing bracket. */
  lemma Bracketed(rest: string, close: nat)
    requires rest != "" && rest[0] == '[' && close < |rest| - 1 && rest[1..][close] == ']'
    ensures rest == "[" + rest[1..][..close] + "]" + rest[1..][close + 1..]
  {
    var after := rest[1..];
    assert after == after[..close] + [']'] + after[close + 1..];
    assert rest == ['['] + after;
  }

  lemma BracketedSpells(rest: string) returns (p: string)
    requires ParseHost(rest).Some? && rest != "" && rest[0] == '['
    ensures var (host, port, ipv6) := ParseHost(rest).value;
            ipv6 && SpelledHost(Target(None, host, port, true), p) && rest == "[" + host + "]" + p
  {
    var close := Find(rest[1..], ']').value;
    p := rest[1..][close + 1..];
    Bracketed(rest, close);
  }

  lemma ParseHostSpells(rest: string)
    requires ParseHost(rest).Some?
    ensures var (host, port, ipv6) := ParseHost(rest).value;
            exists p :: SpelledHost(Target(None, host, port, ipv6), p)
                && rest == (if ipv6 then "[" + host + "]" else host) + p
  {
    var (host, port, ipv6) := ParseHost(rest).value;
    var t := Target(None, host, port, ipv6);
    if rest != "" && rest[0] == '[' {
      var p := BracketedSpells(rest);
    } else if port.Some? {
      var p := rest[|host|..];
      assert p[1..] == rest[|host| + 1..];
      assert SpelledHost(t, p) && rest == host + p;
    } else {
      assert SpelledHost(t, "") && rest == host + "";
    }
  }

  lemma HostIsClean(rest: string)
    requires ParseHost(rest).Some? && !HasGap(rest) && '@' !in rest
    ensures forall c :: c in ParseHost(rest).value.0 ==> c in rest
    ensures !HasGap(ParseHost(rest).value.0) && '@' !in ParseHost(rest).value.0
  {
  }

  lemma RestIsSpelled(user: Option<string>, rest: string)
    requires ParseRest(user, rest).Some? && !HasGap(rest)
    ensures var t := ParseRest(user, rest).value;
            t.user == user && t.host != "" && t.host[0] != '-' && '@' !in t.host && !HasGap(t.host)
            && exists p :: SpelledHost(t, p) && rest == (if t.ipv6 then "[" + t.host + "]" else t.host) + p
  {
    ParseHostSpells(rest);
    HostIsClean(rest);
    var t := ParseRest(user, rest).value;
    var p :| SpelledHost(Target(None, t.host, t.port, t.ipv6), p)
        && rest == (if t.ipv6 then "[" + t.host + "]" else t.host) + p;
    assert SpelledHost(t, p);
  }

  lemma UserIsSpelled(s: string, at: nat)
    requires at < |s| && s[at] == '@' && '@' !in s[..at] && at > 0 && s[0] != '-' && !HasGap(s)
    requires ParseRest(Some(s[..at]), s[at + 1..]).Some?
    ensures var t := ParseRest(Some(s[..at]), s[at + 1..]).value; IsClean(t.user, t.host) && Spells(s, t)
  {
    var t := ParseRest(Some(s[..at]), s[at + 1..]).value;
    GapInPart(s, s[at + 1..]);
    GapInPart(s, s[..at]);
    RestIsSpelled(Some(s[..at]), s[at + 1..]);
    assert s == s[..at] + ['@'] + s[at + 1..];
    assert s == WithUser(t.user, s[at + 1..]);
  }

  lemma BareIsSpelled(s: string)
    requires !HasGap(s) && ParseRest(None, s).Some?
    ensures var t := ParseRest(None, s).value; IsClean(t.user, t.host) && Spells(s, t)
  {
    RestIsSpelled(None, s);
  }

  /** An accepted input, trimmed, is a user and a rest, or all rest. */
  lemma AcceptedSplits(input: string)
    requires ParseAdhocTarget(input).Some?
    ensures var s := Text.Trim(input);
            !HasGap(s)
            && match Find(s, '@')
               case None => ParseAdhocTarget(input) == ParseRest(None, s)
               case Some(at) =>
                 at > 0 && s[0] != '-' && ParseAdhocTarget(input) == ParseRest(Some(s[..at]), s[at + 1..])
  {
  }

  /** What an accepted input stands for: nothing of it is dropped or reordered,
      and the parts are safe to put on a command line. */
  lemma AcceptedIsSpelled(input: string)
    requires ParseAdhocTarget(input).Some?
    ensures var t := ParseAdhocTarget(input).value;
            IsClean(t.user, t.host) && Spells(Text.Trim(input), t)
  {
    AcceptedSplits(input);
    match Find(Text.Trim(input), '@') {
      case None => BareIsSpelled(Text.Trim(input));
      case Some(at) => UserIsSpelled(Text.Trim(input), at);
    }
  }

  // ---------------------------------------------------------------- round trip

  /** Hosts whose endpoint reads back: with a colon the label is bracketed, so a
      closing bracket inside would end it early; without one, an opening bracket
      in front would be taken for the start of a literal. */
  predicate ReadsBack(host: string)
    requires host != ""
  {
    if ':' in host then ']' !in host else host[0] != '['
  }

  lemma CountOne(a: string, b: string)
    requires ':' !in a && ':' !in b
    ensures Count(a + [':'] + b, ':') == 1
  {
    if a == "" {
      CountNone(b);
      assert (a + [':'] + b)[1..] == b;
    } else {
      assert (a + [':'] + b)[1..] == a[1..] + [':'] + b;
      assert (a + [':'] + b)[0] == a[0] && a[0] in a;
      CountOne(a[1..], b);
    }
  }

  lemma CountNone(s: string)
    requires ':' !in s
    ensures Count(s, ':') == 0
  {
  }

  lemma PrintIsPort(port: nat)
    requires 1 <= port <= MAX_PORT
    ensures ParsePort(Decimal.Print(port)) == Some(port)
    ensures forall c :: c in Decimal.Print(port) ==> Decimal.IsDigit(c)
  {
    Decimal.ParseOfPrint(port, MAX_PORT);
  }

  /** A bracketed literal followed by a port reads as itself, unless it holds a
      closing bracket: then a shorter host is read, or none. */
  lemma BracketedReads(host: string, digits: string)
    requires ParsePort(digits).Some? && ']' !in host
    ensures ParseHost("[" + host + "]:" + digits) == Some((host, ParsePort(digits), true))
  {
    var rest := "[" + host + "]:" + digits;
    var after := rest[1..];
    assert after == host + [']'] + (":" + digits);
    FindAt(host, ']', ":" + digits);
    var tail := after[|host| + 1..];
    assert tail == ":" + digits && tail[1..] == digits;
    assert after[..|host|] == host;
  }

  lemma BracketedReadsShort(host: string, digits: string)
    requires ']' in host
    ensures var r := ParseHost("[" + host + "]:" + digits); r.None? || |r.value.0| < |host|
  {
    var rest := "[" + host + "]:" + digits;
    assert rest[1..] == host + ("]:" + digits);
    FindBefore(host, ']', "]:" + digits);
  }

  lemma OneColonReads(host: string, digits: string)
    requires ParsePort(digits).Some? && ':' !in host && ':' !in digits && host != "" && host[0] != '['
    ensures ParseHost(host + ":" + digits) == Some((host, ParsePort(digits), false))
  {
    var rest := host + ":" + digits;
    assert rest == host + [':'] + digits;
    FindAt(host, ':', digits);
    CountOne(host, digits);
    assert rest[..|host|] == host && rest[|host| + 1..] == digits;
  }

  /** A host with an opening bracket in front loses at least that bracket. */
  lemma OpenBracketReadsShort(host: string, digits: string)
    requires host != "" && host[0] == '[' && ']' !in digits
    ensures var r := ParseHost(host + ":" + digits); r.None? || |r.value.0| < |host|
  {
  }

  lemma {:induction false} FindBefore(a: string, c: char, b: string)
    requires c in a
    ensures Find(a + b, c).Some? && Find(a + b, c).value < |a|
  {
    assert (a + b)[0] == a[0];
    if a[0] != c {
      assert (a + b)[1..] == a[1..] + b;
      FindBefore(a[1..], c, b);
    }
  }

  /** A printed port of a host, whatever user comes before it. */
  lemma HostReadsBack(host: string, port: nat)
    requires host != "" && 1 <= port <= MAX_PORT
    ensures var r := ParseHost(EndpointLabel(None, host, Some(port)));
            if ReadsBack(host) then r == Some((host, Some(port), ':' in host)) else r.None? || |r.value.0| < |host|
  {
    var digits := Decimal.Print(port);
    PrintIsPort(port);
    if ':' in host {
      if ']' in host { BracketedReadsShort(host, digits); } else { BracketedReads(host, digits); }
    } else {
      if host[0] == '[' { OpenBracketReadsShort(host, digits); } else { OneColonReads(host, digits); }
    }
  }

  lemma DigitsAreClean(digits: string)
    requires Decimal.AllDigits(digits)
    ensures !HasGap(digits) && '@' !in digits
  {
  }

  lemma RestIsClean(host: string, port: nat)
    requires IsClean(None, host)
    ensures var rest := EndpointLabel(None, host, Some(port)); rest != "" && '@' !in rest && !HasGap(rest)
  {
    var rest := EndpointLabel(None, host, Some(port));
    DigitsAreClean(Decimal.Print(port));
    assert forall c :: c in rest ==> c in host || c in Decimal.Print(port) || c == '[' || c == ']' || c == ':';
  }

  lemma GapJoins(a: string, b: string)
    requires !HasGap(a) && !HasGap(b)
    ensures !HasGap(a + b)
  {
  }

  lemma UserSplits(user: string, rest: string)
    requires user != "" && user[0] != '-' && '@' !in user && !HasGap(user) && rest != "" && !HasGap(rest)
    ensures ParseAdhocTarget(user + ['@'] + rest) == ParseRest(Some(user), rest)
  {
    var s := user + ['@'] + rest;
    GapJoins(user, ['@']);
    GapJoins(user + ['@'], rest);
    NoGapTrims(s);
    FindAt(user, '@', rest);
    assert s[..|user|] == user && s[|user| + 1..] == rest && s[0] == user[0];
  }

  lemma NoGapTrims(s: string)
    requires s != "" && !HasGap(s)
    ensures Text.Trim(s) == s
  {
    assert s[0] in s && s[|s| - 1] in s;
    Text.TrimKeeps(s);
  }

  /** The whole label: no gap, and the first `@` is the one after the user. */
  lemma LabelSplits(user: Option<string>, host: string, port: nat)
    requires IsClean(user, host)
    ensures var s := EndpointLabel(user, host, Some(port));
            ParseAdhocTarget(s) == ParseRest(user, EndpointLabel(None, host, Some(port)))
  {
    RestIsClean(host, port);
    if user.Some? {
      UserSplits(user.value, EndpointLabel(None, host, Some(port)));
    } else {
      PlainInput(EndpointLabel(None, host, Some(port)));
    }
  }

  /** The endpoint of a session connected to a target, printed and parsed again,
      gives that user, host and port exactly when the host reads back. */
  lemma EndpointRoundTrip(user: Option<string>, host: string, port: nat)
    requires IsClean(user, host) && 1 <= port <= MAX_PORT
    ensures var t := ParseAdhocTarget(EndpointLabel(user, host, Some(port)));
            (t.Some? && t.value.user == user && t.value.host == host && t.value.port == Some(port)) <==> ReadsBack(host)
  {
    LabelSplits(user, host, port);
    HostReadsBack(host, port);
  }

  /** So for every accepted input, with the port `connect_adhoc` puts in. */
  lemma AcceptedRoundTrip(input: string)
    requires ParseAdhocTarget(input).Some?
    ensures var t := ParseAdhocTarget(input).value;
            var port := if t.port.Some? then t.port.value else 22;
            var again := ParseAdhocTarget(EndpointLabel(t.user, t.host, Some(port)));
            (again.Some? && again.value.user == t.user && again.value.host == t.host && again.value.port == Some(port))
            <==> (t.host != "" && ReadsBack(t.host))
  {
    AcceptedIsSpelled(input);
    var t := ParseAdhocTarget(input).value;
    var p :| SpelledHost(t, p);
    EndpointRoundTrip(t.user, t.host, if t.port.Some? then t.port.value else 22);
  }

  /** Bracket-free hosts, bare IPv6 addresses among them, always do. */
  lemma BracketFreeReadsBack(host: string)
    requires host != "" && '[' !in host && ']' !in host
    ensures ReadsBack(host)
  {
  }

  lemma PlainInput(s: string)
    requires s != "" && !HasGap(s) && '@' !in s
    ensures ParseAdhocTarget(s) == ParseRest(None, s)
  {
  }

  // ---------------------------------------------------------------- the grammar

  predicate ExactlyOneColon(s: string) {
    exists i :: 0 <= i < |s| && s[i] == ':' && ':' !in s[..i] && ':' !in s[i + 1..]
  }

  lemma {:induction false} CountMeans(s: string)
    ensures Count(s, ':') == 1 <==> ExactlyOneColon(s)
  {
    if s != "" && s[0] == ':' {
      CountZero(s[1..]);
      assert s[..0] == "";
      if i :| 0 <= i < |s| && s[i] == ':' && ':' !in s[..i] && ':' !in s[i + 1..] {
        InFront(s, i);
      }
    } else if s != "" {
      CountMeans(s[1..]);
      if i :| 0 <= i < |s| && s[i] == ':' && ':' !in s[..i] && ':' !in s[i + 1..] {
        assert s[1..][..i - 1] == s[..i][1..] && s[1..][i - 1] == ':' && s[1..][i..] == s[i + 1..];
      }
      if i :| 0 <= i < |s[1..]| && s[1..][i] == ':' && ':' !in s[1..][..i] && ':' !in s[1..][i + 1..] {
        assert s[..i + 1] == [s[0]] + s[1..][..i] && s[i + 1] == ':' && s[i + 2..] == s[1..][i + 1..];
      }
    }
  }

  lemma InFront(s: string, i: nat)
    requires i <= |s|
    ensures i > 0 ==> s[0] in s[..i]
  {
    if i > 0 {
      assert s[..i][0] == s[0];
    }
  }

  lemma {:induction false} CountZero(s: string)
    ensures Count(s, ':') == 0 <==> ':' !in s
  {
    if s != "" {
      CountZero(s[1..]);
      assert s == [s[0]] + s[1..];
    }
  }

  /** Brackets hold no closing bracket. Without them the host does not begin with an
      opening one, has no colon in front of a port, and not exactly one without. */
  predicate Unambiguous(t: Target) {
    if t.ipv6 then ']' !in t.host
    else (t.host != "" ==> t.host[0] != '[') && if t.port.Some? then ':' !in t.host else !ExactlyOneColon(t.host)
  }

  lemma ParsedIsUnambiguous(rest: string)
    requires ParseHost(rest).Some?
    ensures var (host, port, ipv6) := ParseHost(rest).value; Unambiguous(Target(None, host, port, ipv6))
  {
    CountMeans(rest);
    if rest != "" && rest[0] == '[' {
    } else if Count(rest, ':') == 1 {
      var colon := Find(rest, ':').value;
      assert colon > 0 ==> rest[..colon][0] == rest[0];
    }
  }

  /** The port as it may be spelled: digits, after a plus sign perhaps. */
  lemma PortIsPlain(digits: string)
    requires ParsePort(digits).Some?
    ensures ':' !in digits && '@' !in digits && !HasGap(digits)
  {
    if digits != "" && digits[0] == '+' {
      DigitsAreClean(digits[1..]);
      assert digits == ['+'] + digits[1..];
      forall c | c in digits ensures c == '+' || Decimal.IsDigit(c) {
      }
    } else {
      DigitsAreClean(digits);
    }
  }

  function Body(t: Target): string {
    if t.ipv6 then "[" + t.host + "]" else t.host
  }

  lemma SpelledReads(t: Target, p: string)
    requires t.host != "" && SpelledHost(t, p) && Unambiguous(t)
    ensures ParseHost(Body(t) + p) == Some((t.host, t.port, t.ipv6))
  {
    if t.port.Some? {
      PortIsPlain(p[1..]);
      assert p == ":" + p[1..];
      if t.ipv6 {
        BracketedReads(t.host, p[1..]);
        assert Body(t) + p == "[" + t.host + "]:" + p[1..];
      } else {
        OneColonReads(t.host, p[1..]);
        assert Body(t) + p == t.host + ":" + p[1..];
      }
    } else {
      assert Body(t) + p == Body(t);
      if t.ipv6 {
        BareBracketsRead(t.host);
      } else {
        CountMeans(t.host);
      }
    }
  }

  lemma BareBracketsRead(host: string)
    requires ']' !in host
    ensures ParseHost("[" + host + "]") == Some((host, None, true))
  {
    var rest := "[" + host + "]";
    assert rest[1..] == host + [']'] + "";
    FindAt(host, ']', "");
    assert rest[1..][|host| + 1..] == "" && rest[1..][..|host|] == host;
  }

  lemma SpelledIsPlain(t: Target, p: string)
    requires IsClean(t.user, t.host) && SpelledHost(t, p)
    ensures var rest := Body(t) + p; rest != "" && !HasGap(rest) && '@' !in rest
  {
    if t.port.Some? {
      PortIsPlain(p[1..]);
      assert p == ":" + p[1..];
    }
    forall c | c in Body(t) + p ensures c in t.host || c in p || c == '[' || c == ']' {
    }
    forall c | c in p ensures c == ':' || c in p[1..] {
    }
  }

  lemma TrimmedParsesAlike(input: string)
    requires !HasGap(Text.Trim(input)) && Text.Trim(input) != ""
    ensures ParseAdhocTarget(input) == ParseAdhocTarget(Text.Trim(input))
  {
    NoGapTrims(Text.Trim(input));
  }

  lemma SpelledParses(s: string, t: Target)
    requires IsClean(t.user, t.host) && Unambiguous(t) && Spells(s, t)
    ensures s != "" && !HasGap(s) && ParseAdhocTarget(s) == Some(t)
  {
    var p :| SpelledHost(t, p) && s == WithUser(t.user, (if t.ipv6 then "[" + t.host + "]" else t.host) + p);
    SpelledReads(t, p);
    SpelledIsPlain(t, p);
    WithUserParses(t.user, Body(t) + p);
    RestParses(t, Body(t) + p);
  }

  lemma RestParses(t: Target, rest: string)
    requires rest != "" && '@' !in rest && t.host != "" && t.host[0] != '-'
    requires ParseHost(rest) == Some((t.host, t.port, t.ipv6))
    ensures ParseRest(t.user, rest) == Some(t)
  {
  }

  lemma WithUserParses(user: Option<string>, rest: string)
    requires rest != "" && !HasGap(rest) && '@' !in rest
    requires user.Some? ==> user.value != "" && user.value[0] != '-' && '@' !in user.value && !HasGap(user.value)
    ensures var s := WithUser(user, rest); s != "" && !HasGap(s) && ParseAdhocTarget(s) == ParseRest(user, rest)
  {
    if user.Some? {
      UserSplits(user.value, rest);
      GapJoins(user.value, ['@']);
      GapJoins(user.value + ['@'], rest);
    } else {
      PlainInput(rest);
    }
  }

  /** Exactly what is accepted, and as what: the trimmed input is the target written
      out, with clean parts, in a spelling that can be read one way only. */
  lemma AcceptedIff(input: string, t: Target)
    ensures ParseAdhocTarget(input) == Some(t) <==>
      IsClean(t.user, t.host) && Unambiguous(t) && Spells(Text.Trim(input), t)
  {
    if ParseAdhocTarget(input) == Some(t) {
      AcceptedIsSpelled(input);
      AcceptedSplits(input);
      match Find(Text.Trim(input), '@') {
        case None => ParsedIsUnambiguous(Text.Trim(input));
        case Some(at) => ParsedIsUnambiguous(Text.Trim(input)[at + 1..]);
      }
    }
    if IsClean(t.user, t.host) && Unambiguous(t) && Spells(Text.Trim(input), t) {
      SpelledParses(Text.Trim(input), t);
      TrimmedParsesAlike(input);
    }
  }

  /** The two ways an accepted host fails to, each by an input that shows it. */
  lemma OpenBracketInside()
    ensures ParseAdhocTarget("[[a]") == Some(Target(None, "[a", None, true)) && !ReadsBack("[a")
  {
    var s := "[[a]";
    PlainInput(s);
    assert s[1..] == "[a" + [']'] + "";
    FindAt("[a", ']', "");
    assert s[1..][3..] == "" && s[1..][..2] == "[a";
  }

  lemma ManyColons(a: string, b: string, c: string)
    ensures Count(a + [':'] + b + [':'] + c, ':') >= 2
  {
    var s := a + [':'] + b + [':'] + c;
    if a == "" {
      OneColon(b, c);
      assert s[1..] == b + [':'] + c;
    } else {
      assert s[1..] == a[1..] + [':'] + b + [':'] + c;
      ManyColons(a[1..], b, c);
    }
  }

  lemma OneColon(a: string, b: string)
    ensures Count(a + [':'] + b, ':') >= 1
  {
    var s := a + [':'] + b;
    if a != "" {
      assert s[1..] == a[1..] + [':'] + b;
      OneColon(a[1..], b);
    }
  }

  lemma CloseBracketInside()
    ensures ParseAdhocTarget("]::") == Some(Target(None, "]::", None, false)) && !ReadsBack("]::")
  {
    var s := "]::";
    PlainInput(s);
    ManyColons("]", "", "");
    assert s == "]" + [':'] + "" + [':'] + "";
  }

  /** The destination is the last argument, behind the end of options, and cannot
      be read as an option itself. */
  lemma DestinationIsNoOption(input: string)
    requires ParseAdhocTarget(input).Some?
    ensures var d := Destination(ParseAdhocTarget(input).value); d != "" && d[0] != '-' && !HasGap(d)
  {
    AcceptedIsSpelled(input);
  }
}
