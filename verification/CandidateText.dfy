/** The text a candidate travels as, and the scan that reads it. */
module CandidateText {
  import opened Wrappers
  import opened Framing
  import Decimal

  const MAX_IP_CHARS: nat := 63

  datatype Info =
    | Host(ip: string, port: nat)
    | ServerReflexive(ip: string, port: nat, relatedIp: string, relatedPort: nat)

  function Endpoint(ip: string, port: nat): string {
    ip + ":" + Decimal.ToText(port)
  }

  function Text(c: Info): string {
    match c
    case Host(ip, port) => "host " + Endpoint(ip, port)
    case ServerReflexive(ip, port, relatedIp, relatedPort) =>
      "srflx " + Endpoint(ip, port) + " related " + Endpoint(relatedIp, relatedPort)
  }

  // ---------------------------------------------------------------- sscanf

  predicate IsSpace(c: char) {
    c == ' ' || c == '\t' || c == '\n' || c == '\r' || c == '\U{0B}' || c == '\U{0C}'
  }

  /** White space in a format. */
  function SkipSpaces(s: string): string {
    if s != [] && IsSpace(s[0]) then SkipSpaces(s[1..]) else s
  }

  /** A literal in a format. */
  function SkipWord(s: string, word: string): Option<string> {
    if word <= s then Some(s[|word|..]) else None
  }

  /** How many characters `%63[^:]` takes. */
  function IpChars(s: string): nat {
    var colon := FirstOf(s, ':');
    if colon < MAX_IP_CHARS then colon else MAX_IP_CHARS
  }

  function DigitChars(s: string): (n: nat)
    ensures n <= |s| && forall k :: 0 <= k < n ==> Decimal.IsDigit(s[k])
    ensures n < |s| ==> !Decimal.IsDigit(s[n])
  {
    if s == [] || !Decimal.IsDigit(s[0]) then 0 else 1 + DigitChars(s[1..])
  }

  /** `%d`: white space, a sign, digits; the value and what follows. */
  function ScanInt(s: string): Option<(int, string)> {
    var t := SkipSpaces(s);
    var negative := t != [] && t[0] == '-';
    var u := if t != [] && (t[0] == '-' || t[0] == '+') then t[1..] else t;
    var n := DigitChars(u);
    if n == 0 then None
    else
      var value: int := Decimal.Value(u[..n]);
      Some((if negative then -value else value, u[n..]))
  }

  /** `%63[^:]:%d` behind white space; the port is cut down to 16 bits afterwards. */
  function ScanEndpoint(text: string): Option<(string, nat, string)> {
    var s := SkipSpaces(text);
    var n := IpChars(s);
    if n == 0 || n >= |s| || s[n] != ':' then None
    else
      match ScanInt(s[n + 1..])
      case None => None
      case Some((port, rest)) => Some((s[..n], port % 65536, rest))
  }

  function ParseHost(text: string): Option<Info> {
    match ScanEndpoint(text)
    case None => None
    case Some((ip, port, _)) => Some(Host(ip, port))
  }

  function ParseServerReflexive(text: string): Option<Info> {
    match ScanEndpoint(text)
    case None => None
    case Some((ip, port, rest)) =>
      match SkipWord(SkipSpaces(rest), "related")
      case None => None
      case Some(more) =>
        match ScanEndpoint(more)
        case None => None
        case Some((relatedIp, relatedPort, _)) => Some(ServerReflexive(ip, port, relatedIp, relatedPort))
  }

  function TryParseCandidateMessage(data: string): Option<Info> {
    if "host" <= data then ParseHost(CString(data[4..]))
    else if "srflx" <= data then ParseServerReflexive(CString(data[5..]))
    else None
  }

  // ---------------------------------------------------------------- what survives

  /** The addresses the scan can give back. */
  predicate Readable(ip: string) {
    1 <= |ip| <= MAX_IP_CHARS && ':' !in ip && NUL !in ip && !IsSpace(ip[0])
  }

  predicate AllReadable(c: Info) {
    match c
    case Host(ip, port) => Readable(ip)
    case ServerReflexive(ip, port, relatedIp, relatedPort) => Readable(ip) && Readable(relatedIp)
  }

  predicate PortsFit(c: Info) {
    match c
    case Host(_, port) => port < 65536
    case ServerReflexive(_, port, _, relatedPort) => port < 65536 && relatedPort < 65536
  }

  lemma {:induction false} SkippedStartsClean(s: string)
    ensures SkipSpaces(s) == [] || !IsSpace(SkipSpaces(s)[0])
    ensures |SkipSpaces(s)| <= |s| && SkipSpaces(s) == s[|s| - |SkipSpaces(s)|..]
  {
    if s != [] && IsSpace(s[0]) {
      SkippedStartsClean(s[1..]);
    }
  }

  predicate NulFree(s: string) {
    forall i :: 0 <= i < |s| ==> s[i] != NUL
  }

  lemma SkippedIsNulFree(s: string)
    requires NulFree(s)
    ensures NulFree(SkipSpaces(s))
  {
  }

  lemma ScanIntKeepsNulFree(s: string)
    requires NulFree(s) && ScanInt(s).Some?
    ensures NulFree(ScanInt(s).value.1)
  {
    SkippedIsNulFree(s);
  }

  lemma EndpointIsReadable(text: string)
    requires NulFree(text) && ScanEndpoint(text).Some?
    ensures Readable(ScanEndpoint(text).value.0) && ScanEndpoint(text).value.1 < 65536
    ensures NulFree(ScanEndpoint(text).value.2)
  {
    hide ScanInt;
    SkippedStartsClean(text);
    SkippedIsNulFree(text);
    var s := SkipSpaces(text);
    ScanIntKeepsNulFree(s[IpChars(s) + 1..]);
  }

  lemma HostIsReadable(text: string)
    requires NulFree(text) && ParseHost(text).Some?
    ensures AllReadable(ParseHost(text).value) && PortsFit(ParseHost(text).value)
  {
    EndpointIsReadable(text);
  }

  lemma ServerReflexiveIsReadable(text: string)
    requires NulFree(text) && ParseServerReflexive(text).Some?
    ensures AllReadable(ParseServerReflexive(text).value) && PortsFit(ParseServerReflexive(text).value)
  {
    EndpointIsReadable(text);
    var rest := ScanEndpoint(text).value.2;
    SkippedIsNulFree(rest);
    EndpointIsReadable(SkipWord(SkipSpaces(rest), "related").value);
  }

  /** Whatever the text, a candidate that is read has addresses of 1 to 63 characters without colon and NUL. */
  lemma ParsedIsReadable(data: string)
    requires TryParseCandidateMessage(data).Some?
    ensures AllReadable(TryParseCandidateMessage(data).value) && PortsFit(TryParseCandidateMessage(data).value)
  {
    if "host" <= data {
      HostIsReadable(CString(data[4..]));
    } else {
      ServerReflexiveIsReadable(CString(data[5..]));
    }
  }

  lemma DigitCharsIs(s: string, n: nat)
    requires n <= |s| && (forall k :: 0 <= k < n ==> Decimal.IsDigit(s[k])) && (n < |s| ==> !Decimal.IsDigit(s[n]))
    ensures DigitChars(s) == n
  {
  }

  lemma ScanIntReadsText(port: nat, tail: string)
    requires tail != [] ==> !Decimal.IsDigit(tail[0])
    ensures ScanInt(Decimal.ToText(port) + tail) == Some((port, tail))
  {
    var digits := Decimal.ToText(port);
    Decimal.TextIsDigits(port);
    Decimal.ValueOfText(port);
    var s := digits + tail;
    assert Decimal.IsDigit(digits[0]) && s[0] == digits[0];
    assert SkipSpaces(s) == s;
    assert s[..|digits|] == digits && s[|digits|..] == tail;
    DigitCharsIs(s, |digits|);
  }

  lemma SkipOneSpace(s: string)
    requires s != [] && !IsSpace(s[0])
    ensures SkipSpaces(" " + s) == s
  {
  }

  lemma IpStopsAtColon(ip: string, rest: string)
    requires Readable(ip)
    ensures var s := ip + ":" + rest;
      IpChars(s) == |ip| && s[|ip|] == ':' && s[..|ip|] == ip && s[|ip| + 1..] == rest
  {
  }

  lemma ScanEndpointReadsText(ip: string, port: nat, tail: string)
    requires Readable(ip) && port < 65536 && (tail != [] ==> !Decimal.IsDigit(tail[0]))
    ensures ScanEndpoint(" " + (Endpoint(ip, port) + tail)) == Some((ip, port, tail))
  {
    hide ScanInt, Decimal.ToText;
    var rest := Decimal.ToText(port) + tail;
    var s := ip + ":" + rest;
    assert Endpoint(ip, port) + tail == s && s[0] == ip[0];
    SkipOneSpace(s);
    IpStopsAtColon(ip, rest);
    ScanIntReadsText(port, tail);
  }

  lemma EndpointNulFree(ip: string, port: nat)
    requires Readable(ip)
    ensures NulFree(Endpoint(ip, port))
  {
    Decimal.TextIsDigits(port);
    assert NulFree(ip);
    var digits := Decimal.ToText(port);
    forall i | 0 <= i < |Endpoint(ip, port)| ensures Endpoint(ip, port)[i] != NUL {
      if i > |ip| {
        assert Endpoint(ip, port)[i] == digits[i - |ip| - 1];
      }
    }
  }

  lemma CStringWhole(s: string)
    requires NulFree(s)
    ensures CString(s) == s
  {
  }

  lemma HostRoundTrip(ip: string, port: nat)
    requires Readable(ip) && port < 65536
    ensures TryParseCandidateMessage(Text(Host(ip, port))) == Some(Host(ip, port))
  {
    var text, rest := Text(Host(ip, port)), " " + (Endpoint(ip, port) + "");
    assert Endpoint(ip, port) + "" == Endpoint(ip, port);
    assert text[..4] == "host" && text[4..] == rest;
    EndpointNulFree(ip, port);
    CStringWhole(rest);
    ScanEndpointReadsText(ip, port, "");
  }

  lemma ServerReflexiveRoundTrip(ip: string, port: nat, relatedIp: string, relatedPort: nat)
    requires Readable(ip) && port < 65536 && Readable(relatedIp) && relatedPort < 65536
    ensures var c := ServerReflexive(ip, port, relatedIp, relatedPort); TryParseCandidateMessage(Text(c)) == Some(c)
  {
    var tail := RelatedTail(relatedIp, relatedPort);
    ServerReflexiveText(ServerReflexive(ip, port, relatedIp, relatedPort));
    EndpointNulFree(ip, port);
    EndpointNulFree(relatedIp, relatedPort);
    CStringWhole(" " + (Endpoint(ip, port) + tail));
    ParseReadsBoth(ip, port, relatedIp, relatedPort);
  }

  function RelatedTail(relatedIp: string, relatedPort: nat): string {
    " " + ("related" + (" " + (Endpoint(relatedIp, relatedPort) + "")))
  }

  lemma ParseReadsBoth(ip: string, port: nat, relatedIp: string, relatedPort: nat)
    requires Readable(ip) && port < 65536 && Readable(relatedIp) && relatedPort < 65536
    ensures ParseServerReflexive(" " + (Endpoint(ip, port) + RelatedTail(relatedIp, relatedPort)))
         == Some(ServerReflexive(ip, port, relatedIp, relatedPort))
  {
    ScanEndpointReadsText(ip, port, RelatedTail(relatedIp, relatedPort));
    TailReads(relatedIp, relatedPort);
    ScanEndpointReadsText(relatedIp, relatedPort, "");
  }

  lemma TailReads(relatedIp: string, relatedPort: nat)
    ensures SkipWord(SkipSpaces(RelatedTail(relatedIp, relatedPort)), "related")
         == Some(" " + (Endpoint(relatedIp, relatedPort) + ""))
  {
  }

  lemma ServerReflexiveText(c: Info)
    requires c.ServerReflexive?
    ensures var tail := RelatedTail(c.relatedIp, c.relatedPort);
      Text(c)[0] == 's' && Text(c)[..5] == "srflx" && Text(c)[5..] == " " + (Endpoint(c.ip, c.port) + tail)
  {
  }

  /** A candidate is read back as it was written exactly when its addresses have 1 to 63 characters, no colon, no NUL
    * and do not start with white space. */
  lemma ReadBackIff(c: Info)
    requires PortsFit(c)
    ensures TryParseCandidateMessage(Text(c)) == Some(c) <==> AllReadable(c)
  {
    if AllReadable(c) {
      match c
      case Host(ip, port) => HostRoundTrip(ip, port);
      case ServerReflexive(ip, port, relatedIp, relatedPort) =>
        ServerReflexiveRoundTrip(ip, port, relatedIp, relatedPort);
    } else if TryParseCandidateMessage(Text(c)).Some? {
      ParsedIsReadable(Text(c));
    }
  }

  /** An address with a colon, say an IPv6 one, does not survive. */
  lemma ColonsAreLost(port: nat)
    requires port < 65536
    ensures TryParseCandidateMessage(Text(Host("fe80::1", port))) != Some(Host("fe80::1", port))
  {
    assert "fe80::1"[4] == ':';
    ReadBackIff(Host("fe80::1", port));
  }
}
