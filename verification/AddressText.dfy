/** Parsing of the balancer's "host:port" addresses. */
module AddressText {
  import opened Wrappers
  import opened Decimal
  import opened Endpoints

  datatype ParseError = EmptyAddress | NoPort | NonNumericPort | OutOfRangePort

  /** Unicode white space as Go's fmt package sees it. */
  predicate IsSpace(c: char) {
    var n := c as int;
    || 0x09 <= n <= 0x0D || n == 0x20 || n == 0x85 || n == 0xA0 || n == 0x1680
    || 0x2000 <= n <= 0x200A || n == 0x2028 || n == 0x2029 || n == 0x202F
    || n == 0x205F || n == 0x3000
  }

  predicate NoSpace(s: string) { forall i :: 0 <= i < |s| ==> !IsSpace(s[i]) }

  /** Skips leading white space; a newline makes the scan fail. */
  function SkipSpace(s: string): Option<string> {
    if s == [] then Some(s)
    else if s[0] == '\n' then None
    else if IsSpace(s[0]) then SkipSpace(s[1..])
    else Some(s)
  }

  /** The longest prefix without white space. */
  function Token(s: string): (t: string)
    ensures NoSpace(t) && t <= s
  {
    if s == [] || IsSpace(s[0]) then []
    else
      var t := [s[0]] + Token(s[1..]);
      assert s == [s[0]] + s[1..];
      t
  }

  /** `fmt.Sscanf(s, "%s", ...)`: the first token, if there is one. */
  function ScanString(s: string): (r: Option<string>)
    ensures r.Some? ==> NoSpace(r.value)
  {
    match SkipSpace(s)
    case None => None
    case Some(rest) => if rest == [] then None else Some(Token(rest))
  }

  /** What parsing an address yields. */
  function ParseAddr(addr: string): Result<Endpoint, ParseError> {
    match ScanString(addr)
    case None => Err(EmptyAddress)
    case Some(t) =>
      var c := LastColon(t);
      if c < 0 then Err(NoPort)
      else
        match ScanInt(t[c + 1..])
        case None => Err(NonNumericPort)
        case Some(p) =>
          if p <= 0 || p > 65535 then Err(OutOfRangePort) else Ok(Endpoint(t[..c], p, true))
  }

  /** The parser, with the backward search for the last colon. */
  method ParseAddrToEndpoint(addr: string) returns (r: Result<Endpoint, ParseError>)
    ensures r == ParseAddr(addr)
  {
    var scanned := ScanString(addr);
    if scanned.None? { return Err(EmptyAddress); }
    var t := scanned.value;

    var lastColon := -1;
    var i := |t| - 1;
    while i >= 0
      invariant -1 <= i < |t|
      invariant forall j :: i < j < |t| ==> t[j] != ':'
      invariant lastColon == -1
    {
      if t[i] == ':' {
        lastColon := i;
        break;
      }
      i := i - 1;
    }
    assert lastColon == LastColon(t);
    if lastColon < 0 { return Err(NoPort); }

    var host := t[..lastColon];
    var portStr := t[lastColon + 1..];
    var port := ScanInt(portStr);
    if port.None? { return Err(NonNumericPort); }
    if port.value <= 0 || port.value > 65535 { return Err(OutOfRangePort); }
    return Ok(Endpoint(host, port.value, true));
  }

  // ---------------------------------------------------------------------
  // Round trip
  // ---------------------------------------------------------------------

  predicate ValidPort(p: int) { 1 <= p <= 65535 }

  /** Whatever is parsed has a host without white space, a port in range, and is ready. */
  lemma ParsedIsClean(addr: string)
    requires ParseAddr(addr).Ok?
    ensures NoSpace(ParseAddr(addr).value.address)
    ensures ValidPort(ParseAddr(addr).value.port) && ParseAddr(addr).value.ready
  {
  }

  lemma {:induction false} TokenOfClean(s: string)
    requires NoSpace(s)
    ensures Token(s) == s
  {
    if s != [] {
      TokenOfClean(s[1..]);
      assert s == [s[0]] + s[1..];
    }
  }

  lemma AddrPortClean(address: string, port: int)
    requires NoSpace(address)
    ensures NoSpace(AddrPort(address, port))
    ensures ScanString(AddrPort(address, port)) == Some(AddrPort(address, port))
  {
    var s := AddrPort(address, port);
    FormatIntShape(port);
    forall i | 0 <= i < |s| ensures !IsSpace(s[i]) {
      assert s[i] == if i < |address| then address[i]
                     else if i == |address| then ':' else FormatInt(port)[i - |address| - 1];
    }
    TokenOfClean(s);
  }

  /**
   Parsing undoes printing for exactly the white-space-free hosts (colons
   allowed, the empty host too) and the ports 1 to 65535.
   */
  lemma PrintThenParse(address: string, port: int)
    ensures ParseAddr(AddrPort(address, port)) == Ok(Endpoint(address, port, true))
       <==> NoSpace(address) && ValidPort(port)
  {
    if NoSpace(address) && ValidPort(port) {
      AddrPortClean(address, port);
      LastColonOfAddrPort(address, port);
      ScanFormat(port);
    } else if ParseAddr(AddrPort(address, port)).Ok? {
      ParsedIsClean(AddrPort(address, port));
    }
  }

  /** Re-parsing the printed form of any parsed address changes nothing. */
  lemma ParseIsStable(addr: string)
    requires ParseAddr(addr).Ok?
    ensures ParseAddr(EndpointText(ParseAddr(addr).value)) == ParseAddr(addr)
  {
    ParsedIsClean(addr);
    PrintThenParse(ParseAddr(addr).value.address, ParseAddr(addr).value.port);
  }

  // ---------------------------------------------------------------------
  // What parses
  // ---------------------------------------------------------------------

  /** Below 128, white space is the blank and the five characters from tab to carriage return. */
  lemma AsciiSpaces(c: char)
    requires c as int < 128
    ensures IsSpace(c) <==> c == ' ' || '\t' <= c <= '\r'
  {
  }

  /** The parts of a text that reads as an address: white space, host, sign, digits, and what is ignored. */
  datatype Parts = Parts(space: string, host: string, sign: string, digits: string, junk: string, tail: string)

  function PortText(p: Parts): string { p.sign + p.digits + p.junk }

  function TokenText(p: Parts): string { p.host + ":" + PortText(p) }

  /** The text is made of these parts, and splits nowhere else. */
  ghost predicate Reads(addr: string, p: Parts) {
    && addr == p.space + TokenText(p) + p.tail
    && (forall i :: 0 <= i < |p.space| ==> IsSpace(p.space[i]) && p.space[i] != '\n')
    && NoSpace(TokenText(p)) && (p.tail != [] ==> IsSpace(p.tail[0]))
    && (forall i :: 0 <= i < |PortText(p)| ==> PortText(p)[i] != ':')
    && p.sign in {"", "+", "-"} && p.digits != [] && AllDigits(p.digits)
    && (p.junk != [] ==> !IsDigit(p.junk[0]))
  }

  lemma {:induction false} SpaceIsSkipped(space: string, rest: string)
    requires forall i :: 0 <= i < |space| ==> IsSpace(space[i]) && space[i] != '\n'
    requires rest != [] && !IsSpace(rest[0])
    ensures SkipSpace(space + rest) == Some(rest)
  {
    if space == [] {
      assert space + rest == rest;
    } else {
      assert (space + rest)[1..] == space[1..] + rest;
      SpaceIsSkipped(space[1..], rest);
    }
  }

  lemma {:induction false} TokenEnds(token: string, tail: string)
    requires NoSpace(token) && (tail != [] ==> IsSpace(tail[0]))
    ensures Token(token + tail) == token
  {
    if token == [] {
      assert token + tail == tail;
    } else {
      assert (token + tail)[1..] == token[1..] + tail;
      TokenEnds(token[1..], tail);
      assert token == [token[0]] + token[1..];
    }
  }

  lemma {:induction false} DigitsEnd(digits: string, junk: string)
    requires AllDigits(digits) && (junk != [] ==> !IsDigit(junk[0]))
    ensures DigitPrefix(digits + junk) == |digits|
  {
    if digits == [] {
      assert digits + junk == junk;
    } else {
      assert (digits + junk)[1..] == digits[1..] + junk;
      DigitsEnd(digits[1..], junk);
    }
  }

  /** The number a port text scans to. */
  function Signed(sign: string, digits: string): int
    requires AllDigits(digits)
  {
    if sign == "-" then -(Value(digits) as int) else Value(digits)
  }

  lemma ScansTo(sign: string, digits: string, junk: string)
    requires sign in {"", "+", "-"} && digits != [] && AllDigits(digits) && (junk != [] ==> !IsDigit(junk[0]))
    ensures var v := Signed(sign, digits);
      ScanInt(sign + digits + junk) == if INT64_MIN <= v <= INT64_MAX then Some(v) else None
  {
    var s := sign + digits + junk;
    DigitsEnd(digits, junk);
    assert IsDigit(digits[0]);
    var rest := digits + junk;
    assert s == sign + rest;
    assert s[0] == if sign == "" then digits[0] else sign[0];
    assert (if sign == "" then s else s[1..]) == rest;
    assert s[0] == '-' || s[0] == '+' <==> sign != "";
    assert rest[..|digits|] == digits;
  }

  lemma ColonOfToken(p: Parts)
    requires forall i :: 0 <= i < |PortText(p)| ==> PortText(p)[i] != ':'
    ensures LastColon(TokenText(p)) == |p.host|
    ensures TokenText(p)[..|p.host|] == p.host && TokenText(p)[|p.host| + 1..] == PortText(p)
  {
    var t := TokenText(p);
    assert t[|p.host|] == ':';
    forall j | |p.host| < j < |t| ensures t[j] != ':' { assert t[j] == PortText(p)[j - |p.host| - 1]; }
  }

  lemma PartsScan(addr: string, p: Parts)
    requires Reads(addr, p)
    ensures ScanString(addr) == Some(TokenText(p))
  {
    var t := TokenText(p);
    assert !IsSpace(t[0]);
    assert addr == p.space + (t + p.tail);
    SpaceIsSkipped(p.space, t + p.tail);
    TokenEnds(t, p.tail);
  }

  /** A text made of such parts parses to its host and the value of its digits, if that is a port. */
  lemma PartsParse(addr: string, p: Parts)
    requires Reads(addr, p)
    ensures p.sign != "-" && ValidPort(Value(p.digits)) ==>
              ParseAddr(addr) == Ok(Endpoint(p.host, Value(p.digits), true))
    ensures p.sign == "-" || !ValidPort(Value(p.digits)) ==> ParseAddr(addr).Err?
  {
    PartsScan(addr, p);
    ColonOfToken(p);
    ScansTo(p.sign, p.digits, p.junk);
    hide ScanString, LastColon, ScanInt, TokenText;
  }

  lemma {:induction false} SpaceSplits(s: string) returns (space: string)
    requires SkipSpace(s).Some?
    ensures s == space + SkipSpace(s).value
    ensures forall i :: 0 <= i < |space| ==> IsSpace(space[i]) && space[i] != '\n'
    ensures SkipSpace(s).value != [] ==> !IsSpace(SkipSpace(s).value[0])
  {
    if s != [] && IsSpace(s[0]) {
      var later := SpaceSplits(s[1..]);
      space := [s[0]] + later;
      assert s == [s[0]] + s[1..];
    } else {
      space := [];
    }
  }

  lemma {:induction false} TokenSplits(s: string) returns (tail: string)
    ensures s == Token(s) + tail && (tail != [] ==> IsSpace(tail[0]))
  {
    if s != [] && !IsSpace(s[0]) {
      tail := TokenSplits(s[1..]);
      assert s == [s[0]] + s[1..];
    } else {
      tail := s;
    }
  }

  /** What scans to a number is a sign, digits, and the rest. */
  lemma ScanSplits(s: string) returns (sign: string, digits: string, junk: string)
    requires ScanInt(s).Some?
    ensures s == sign + digits + junk && sign in {"", "+", "-"}
    ensures digits != [] && AllDigits(digits) && (junk != [] ==> !IsDigit(junk[0]))
    ensures ScanInt(s).value == Signed(sign, digits)
  {
    hide Value;
    var signed := s != [] && (s[0] == '-' || s[0] == '+');
    var rest := if signed then s[1..] else s;
    sign := if signed then s[..1] else [];
    digits, junk := rest[..DigitPrefix(rest)], rest[DigitPrefix(rest)..];
    assert s == sign + rest && rest == digits + junk;
    if signed { assert s[..1] == [s[0]]; }
  }

  /** A token with a number after its last colon. */
  lemma TokenHasParts(t: string, space: string, tail: string) returns (p: Parts)
    requires LastColon(t) >= 0 && ScanInt(t[LastColon(t) + 1..]).Some?
    ensures TokenText(p) == t && p.space == space && p.tail == tail && p.host == t[..LastColon(t)]
    ensures p.sign in {"", "+", "-"} && p.digits != [] && AllDigits(p.digits) && (p.junk != [] ==> !IsDigit(p.junk[0]))
    ensures ScanInt(t[LastColon(t) + 1..]).value == Signed(p.sign, p.digits)
    ensures PortText(p) == t[LastColon(t) + 1..]
    ensures forall i :: 0 <= i < |PortText(p)| ==> PortText(p)[i] != ':'
  {
    hide ScanInt, LastColon, Value;
    var c := LastColon(t);
    var sign, digits, junk := ScanSplits(t[c + 1..]);
    p := Parts(space, t[..c], sign, digits, junk, tail);
    assert PortText(p) == t[c + 1..];
    assert t == t[..c] + [t[c]] + t[c + 1..];
  }

  /** What parses is made of such parts. */
  lemma ParsedHasParts(addr: string) returns (p: Parts)
    requires ParseAddr(addr).Ok?
    ensures Reads(addr, p) && p.sign != "-" && ValidPort(Value(p.digits))
  {
    hide ScanInt, Token, Value, PortText, TokenText, IsSpace, IsDigit, LastColon;
    var space := SpaceSplits(addr);
    var rest := SkipSpace(addr).value;
    var tail := TokenSplits(rest);
    p := TokenHasParts(Token(rest), space, tail);
    assert addr == space + TokenText(p) + tail;
  }

  /**
   The parser accepts exactly the texts that read: after any white space
   without a newline, a host, a colon, an optional plus sign and the digits of
   a port; what follows the digits, and what follows the first white space
   after that, is ignored. The result is that host and that port.
   */
  lemma {:induction false} ParsesIff(addr: string, ep: Endpoint)
    ensures ParseAddr(addr) == Ok(ep)
       <==> exists p :: Reads(addr, p) && p.sign != "-" && ValidPort(Value(p.digits))
                        && ep == Endpoint(p.host, Value(p.digits), true)
  {
    if ParseAddr(addr) == Ok(ep) {
      var p := ParsedHasParts(addr);
      PartsParse(addr, p);
    }
    forall p | Reads(addr, p) && p.sign != "-" && ValidPort(Value(p.digits))
      ensures ParseAddr(addr) == Ok(Endpoint(p.host, Value(p.digits), true))
    {
      PartsParse(addr, p);
    }
  }

  lemma {:induction false} SpacesBefore(s: string, n: nat)
    requires n <= |s| && forall i :: 0 <= i < n ==> IsSpace(s[i]) && s[i] != '\n'
    ensures SkipSpace(s) == SkipSpace(s[n..])
  {
    if n > 0 {
      assert forall i :: 0 <= i < n - 1 ==> s[1..][i] == s[i + 1];
      SpacesBefore(s[1..], n - 1);
      assert s[1..][n - 1..] == s[n..];
    } else {
      assert s[0..] == s;
    }
  }

  /** White space fills the text, or the first `n` characters before a newline. */
  ghost predicate BlankUpTo(s: string, n: nat) {
    && n <= |s| && (n < |s| ==> s[n] == '\n')
    && forall i :: 0 <= i < n ==> IsSpace(s[i]) && s[i] != '\n'
  }

  /** An address counts as empty exactly if white space fills it, or leads up to a newline. */
  lemma {:induction false} EmptyIff(addr: string)
    ensures ParseAddr(addr) == Err(EmptyAddress) <==> exists n: nat :: BlankUpTo(addr, n)
  {
    if n: nat :| BlankUpTo(addr, n) {
      SpacesBefore(addr, n);
      assert addr[n..] == [] || addr[n..][0] == '\n';
    } else {
      NotEmpty(addr, 0);
    }
  }

  /** With no newline or end after white space only, something is left to scan. */
  lemma NotEmpty(s: string, n: nat)
    requires n <= |s| && forall i :: 0 <= i < n ==> IsSpace(s[i]) && s[i] != '\n'
    requires !exists m: nat :: BlankUpTo(s, m)
    ensures SkipSpace(s).Some? && SkipSpace(s).value != []
    decreases |s| - n
  {
    SpacesBefore(s, n);
    assert !BlankUpTo(s, n);
    assert s[n..][0] == s[n];
    if IsSpace(s[n]) { NotEmpty(s, n + 1); }
  }

  /** Why a token is not an address: it has no colon, no number after the last one, or one that is no port. */
  lemma ErrorsBecause(addr: string, t: string)
    requires ScanString(addr) == Some(t)
    ensures ':' !in t ==> ParseAddr(addr) == Err(NoPort)
    ensures forall host, port :: t == host + ":" + port && ':' !in port ==>
              && (ScanInt(port).None? ==> ParseAddr(addr) == Err(NonNumericPort))
              && (ScanInt(port).Some? && !ValidPort(ScanInt(port).value) ==> ParseAddr(addr) == Err(OutOfRangePort))
  {
    hide ScanString, ScanInt;
    assert LastColon(t) >= 0 ==> t[LastColon(t)] in t;
    forall host, port | t == host + ":" + port && ':' !in port
      ensures LastColon(t) == |host| && t[|host| + 1..] == port
    {
      assert t[|host|] == ':';
      forall j | |host| < j < |t| ensures t[j] != ':' { assert t[j] == port[j - |host| - 1]; }
    }
  }
}
