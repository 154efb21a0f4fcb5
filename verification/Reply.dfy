/** The x-amz-rdma-reply value: its grammar, the code that parses it, and what it says about a
    transfer. */
module Reply {
  import opened Basics
  import opened Numbers
  import opened TokenCodec

  /** 200 for "ok" and -1 for "err". */
  datatype ParsedReply = ParsedReply(httpCode: int, peerToken: Option<RdmaToken>)

  datatype Status = Success | Failed | NotSupported

  const UINT_MAX: int := 0xFFFF_FFFF
  const NOT_IMPLEMENTED: int := 501

  // ----- The grammar -----

  predicate Ignored(c: char) { c == '\0' || c == '\n' || c == '\r' }

  predicate AllIgnored(s: string) { forall i :: 0 <= i < |s| ==> Ignored(s[i]) }

  predicate SaysStatus(value: string, p: ParsedReply) {
    100 <= p.httpCode <= 599 && value == Print(p.httpCode, 10) && p.peerToken == None
  }

  predicate SaysToken(value: string, p: ParsedReply) {
    && |value| >= 4 && value[..4] == "200:"
    && p.httpCode == 200 && p.peerToken.Some? && p.peerToken == DecodeHex(value[4..])
  }

  /** The forms of a value, and what each says. */
  predicate Says(value: string, p: ParsedReply) {
    || (value == "ok" && p == ParsedReply(200, None))
    || (value == "err" && p == ParsedReply(-1, None))
    || SaysStatus(value, p)
    || SaysToken(value, p)
  }

  // ----- The code -----

  /** The value without the characters ignored at its end. */
  function Trim(s: string): string {
    if s != "" && Ignored(s[|s| - 1]) then Trim(s[..|s| - 1]) else s
  }

  /** Up to the first ':', or all of it. */
  function BeforeColon(s: string): (r: string)
    ensures |r| <= |s| && r == s[..|r|]
    ensures |r| < |s| ==> s[|r|] == ':'
  {
    if s == "" || s[0] == ':' then "" else [s[0]] + BeforeColon(s[1..])
  }

  function StatusCode(status: string): Option<int> {
    var parsed := ParseNumber(status, 10, 0, UINT_MAX);
    if |status| != 3 || parsed.None? || parsed.value < 100 || parsed.value > 599 then None else parsed
  }

  function ParseValue(value: string): Option<ParsedReply> {
    if value == "ok" then Some(ParsedReply(200, None))
    else if value == "err" then Some(ParsedReply(-1, None))
    else
      var status := BeforeColon(value);
      var code := StatusCode(status);
      if code.None? then None
      else if |status| == |value| then Some(ParsedReply(code.value, None))
      else if code.value != 200 then None
      else
        var token := DecodeHex(value[|status| + 1..]);
        if token.None? then None else Some(ParsedReply(200, token))
  }

  function Parse(reply: string): Option<ParsedReply> { ParseValue(Trim(reply)) }

  method TrimEnd(reply: string) returns (value: string)
    ensures value == Trim(reply)
  {
    value := reply;
    while value != "" && Ignored(value[|value| - 1])
      invariant Trim(value) == Trim(reply)
      decreases |value|
    {
      value := value[..|value| - 1];
    }
  }

  method ParseReply(reply: string) returns (r: Option<ParsedReply>)
    ensures r == Parse(reply)
  {
    var value := TrimEnd(reply);
    if value == "ok" {
      return Some(ParsedReply(200, None));
    }
    if value == "err" {
      return Some(ParsedReply(-1, None));
    }
    var status := BeforeColon(value);
    if |status| != 3 {
      return None;
    }
    var parsed := ParseNumber(status, 10, 0, UINT_MAX);
    if parsed.None? || parsed.value < 100 || parsed.value > 599 {
      return None;
    }
    if |status| == |value| {
      return Some(ParsedReply(parsed.value, None));
    }
    if parsed.value != 200 {
      return None;
    }
    var token := DecodeRdmaTokenHex(value[|status| + 1..]);
    if token.None? {
      return None;
    }
    return Some(ParsedReply(parsed.value, token));
  }

  function IsSuccessCode(code: int): bool { code == 200 || code == 204 || code == 206 }

  function DecodeReply(reply: string): Option<Status> {
    var parsed := Parse(reply);
    if parsed.None? then None
    else if parsed.value.httpCode == NOT_IMPLEMENTED then Some(NotSupported)
    else if IsSuccessCode(parsed.value.httpCode) then Some(Success)
    else Some(Failed)
  }

  function PeerToken(reply: string): Option<RdmaToken> {
    var parsed := Parse(reply);
    if parsed.None? then None else parsed.value.peerToken
  }

  function EncodeWithPeerToken(httpCode: int, peerToken: RdmaToken): string {
    Print(httpCode, 10) + ":" + EncodeHex(peerToken)
  }

  // ----- Trimming -----

  lemma {:induction false} TrimSplits(s: string)
    ensures |Trim(s)| <= |s| && s == Trim(s) + s[|Trim(s)|..] && AllIgnored(s[|Trim(s)|..])
  {
    if s != "" && Ignored(s[|s| - 1]) {
      var front := s[..|s| - 1];
      TrimSplits(front);
      var k := |Trim(front)|;
      assert s[k..] == front[k..] + [s[|s| - 1]];
      assert s == front + [s[|s| - 1]];
    }
  }

  lemma {:induction false} TrimOf(value: string, tail: string)
    requires AllIgnored(tail)
    requires value == "" || !Ignored(value[|value| - 1])
    ensures Trim(value + tail) == value
    decreases |tail|
  {
    if tail == "" {
      assert value + tail == value;
    } else {
      var front := tail[..|tail| - 1];
      assert (value + tail)[..|value + tail| - 1] == value + front;
      TrimOf(value, front);
    }
  }

  // ----- Three-digit statuses -----

  lemma DecimalDigit(c: char)
    requires IsDigit(c, 10)
    ensures DigitChar(DigitValue(c)) == c && c != ':' && !Ignored(c) && c != 'k' && c != 'r'
  {
  }

  lemma ValueOfThree(s: string)
    requires |s| == 3
    ensures Value(s, 10) == 100 * DigitValue(s[0]) + 10 * DigitValue(s[1]) + DigitValue(s[2])
  {
    assert s[..1][..0] == "";
    assert Value(s[..1], 10) == DigitValue(s[0]);
    assert s[..2][..1] == s[..1];
    assert Value(s[..2], 10) == 10 * DigitValue(s[0]) + DigitValue(s[1]);
  }

  lemma PrintThree(code: nat)
    requires 100 <= code <= 999
    ensures Print(code, 10) == [DigitChar(code / 100), DigitChar(code / 10 % 10), DigitChar(code % 10)]
  {
    assert PrintNat(code, 10) == PrintNat(code / 10, 10) + [DigitChar(code % 10)];
    assert PrintNat(code / 10, 10) == PrintNat(code / 10 / 10, 10) + [DigitChar(code / 10 % 10)];
    assert PrintNat(code / 100, 10) == [DigitChar(code / 100)];
  }

  lemma ThreeDigitsPrinted(s: string)
    requires |s| == 3 && AllDigits(s, 10) && 100 <= Value(s, 10)
    ensures s == Print(Value(s, 10), 10)
  {
    assert IsDigit(s[0], 10) && IsDigit(s[1], 10) && IsDigit(s[2], 10);
    DecimalDigit(s[0]);
    DecimalDigit(s[1]);
    DecimalDigit(s[2]);
    ValueOfThree(s);
    SplitThree(Value(s, 10), DigitValue(s[0]), DigitValue(s[1]), DigitValue(s[2]));
    PrintThree(Value(s, 10));
    assert s == [s[0], s[1], s[2]];
  }

  lemma SplitThree(v: nat, a: nat, b: nat, c: nat)
    requires a < 10 && b < 10 && c < 10 && v == 100 * a + 10 * b + c
    ensures v / 100 == a && v / 10 % 10 == b && v % 10 == c
  {
    assert v / 10 == 10 * a + b;
  }

  lemma PrintedIsStatus(code: int)
    requires 100 <= code <= 599
    ensures StatusCode(Print(code, 10)) == Some(code)
  {
    PrintThree(code);
    PrintThenParse(code, 10, 0, UINT_MAX);
  }

  lemma StatusWasPrinted(s: string, code: int)
    requires StatusCode(s) == Some(code)
    ensures 100 <= code <= 599 && s == Print(code, 10)
  {
    ParsesExactlyNumerals(s, 10, 0, UINT_MAX, code);
    ThreeDigitsPrinted(s);
  }

  /** The three-character statuses are the printed codes. */
  lemma StatusIsPrinted(s: string, code: int)
    ensures StatusCode(s) == Some(code) <==> 100 <= code <= 599 && s == Print(code, 10)
  {
    if StatusCode(s) == Some(code) { StatusWasPrinted(s, code); }
    if 100 <= code <= 599 && s == Print(code, 10) { PrintedIsStatus(code); }
  }

  // ----- Colons -----

  lemma {:induction false} BeforeColonAll(s: string)
    requires forall i :: 0 <= i < |s| ==> s[i] != ':'
    ensures BeforeColon(s) == s
  {
    if s == "" {
    } else {
      BeforeColonAll(s[1..]);
    }
  }

  lemma {:induction false} BeforeColonOf(s: string, rest: string)
    requires forall i :: 0 <= i < |s| ==> s[i] != ':'
    ensures BeforeColon(s + ":" + rest) == s
  {
    if s == "" {
      assert s + ":" + rest == ":" + rest;
    } else {
      assert (s + ":" + rest)[1..] == s[1..] + ":" + rest;
      BeforeColonOf(s[1..], rest);
    }
  }

  lemma PrintHasNoColon(code: int)
    ensures forall i :: 0 <= i < |Print(code, 10)| ==> Print(code, 10)[i] != ':'
  {
    var digits := if code < 0 then PrintNat(-code, 10) else PrintNat(code, 10);
    PrintedValue(if code < 0 then -code else code, 10);
    forall i | 0 <= i < |digits|
      ensures digits[i] != ':'
    {
      assert IsDigit(digits[i], 10);
      DecimalDigit(digits[i]);
    }
  }

  lemma Print200()
    ensures Print(200, 10) == "200"
  {
    PrintThree(200);
    assert DigitChar(2) == '2' && DigitChar(0) == '0';
  }

  // ----- The parser accepts exactly the grammar -----

  lemma StatusForm(value: string, p: ParsedReply)
    requires SaysStatus(value, p)
    ensures ParseValue(value) == Some(p)
    ensures !Ignored(value[|value| - 1])
  {
    PrintHasNoColon(p.httpCode);
    BeforeColonAll(value);
    StatusIsPrinted(value, p.httpCode);
    PrintThree(p.httpCode);
    PrintedValue(p.httpCode, 10);
    assert IsDigit(value[2], 10);
    DecimalDigit(value[2]);
  }

  lemma TokenForm(value: string, p: ParsedReply)
    requires SaysToken(value, p)
    ensures ParseValue(value) == Some(p)
    ensures !Ignored(value[|value| - 1])
  {
    var hex := value[4..];
    assert value == "200" + ":" + hex;
    Print200();
    PrintHasNoColon(200);
    BeforeColonOf("200", hex);
    StatusIsPrinted("200", 200);
    DecodesExactly(hex);
    assert value[|value| - 1] == hex[|hex| - 1];
  }

  lemma FormsAreParsed(value: string, p: ParsedReply)
    requires Says(value, p)
    ensures ParseValue(value) == Some(p)
    ensures value != "" && !Ignored(value[|value| - 1])
  {
    if SaysStatus(value, p) {
      StatusForm(value, p);
      PrintThree(p.httpCode);
    } else if SaysToken(value, p) {
      TokenForm(value, p);
    }
  }

  lemma ParsedAreForms(value: string, p: ParsedReply)
    requires ParseValue(value) == Some(p)
    ensures Says(value, p)
  {
    if value != "ok" && value != "err" {
      var status := BeforeColon(value);
      StatusIsPrinted(status, p.httpCode);
      Print200();
      if |status| == |value| {
        assert status == value;
      } else {
        assert value[..4] == value[..3] + [value[3]];
        assert SaysToken(value, p);
      }
    }
  }

  /** A form of the grammar, followed by a run of characters that are ignored. */
  predicate SplitsAt(reply: string, k: nat, p: ParsedReply) {
    k <= |reply| && Says(reply[..k], p) && AllIgnored(reply[k..])
  }

  ghost predicate InGrammar(reply: string, p: ParsedReply) {
    exists k :: SplitsAt(reply, k, p)
  }

  lemma ParsedIsInGrammar(reply: string, p: ParsedReply)
    requires Parse(reply) == Some(p)
    ensures InGrammar(reply, p)
  {
    TrimSplits(reply);
    var k := |Trim(reply)|;
    assert reply[..k] == Trim(reply);
    ParsedAreForms(Trim(reply), p);
    assert SplitsAt(reply, k, p);
  }

  lemma SplitIsParsed(reply: string, k: nat, p: ParsedReply)
    requires SplitsAt(reply, k, p)
    ensures Parse(reply) == Some(p)
  {
    FormsAreParsed(reply[..k], p);
    TrimOf(reply[..k], reply[k..]);
    assert reply == reply[..k] + reply[k..];
  }

  /** parseReply() accepts exactly the grammar, followed by any run of NUL, CR and LF, and reports
      what the form says. */
  lemma ParsesExactlyTheGrammar(reply: string, p: ParsedReply)
    ensures Parse(reply) == Some(p) <==> InGrammar(reply, p)
  {
    if Parse(reply) == Some(p) { ParsedIsInGrammar(reply, p); }
    if InGrammar(reply, p) {
      var k: nat :| SplitsAt(reply, k, p);
      SplitIsParsed(reply, k, p);
    }
  }

  /** A reply that carries a token is a success, with status 200, and the token is the one it
      carries: only its case can differ from the encoding. */
  lemma PeerTokenMeansSuccess(reply: string)
    requires PeerToken(reply).Some?
    ensures DecodeReply(reply) == Some(Success)
    ensures exists k :: (
      && 0 <= k <= |reply| && AllIgnored(reply[k..])
      && Lower(reply[..k]) == EncodeWithPeerToken(200, PeerToken(reply).value))
  {
    var value := Trim(reply);
    var k := |value|;
    TrimSplits(reply);
    assert reply[..k] == value;
    ParsedAreForms(value, Parse(reply).value);
    EncodeAfterDecode(value[4..]);
    Print200();
    LowerOfToken(value[4..]);
    assert value == "200:" + value[4..];
  }

  /** Trailing NUL, LF and CR change nothing, and a reply that ends in anything else but a digit or letter of
      its form is not one: a blank, for instance, is not ignored. */
  lemma TrailingCharacters(reply: string, c: char)
    ensures c == '\0' || c == '\n' || c == '\r' ==> Parse(reply + [c]) == Parse(reply)
    ensures c == ' ' || c == '\t' ==> Parse(reply + [c]) == None
  {
    var longer := reply + [c];
    assert longer[..|longer| - 1] == reply;
    if c == ' ' || c == '\t' {
      if Parse(longer).Some? { EndsInItsForm(longer, Parse(longer).value); }
    }
  }

  /** The value of a reply that parses ends in a letter or a digit. */
  lemma EndsInItsForm(reply: string, p: ParsedReply)
    requires Parse(reply) == Some(p)
    ensures Trim(reply) != "" && Trim(reply)[|Trim(reply)| - 1] != ' ' && Trim(reply)[|Trim(reply)| - 1] != '\t'
  {
    var value := Trim(reply);
    ParsedAreForms(value, p);
    if SaysStatus(value, p) {
      PrintThree(p.httpCode);
      PrintedValue(p.httpCode, 10);
      assert IsDigit(value[2], 10);
    } else if SaysToken(value, p) {
      DecodesExactly(value[4..]);
      assert IsHexDigit(value[4..][|value| - 5]);
    }
  }

  /** A plain success is accepted, and carries no token to connect with. */
  lemma PlainSuccessHasNoToken()
    ensures DecodeReply("ok") == Some(Success) && PeerToken("ok").None?
    ensures DecodeReply("200") == Some(Success) && PeerToken("200").None?
  {
    TrimOf("ok", "");
    assert "ok" + "" == "ok";
    Print200();
    assert SaysStatus("200", ParsedReply(200, None));
    FormsAreParsed("200", ParsedReply(200, None));
    TrimOf("200", "");
    assert "200" + "" == "200";
  }

  lemma {:induction false} LowerAppendAll(s: string, u: string)
    ensures Lower(s + u) == Lower(s) + Lower(u)
    decreases |u|
  {
    if u == "" {
      assert s + u == s;
    } else {
      var front := u[..|u| - 1];
      assert (s + u)[..|s + u| - 1] == s + front;
      LowerAppendAll(s, front);
    }
  }

  lemma LowerOfToken(hex: string)
    ensures Lower("200:" + hex) == "200" + ":" + Lower(hex)
  {
    LowerAppendAll("200:", hex);
    LowerAppend("", '2', '0');
    LowerAppend("20", '0', ':');
    assert "" + ['2', '0'] == "20" && "20" + ['0', ':'] == "200:";
  }

  lemma PrintedCodeIs200(code: int)
    ensures StatusCode(Print(code, 10)) == Some(200) <==> code == 200
  {
    StatusIsPrinted(Print(code, 10), 200);
    if Print(code, 10) == Print(200, 10) { PrintIsInjective(code, 200); }
  }

  /** A status, a colon and a token parse exactly when the status is 200. */
  lemma ParseWithToken(status: string, t: RdmaToken)
    requires forall i :: 0 <= i < |status| ==> status[i] != ':'
    ensures ParseValue(status + ":" + EncodeHex(t)) ==
      if StatusCode(status) == Some(200) then Some(ParsedReply(200, Some(t))) else None
  {
    var value := status + ":" + EncodeHex(t);
    BeforeColonOf(status, EncodeHex(t));
    assert value[|status| + 1..] == EncodeHex(t);
    assert value[|status|] == ':';
    DecodeAfterEncode(t);
  }

  lemma EncodedIsTrimmed(code: int, t: RdmaToken)
    ensures Trim(EncodeWithPeerToken(code, t)) == EncodeWithPeerToken(code, t)
  {
    var value, hex := EncodeWithPeerToken(code, t), EncodeHex(t);
    DecodeAfterEncode(t);
    DecodesExactly(hex);
    assert value[|value| - 1] == hex[|hex| - 1];
    assert IsHexDigit(hex[|hex| - 1]);
  }

  /** The encoder's replies: code 200 round-trips, and any other code gives a reply that the
      parser rejects, even though the encoder takes it. */
  lemma EncodedReplyParsesIff200(code: int, t: RdmaToken)
    ensures Parse(EncodeWithPeerToken(code, t)) == if code == 200 then Some(ParsedReply(200, Some(t))) else None
  {
    EncodedIsTrimmed(code, t);
    PrintHasNoColon(code);
    ParseWithToken(Print(code, 10), t);
    PrintedCodeIs200(code);
  }

  lemma PrintIsInjective(a: int, b: int)
    requires Print(a, 10) == Print(b, 10)
    ensures a == b
  {
    var bound := (if a < 0 then -a else a) + (if b < 0 then -b else b);
    PrintThenParse(a, 10, -bound, bound);
    PrintThenParse(b, 10, -bound, bound);
  }

  /** What a well-formed reply says about the transfer. */
  lemma StatusMeaning(reply: string)
    ensures DecodeReply(reply) == Some(Success) <==>
      InGrammar(reply, ParsedReply(200, None)) || InGrammar(reply, ParsedReply(204, None))
      || InGrammar(reply, ParsedReply(206, None)) || PeerToken(reply).Some?
    ensures DecodeReply(reply) == Some(NotSupported) <==> InGrammar(reply, ParsedReply(501, None))
    ensures DecodeReply(reply) == None <==> forall p :: !InGrammar(reply, p)
  {
    ParsesExactlyTheGrammar(reply, ParsedReply(200, None));
    ParsesExactlyTheGrammar(reply, ParsedReply(204, None));
    ParsesExactlyTheGrammar(reply, ParsedReply(206, None));
    ParsesExactlyTheGrammar(reply, ParsedReply(501, None));
    if Parse(reply).Some? {
      ParsesExactlyTheGrammar(reply, Parse(reply).value);
    }
    forall p | InGrammar(reply, p)
      ensures Parse(reply) == Some(p)
    {
      ParsesExactlyTheGrammar(reply, p);
    }
    if PeerToken(reply).Some? { PeerTokenMeansSuccess(reply); }
  }
}
