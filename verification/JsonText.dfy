/** The text form of a token array: the compact JSON that json-c prints and the part of
    JSON parsing that reads it back. A `char` stands for one byte. */
module JsonText {
  import opened Traces
  import opened Codec

  const NUL: char := '\0'

  ghost predicate NulFree(s: string) {
    forall i :: 0 <= i < |s| ==> s[i] != NUL
  }

  // ---------------------------------------------------------------------------
  // Printing

  const DIGITS := "0123456789"
  const HEX_DIGITS := "0123456789abcdef"

  function PrintNat(n: nat): (s: string)
    ensures |s| > 0
  {
    if n < 10 then [DIGITS[n]] else PrintNat(n / 10) + [DIGITS[n % 10]]
  }

  function PrintInt(n: int): string {
    if n < 0 then "-" + PrintNat(-n) else PrintNat(n)
  }

  function EscapeChar(c: char): string {
    if c == '\"' then "\\\""
    else if c == '\\' then "\\\\"
    else if c == '/' then "\\/"
    else if c == 8 as char then "\\b"
    else if c == '\n' then "\\n"
    else if c == '\r' then "\\r"
    else if c == '\t' then "\\t"
    else if c == 12 as char then "\\f"
    else if c < ' ' then "\\u00" + [HEX_DIGITS[c as int / 16], HEX_DIGITS[c as int % 16]]
    else [c]
  }

  function Escape(s: string): string {
    if s == "" then "" else EscapeChar(s[0]) + Escape(s[1..])
  }

  function PrintToken(t: Token): string {
    match t
    case Null => "null"
    case Bool(b) => if b then "true" else "false"
    case Int(n) => PrintInt(n)
    case Str(s) => "\"" + (Escape(s) + "\"")
  }

  /** The elements with their separators and the closing bracket. */
  function PrintItems(ts: seq<Token>): string
    requires ts != []
  {
    PrintToken(ts[0]) + (if |ts| == 1 then "]" else "," + PrintItems(ts[1..]))
  }

  function Print(ts: seq<Token>): string {
    if ts == [] then "[]" else "[" + PrintItems(ts)
  }

  // ---------------------------------------------------------------------------
  // Parsing

  predicate IsDigit(c: char) { '0' <= c <= '9' }

  function DigitValue(c: char): nat
    requires IsDigit(c)
  {
    c as int - '0' as int
  }

  function HexValue(c: char): Option<nat> {
    if IsDigit(c) then Some(DigitValue(c))
    else if 'a' <= c <= 'f' then Some(10 + (c as int - 'a' as int))
    else None
  }

  /** Reads on while there are digits. */
  function ParseDigits(value: nat, s: string): (nat, string)
    decreases |s|
  {
    if s != "" && IsDigit(s[0]) then ParseDigits(10 * value + DigitValue(s[0]), s[1..])
    else (value, s)
  }

  /** The character behind a backslash. */
  function Unescape(s: string): (r: Option<(char, string)>)
    ensures r.Some? ==> |r.value.1| < |s|
  {
    if s == "" then None
    else if s[0] == '\"' || s[0] == '\\' || s[0] == '/' then Some((s[0], s[1..]))
    else if s[0] == 'b' then Some((8 as char, s[1..]))
    else if s[0] == 'n' then Some(('\n', s[1..]))
    else if s[0] == 'r' then Some(('\r', s[1..]))
    else if s[0] == 't' then Some(('\t', s[1..]))
    else if s[0] == 'f' then Some((12 as char, s[1..]))
    else if s[0] == 'u' && |s| >= 5 && s[1] == '0' && s[2] == '0'
         && HexValue(s[3]).Some? && HexValue(s[4]).Some? then
      Some(((16 * HexValue(s[3]).value + HexValue(s[4]).value) as char, s[5..]))
    else None
  }

  /** The rest of a string literal, up to and including the closing quote. */
  function ParseLiteral(s: string): (r: Option<(string, string)>)
    ensures r.Some? ==> |r.value.1| < |s|
    decreases |s|
  {
    if s == "" then None
    else if s[0] == '\"' then Some(("", s[1..]))
    else if s[0] == '\\' then
      match Unescape(s[1..])
      case None => None
      case Some((c, rest)) => PrependChar(c, ParseLiteral(rest))
    else PrependChar(s[0], ParseLiteral(s[1..]))
  }

  function PrependChar(c: char, r: Option<(string, string)>): Option<(string, string)> {
    match r
    case None => None
    case Some((text, rest)) => Some(([c] + text, rest))
  }

  function ParseToken(s: string): (r: Option<(Token, string)>)
    ensures r.Some? ==> |r.value.1| < |s|
  {
    if s == "" then None
    else if "null" <= s then Some((Null, s[4..]))
    else if "true" <= s then Some((Bool(true), s[4..]))
    else if "false" <= s then Some((Bool(false), s[5..]))
    else if s[0] == '\"' then
      match ParseLiteral(s[1..])
      case None => None
      case Some((text, rest)) => Some((Str(text), rest))
    else if IsDigit(s[0]) then
      DigitsShrink(0, s);
      var (n, rest) := ParseDigits(0, s);
      Some((Int(n), rest))
    else if s[0] == '-' && |s| > 1 && IsDigit(s[1]) then
      DigitsShrink(0, s[1..]);
      var (n, rest) := ParseDigits(0, s[1..]);
      var m: int := n;
      Some((Int(0 - m), rest))
    else None
  }

  lemma {:induction false} DigitsShrink(value: nat, s: string)
    ensures |ParseDigits(value, s).1| <= |s|
    ensures s != "" && IsDigit(s[0]) ==> |ParseDigits(value, s).1| < |s|
    decreases |s|
  {
    if s != "" && IsDigit(s[0]) {
      DigitsShrink(10 * value + DigitValue(s[0]), s[1..]);
    }
  }

  function ParseItems(s: string): Option<seq<Token>>
    decreases |s|
  {
    match ParseToken(s)
    case None => None
    case Some((t, rest)) =>
      if rest == "]" then Some([t])
      else if rest != "" && rest[0] == ',' then
        match ParseItems(rest[1..])
        case None => None
        case Some(ts) => Some([t] + ts)
      else None
  }

  function Parse(s: string): Option<seq<Token>> {
    if s == "[]" then Some([])
    else if s != "" && s[0] == '[' then ParseItems(s[1..])
    else None
  }

  // ---------------------------------------------------------------------------
  // Parsing undoes printing

  lemma {:induction false} NatRoundTrip(n: nat, s: string)
    ensures ParseDigits(0, PrintNat(n) + s) == ParseDigits(n, s)
    ensures IsDigit(PrintNat(n)[0])
  {
    if n >= 10 {
      var last := [DIGITS[n % 10]] + s;
      assert PrintNat(n) + s == PrintNat(n / 10) + last;
      NatRoundTrip(n / 10, last);
      assert DigitValue(DIGITS[n % 10]) == n % 10;
      assert last[1..] == s;
    } else {
      assert DigitValue(DIGITS[n]) == n;
      assert (PrintNat(n) + s)[1..] == s;
    }
  }

  predicate IsShortEscape(c: char) {
    c in {'\"', '\\', '/', 8 as char, '\n', '\r', '\t', 12 as char}
  }

  lemma ShortEscapeRoundTrip(c: char, rest: string)
    requires IsShortEscape(c)
    ensures |EscapeChar(c)| == 2 && EscapeChar(c)[0] == '\\'
    ensures Unescape(EscapeChar(c)[1..] + rest) == Some((c, rest))
  {
    hide HexValue;
    var s := EscapeChar(c)[1..] + rest;
    assert s[0] == EscapeChar(c)[1] && s[1..] == rest;
  }

  lemma HexEscapeRoundTrip(c: char, rest: string)
    requires c < ' ' && !IsShortEscape(c)
    ensures |EscapeChar(c)| == 6 && EscapeChar(c)[0] == '\\'
    ensures Unescape(EscapeChar(c)[1..] + rest) == Some((c, rest))
  {
    var hi, lo := c as int / 16, c as int % 16;
    assert HexValue(HEX_DIGITS[hi]) == Some(hi) && HexValue(HEX_DIGITS[lo]) == Some(lo);
    hide HexValue;
    var s := EscapeChar(c)[1..] + rest;
    assert s == ['u', '0', '0', HEX_DIGITS[hi], HEX_DIGITS[lo]] + rest;
    assert s[5..] == rest;
  }

  lemma EscapeCharRoundTrip(c: char, rest: string)
    ensures ParseLiteral(EscapeChar(c) + rest) == PrependChar(c, ParseLiteral(rest))
  {
    var e := EscapeChar(c);
    if IsShortEscape(c) {
      ShortEscapeRoundTrip(c, rest);
    } else if c < ' ' {
      HexEscapeRoundTrip(c, rest);
    } else {
      assert e == [c];
    }
    hide EscapeChar, Unescape;
    assert (e + rest)[1..] == e[1..] + rest;
    assert [] + rest == rest;
  }

  lemma {:induction false} LiteralRoundTrip(s: string, rest: string)
    ensures ParseLiteral(Escape(s) + ("\"" + rest)) == Some((s, rest))
  {
    if s == "" {
      assert Escape(s) + ("\"" + rest) == "\"" + rest;
    } else {
      var tail := Escape(s[1..]) + ("\"" + rest);
      assert Escape(s) + ("\"" + rest) == EscapeChar(s[0]) + tail;
      EscapeCharRoundTrip(s[0], tail);
      LiteralRoundTrip(s[1..], rest);
      assert [s[0]] + s[1..] == s;
    }
  }

  lemma KeywordRoundTrip(t: Token, rest: string)
    requires t.Null? || t.Bool?
    ensures ParseToken(PrintToken(t) + rest) == Some((t, rest))
  {
    var word := PrintToken(t);
    var s := word + rest;
    assert word <= s && s[|word|..] == rest;
    assert s[0] == word[0];
  }

  lemma NoDigitsLeft(n: nat, rest: string)
    requires rest != "" && !IsDigit(rest[0])
    ensures ParseDigits(n, rest) == (n, rest)
  {
  }

  lemma IntRoundTrip(n: int, rest: string)
    requires rest != "" && !IsDigit(rest[0])
    ensures ParseToken(PrintInt(n) + rest) == Some((Int(n), rest))
  {
    hide ParseDigits, PrintNat, ParseLiteral;
    var m := if n < 0 then -n else n;
    var s := PrintInt(n) + rest;
    NatRoundTrip(m, rest);
    NoDigitsLeft(m, rest);
    assert s[0] == if n < 0 then '-' else PrintNat(m)[0];
    if n < 0 {
      assert s[1..] == PrintNat(m) + rest;
    }
  }

  lemma TokenRoundTrip(t: Token, rest: string)
    requires rest != "" && !IsDigit(rest[0])
    ensures ParseToken(PrintToken(t) + rest) == Some((t, rest))
  {
    hide ParseDigits, PrintInt, ParseLiteral, Escape;
    match t
    case Int(n) => IntRoundTrip(n, rest);
    case Str(text) =>
      var s := PrintToken(t) + rest;
      assert s[0] == '\"';
      assert s[1..] == Escape(text) + ("\"" + rest);
      LiteralRoundTrip(text, rest);
    case _ => KeywordRoundTrip(t, rest);
  }

  lemma {:induction false} ItemsRoundTrip(ts: seq<Token>)
    requires ts != []
    ensures ParseItems(PrintItems(ts)) == Some(ts)
  {
    if |ts| == 1 {
      TokenRoundTrip(ts[0], "]");
      assert ts == [ts[0]];
    } else {
      var rest := "," + PrintItems(ts[1..]);
      TokenRoundTrip(ts[0], rest);
      assert rest[1..] == PrintItems(ts[1..]);
      ItemsRoundTrip(ts[1..]);
      assert [ts[0]] + ts[1..] == ts;
    }
  }

  lemma TextRoundTrip(ts: seq<Token>)
    ensures Parse(Print(ts)) == Some(ts)
  {
    if ts != [] {
      ItemsRoundTrip(ts);
      assert Print(ts)[1..] == PrintItems(ts);
    }
  }

  // ---------------------------------------------------------------------------
  // A printed array can be framed by NUL and is never the word `stop`

  lemma {:induction false} PrintNatIsNulFree(n: nat)
    ensures NulFree(PrintNat(n))
  {
    if n >= 10 {
      PrintNatIsNulFree(n / 10);
    }
  }

  lemma EscapeCharIsNulFree(c: char)
    ensures NulFree(EscapeChar(c))
  {
  }

  lemma {:induction false} EscapeIsNulFree(s: string)
    ensures NulFree(Escape(s))
  {
    hide EscapeChar;
    if s != "" {
      EscapeCharIsNulFree(s[0]);
      EscapeIsNulFree(s[1..]);
    }
  }

  lemma TokenIsNulFree(t: Token)
    ensures NulFree(PrintToken(t))
  {
    match t
    case Int(n) => PrintNatIsNulFree(if n < 0 then -n else n);
    case Str(s) => EscapeIsNulFree(s);
    case _ =>
  }

  lemma {:induction false} ItemsAreNulFree(ts: seq<Token>)
    requires ts != []
    ensures NulFree(PrintItems(ts))
  {
    TokenIsNulFree(ts[0]);
    if |ts| > 1 {
      ItemsAreNulFree(ts[1..]);
    }
  }

  lemma TextIsAFrame(ts: seq<Token>)
    ensures NulFree(Print(ts)) && Print(ts) != "" && Print(ts) != "stop"
  {
    if ts != [] {
      ItemsAreNulFree(ts);
    }
    assert Print(ts)[0] == '[';
  }

  /** The texts of the first n tokens with commas between them. */
  function Joined(ts: seq<Token>, n: nat): string
    requires n <= |ts|
  {
    if n == 0 then "" else Joined(ts, n - 1) + (if n == 1 then "" else ",") + PrintToken(ts[n - 1])
  }

  lemma {:induction false} JoinedCons(ts: seq<Token>, n: nat)
    requires 0 < n <= |ts|
    ensures Joined(ts, n) == PrintToken(ts[0]) + if n == 1 then "" else "," + Joined(ts[1..], n - 1)
  {
    hide PrintToken;
    if n > 1 {
      JoinedCons(ts, n - 1);
      assert ts[1..][n - 2] == ts[n - 1];
    } else {
      assert Joined(ts, 0) == "" && "" + "" + PrintToken(ts[0]) == PrintToken(ts[0]) + "";
    }
  }

  lemma {:induction false} ItemsAreJoined(ts: seq<Token>)
    requires ts != []
    ensures PrintItems(ts) == Joined(ts, |ts|) + "]"
  {
    hide PrintToken;
    JoinedCons(ts, |ts|);
    if |ts| > 1 {
      ItemsAreJoined(ts[1..]);
    }
  }

  /** What the text looks like: brackets, commas without spaces between the tokens; null and the
      booleans as words, numbers in decimal, strings quoted and escaped, the slash too. */
  lemma TextLooksLikeJson(ts: seq<Token>)
    ensures Print(ts) == "[" + Joined(ts, |ts|) + "]"
    ensures PrintToken(Null) == "null" && PrintToken(Bool(true)) == "true" && PrintToken(Bool(false)) == "false"
    ensures PrintToken(Int(-12)) == "-12" && PrintToken(Str("a/b")) == "\"a\\/b\""
    ensures PrintToken(Str("\"\\\n")) == "\"\\\"\\\\\\n\""
  {
    hide PrintItems, PrintToken, Escape;
    TextOfString();
    TextOfEscapes();
    TextOfNumber();
    TextOfWords();
    if ts != [] {
      ItemsAreJoined(ts);
    }
  }

  lemma TextOfWords()
    ensures PrintToken(Bool(true)) == "true" && PrintToken(Bool(false)) == "false" && PrintToken(Null) == "null"
  {
  }

  lemma TextOfString()
    ensures PrintToken(Str("a/b")) == "\"a\\/b\""
  {
    EscapeNext('a', "/b");
    EscapeNext('/', "b");
    EscapeNext('b', "");
    hide Escape;
    assert Escape("a/b") == "a\\/b" by {
      assert ['a'] + "/b" == "a/b" && ['/'] + "b" == "/b" && ['b'] + "" == "b";
    }
  }

  lemma TextOfEscapes()
    ensures PrintToken(Str("\"\\\n")) == "\"\\\"\\\\\\n\""
  {
    EscapeNext('\"', "\\\n");
    EscapeNext('\\', "\n");
    EscapeNext('\n', "");
    hide Escape;
    assert Escape("\"\\\n") == "\\\"\\\\\\n" by {
      assert ['\"'] + "\\\n" == "\"\\\n" && ['\\'] + "\n" == "\\\n" && ['\n'] + "" == "\n";
    }
  }

  lemma EscapeNext(c: char, s: string)
    ensures Escape([c] + s) == EscapeChar(c) + Escape(s) && Escape("") == ""
  {
    assert ([c] + s)[1..] == s;
  }

  lemma TextOfNumber()
    ensures PrintToken(Int(-12)) == "-12"
  {
    assert PrintNat(12) == PrintNat(1) + [DIGITS[2]];
  }
}
