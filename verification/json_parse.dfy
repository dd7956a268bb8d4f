/** `JSON.parse` over the texts the application exchanges: a recursive
    descent reader whose results are `Json.Value`s, and the proof that it
    inverts `Json.Stringify`. As in `Json`, numbers are integers: a fraction
    or an exponent is not read. */
module JsonParse {
  import opened Wrappers
  import opened Json
  import Strings
  import Seqs

  /** The whitespace JSON allows between tokens. */
  predicate IsWs(c: char) {
    c == ' ' || c == '\t' || c == '\n' || c == '\r'
  }

  function SkipWs(s: string): (r: string)
    ensures |r| <= |s| && r == s[|s| - |r|..]
    ensures |r| == 0 || !IsWs(r[0])
  {
    if |s| > 0 && IsWs(s[0]) then SkipWs(s[1..]) else s
  }

  /* ----- String literals ----- */

  function HexValue(c: char): Option<nat> {
    if '0' <= c <= '9' then Some(c as int - '0' as int)
    else if 'a' <= c <= 'f' then Some(c as int - 'a' as int + 10)
    else if 'A' <= c <= 'F' then Some(c as int - 'A' as int + 10)
    else None
  }

  /** The character a two-character escape `\c` stands for. */
  function ShortEscape(c: char): Option<char> {
    if c == 'b' then Some('\U{8}') else if c == 't' then Some('\t')
    else if c == 'n' then Some('\n') else if c == 'f' then Some('\U{C}')
    else if c == 'r' then Some('\r') else if c == '"' then Some('"')
    else if c == '\\' then Some('\\') else if c == '/' then Some('/')
    else None
  }

  /** The code unit written as four hexadecimal digits. */
  function HexCode(h: string): (r: Option<nat>)
    requires |h| == 4
    ensures r.Some? ==> r.value < 0x1_0000
  {
    var d := [HexValue(h[0]), HexValue(h[1]), HexValue(h[2]), HexValue(h[3])];
    if d[0].Some? && d[1].Some? && d[2].Some? && d[3].Some?
       && d[0].value < 16 && d[1].value < 16 && d[2].value < 16 && d[3].value < 16
    then Some(((d[0].value * 16 + d[1].value) * 16 + d[2].value) * 16 + d[3].value)
    else None
  }

  function Prepend(c: char, r: Option<(string, string)>): (res: Option<(string, string)>)
    ensures res.Some? <==> r.Some?
    ensures res.Some? ==> res.value == ([c] + r.value.0, r.value.1)
  {
    match r
    case Some((t, rest)) => Some(([c] + t, rest))
    case None => None
  }

  /** The code point a UTF-16 surrogate pair stands for. */
  function Combine(hi: nat, lo: nat): (c: char)
    requires 0xD800 <= hi < 0xDC00 && 0xDC00 <= lo < 0xE000
    ensures 0x1_0000 <= c as int < 0x11_0000
  {
    (0x1_0000 + (hi - 0xD800) * 0x400 + (lo - 0xDC00)) as char
  }

  /** `s` starts with an escape `\uXXXX` of a low surrogate. */
  predicate LowEscape(s: string) {
    |s| >= 6 && s[0] == '\\' && s[1] == 'u'
    && HexCode(s[2..6]).Some? && 0xDC00 <= HexCode(s[2..6]).value < 0xE000
  }

  /** Reads the body of a string literal, the opening quote already read:
      the decoded text and what follows the closing quote. An escaped high
      surrogate followed by an escaped low surrogate reads as the one
      character the pair encodes. An unescaped control character, a
      malformed escape or a lone surrogate escape fails. */
  function ParseStringBody(s: string): (r: Option<(string, string)>)
    ensures r.Some? ==> |r.value.1| < |s|
    decreases |s|
  {
    if |s| == 0 then None
    else if s[0] == '"' then Some(("", s[1..]))
    else if s[0] < ' ' then None
    else if s[0] != '\\' then Prepend(s[0], ParseStringBody(s[1..]))
    else if |s| < 2 then None
    else if ShortEscape(s[1]).Some? then Prepend(ShortEscape(s[1]).value, ParseStringBody(s[2..]))
    else if s[1] == 'u' && |s| >= 6 then
      match HexCode(s[2..6])
      case Some(code) =>
        if code < 0xD800 || 0xE000 <= code then Prepend(code as char, ParseStringBody(s[6..]))
        else if code < 0xDC00 && LowEscape(s[6..]) then
          Prepend(Combine(code, HexCode(s[8..12]).value), ParseStringBody(s[12..]))
        else None
      case None => None
    else None
  }

  /** The escape `\uXXXX` of a UTF-16 code unit. */
  function UnitEscape(u: nat): (e: string)
    requires u < 0x1_0000
    ensures |e| == 6
  {
    "\\u" + [HexDigit(u / 0x1000), HexDigit(u / 0x100 % 16), HexDigit(u / 16 % 16), HexDigit(u % 16)]
  }

  /** The surrogate pair of a character beyond the basic plane. */
  function High(c: char): (u: nat)
    requires c as int >= 0x1_0000
    ensures 0xD800 <= u < 0xDC00
  {
    0xD800 + (c as int - 0x1_0000) / 0x400
  }

  function Low(c: char): (u: nat)
    requires c as int >= 0x1_0000
    ensures 0xDC00 <= u < 0xE000
  {
    0xDC00 + (c as int - 0x1_0000) % 0x400
  }

  lemma CombineSplit(c: char)
    requires c as int >= 0x1_0000
    ensures Combine(High(c), Low(c)) == c
  {
    var n := c as int - 0x1_0000;
    assert n == (n / 0x400) * 0x400 + n % 0x400;
  }

  /** Four hexadecimal digits read back as the code unit they write. */
  lemma UnitEscapeCode(u: nat)
    requires u < 0x1_0000
    ensures UnitEscape(u)[0] == '\\' && UnitEscape(u)[1] == 'u'
    ensures HexCode(UnitEscape(u)[2..6]) == Some(u)
  {
    var a, b, c, d := u / 0x1000, u / 0x100 % 16, u / 16 % 16, u % 16;
    HexRoundTrip(a);
    HexRoundTrip(b);
    HexRoundTrip(c);
    HexRoundTrip(d);
    assert UnitEscape(u)[2..6] == [HexDigit(a), HexDigit(b), HexDigit(c), HexDigit(d)];
    assert u / 0x100 == a * 16 + b;
    assert u / 16 == (a * 16 + b) * 16 + c;
    assert u == ((a * 16 + b) * 16 + c) * 16 + d;
  }

  /** A character beyond the basic plane written as its escaped surrogate
      pair reads back as that one character, as `JSON.parse` combines the
      two code units of a pair into one code point. */
  lemma SurrogatePairRead(c: char, t: string)
    requires c as int >= 0x1_0000
    ensures ParseStringBody(UnitEscape(High(c)) + UnitEscape(Low(c)) + t) == Prepend(c, ParseStringBody(t))
  {
    var s := UnitEscape(High(c)) + UnitEscape(Low(c)) + t;
    PairText(High(c), Low(c), t);
    CombineSplit(c);
    PairStep(s, High(c), HexCode(s[8..12]).value);
  }

  /** The text of two escaped units: what the reader sees at each offset. */
  lemma PairText(hi: nat, lo: nat, t: string)
    requires 0xD800 <= hi < 0xDC00 && 0xDC00 <= lo < 0xE000
    ensures var s := UnitEscape(hi) + UnitEscape(lo) + t;
            && s[0] == '\\' && s[1] == 'u'
            && HexCode(s[2..6]) == Some(hi)
            && LowEscape(s[6..]) && HexCode(s[8..12]) == Some(lo)
            && s[12..] == t
  {
    var s := UnitEscape(hi) + UnitEscape(lo) + t;
    UnitEscapeCode(hi);
    UnitEscapeCode(lo);
    assert s[2..6] == UnitEscape(hi)[2..6];
    assert s[6..] == UnitEscape(lo) + t;
    assert s[8..12] == UnitEscape(lo)[2..6];
    assert s[6..][2..6] == s[8..12];
  }

  /** One step of the reader over an escaped pair. */
  lemma PairStep(s: string, hi: nat, lo: nat)
    requires 0xD800 <= hi < 0xDC00 && 0xDC00 <= lo < 0xE000
    requires |s| >= 12 && s[0] == '\\' && s[1] == 'u'
    requires HexCode(s[2..6]) == Some(hi) && LowEscape(s[6..]) && HexCode(s[8..12]) == Some(lo)
    ensures ParseStringBody(s) == Prepend(Combine(hi, lo), ParseStringBody(s[12..]))
  {
    assert ShortEscape('u').None?;
  }

  /** The pair of the emoji U+1F600, `\ud83d\ude00`, reads as one
      character. */
  lemma EmojiPair()
    ensures ParseStringBody("\\ud83d\\ude00\"") == Some(("\U{1F600}", ""))
  {
    var s := "\\ud83d\\ude00\"";
    assert HexCode(s[2..6]) == Some(0xD83D) by {
      assert s[2..6] == "d83d";
    }
    assert HexCode(s[8..12]) == Some(0xDE00) by {
      assert s[8..12] == "de00";
    }
    assert LowEscape(s[6..]) by {
      assert s[6..][2..6] == s[8..12];
    }
    assert Combine(0xD83D, 0xDE00) == '\U{1F600}';
    assert ParseStringBody(s[12..]) == Some(("", "")) by {
      assert s[12..] == "\"";
    }
    assert s[0] == '\\' && s[1] == 'u' && ShortEscape('u').None?;
    assert ParseStringBody(s) == Prepend('\U{1F600}', ParseStringBody(s[12..]));
    assert ['\U{1F600}'] + "" == "\U{1F600}";
  }

  lemma HexRoundTrip(d: nat)
    requires d < 16
    ensures HexValue(HexDigit(d)) == Some(d)
  {
  }

  /** Reading one escaped character and then anything reads the character
      and then the rest. */
  lemma StringChar(c: char, t: string)
    ensures ParseStringBody(EscapeChar(c) + t) == Prepend(c, ParseStringBody(t))
  {
    if c < ' ' && c != '\U{8}' && c != '\t' && c != '\n' && c != '\U{C}' && c != '\r' {
      ControlChar(c, t);
    } else if |EscapeChar(c)| == 2 {
      ShortChar(c, t);
    } else {
      PlainChar(c, t);
    }
  }

  lemma ControlChar(c: char, t: string)
    requires c < ' ' && c != '\U{8}' && c != '\t' && c != '\n' && c != '\U{C}' && c != '\r'
    ensures ParseStringBody(EscapeChar(c) + t) == Prepend(c, ParseStringBody(t))
  {
    var e := EscapeChar(c) + t;
    HexRoundTrip(c as int / 16);
    HexRoundTrip(c as int % 16);
    assert e[2..6] == ['0', '0', HexDigit(c as int / 16), HexDigit(c as int % 16)];
    assert HexCode(e[2..6]) == Some(c as int);
    assert e[6..] == t;
  }

  lemma ShortChar(c: char, t: string)
    requires |EscapeChar(c)| == 2
    ensures ParseStringBody(EscapeChar(c) + t) == Prepend(c, ParseStringBody(t))
  {
    var e := EscapeChar(c) + t;
    EscapeShort(c);
    assert e[0] == '\\' && e[1] == EscapeChar(c)[1];
    assert e[2..] == t;
  }

  /** A two-character escape is a backslash and the letter that reads back
      as the character. */
  lemma EscapeShort(c: char)
    requires |EscapeChar(c)| == 2
    ensures EscapeChar(c)[0] == '\\' && ShortEscape(EscapeChar(c)[1]) == Some(c)
  {
  }

  lemma PlainChar(c: char, t: string)
    requires |EscapeChar(c)| != 2
    requires !(c < ' ' && c != '\U{8}' && c != '\t' && c != '\n' && c != '\U{C}' && c != '\r')
    ensures ParseStringBody(EscapeChar(c) + t) == Prepend(c, ParseStringBody(t))
  {
    var e := EscapeChar(c) + t;
    assert e[1..] == t;
  }

  /** A quoted string reads back as itself, whatever follows it. */
  lemma {:induction false} StringRoundTrip(s: string, rest: string)
    ensures ParseStringBody(Escape(s) + "\"" + rest) == Some((s, rest))
  {
    if |s| == 0 {
      assert Escape(s) + "\"" + rest == "\"" + rest;
      assert ("\"" + rest)[1..] == rest;
    } else {
      var tail := Escape(s[1..]) + "\"" + rest;
      assert Escape(s) + "\"" + rest == EscapeChar(s[0]) + tail;
      StringChar(s[0], tail);
      StringRoundTrip(s[1..], rest);
      assert [s[0]] + s[1..] == s;
    }
  }

  /** Different strings have different escaped forms. */
  lemma EscapeInjective(s: string, t: string)
    requires Escape(s) == Escape(t)
    ensures s == t
  {
    StringRoundTrip(s, "");
    StringRoundTrip(t, "");
  }

  /* ----- Numbers ----- */

  /** Length of the run of decimal digits `s` starts with. */
  function DigitRun(s: string): (k: nat)
    ensures k <= |s|
    ensures forall i :: 0 <= i < k ==> Strings.IsDigit(s[i])
    ensures k == |s| || !Strings.IsDigit(s[k])
  {
    if |s| > 0 && Strings.IsDigit(s[0]) then 1 + DigitRun(s[1..]) else 0
  }

  /** A run of digits without a superfluous leading zero. */
  function ParseNat(s: string): (r: Option<(nat, string)>)
    ensures r.Some? ==> |r.value.1| < |s|
  {
    var k := DigitRun(s);
    if k == 0 || (s[0] == '0' && k > 1) then None
    else Some((Strings.DigitsValue(s[..k]), s[k..]))
  }

  function ParseNumber(s: string): (r: Option<(int, string)>)
    ensures r.Some? ==> |r.value.1| < |s|
  {
    if |s| > 0 && s[0] == '-' then
      match ParseNat(s[1..])
      case Some((n, rest)) => Some((0 - n, rest))
      case None => None
    else
      match ParseNat(s)
      case Some((n, rest)) => Some((n, rest))
      case None => None
  }

  /** `rest` does not continue a number. */
  predicate NotDigitStart(rest: string) {
    |rest| == 0 || !Strings.IsDigit(rest[0])
  }

  lemma {:induction false} DigitRunOf(d: string, rest: string)
    requires forall i :: 0 <= i < |d| ==> Strings.IsDigit(d[i])
    requires NotDigitStart(rest)
    ensures DigitRun(d + rest) == |d|
  {
    if |d| == 0 {
      assert d + rest == rest;
    } else {
      DigitRunOf(d[1..], rest);
      assert (d + rest)[1..] == d[1..] + rest;
    }
  }

  lemma NatRoundTrip(n: nat, rest: string)
    requires NotDigitStart(rest)
    ensures ParseNat(Strings.NatToString(n) + rest) == Some((n, rest))
  {
    var d := Strings.NatToString(n);
    DigitRunOf(d, rest);
    assert (d + rest)[..|d|] == d;
    assert (d + rest)[|d|..] == rest;
    Strings.NatToStringValue(n);
  }

  lemma NegativeStep(s: string, n: nat, rest: string)
    requires |s| > 0 && s[0] == '-' && ParseNat(s[1..]) == Some((n, rest))
    ensures ParseNumber(s) == Some((0 - n, rest))
  {
  }

  lemma NegativeRoundTrip(m: nat, rest: string)
    requires NotDigitStart(rest)
    ensures ParseNumber("-" + Strings.NatToString(m) + rest) == Some((0 - m, rest))
  {
    var d := Strings.NatToString(m);
    var s := "-" + d + rest;
    assert s[1..] == d + rest;
    NatRoundTrip(m, rest);
    NegativeStep(s, m, rest);
  }

  lemma NonNegativeRoundTrip(n: nat, rest: string)
    requires NotDigitStart(rest)
    ensures ParseNumber(Strings.NatToString(n) + rest) == Some((n, rest))
  {
    var d := Strings.NatToString(n);
    assert Strings.IsDigit(d[0]);
    NatRoundTrip(n, rest);
  }

  lemma IntRoundTrip(i: int, rest: string)
    requires NotDigitStart(rest)
    ensures ParseNumber(Strings.IntToString(i) + rest) == Some((i, rest))
  {
    if i < 0 {
      var m: nat := -i;
      NegativeRoundTrip(m, rest);
      assert Strings.IntToString(i) == "-" + Strings.NatToString(m);
    } else {
      NonNegativeRoundTrip(i, rest);
    }
  }

  /* ----- Values ----- */

  /** A value, after optional whitespace; what follows it is returned. */
  function ParseValue(s: string): (r: Option<(Value, string)>)
    ensures r.Some? ==> |r.value.1| < |s|
    decreases |s|, 2
  {
    ParseToken(SkipWs(s))
  }

  /** A value starting right at the first character, chosen by that
      character. */
  function ParseToken(t: string): (r: Option<(Value, string)>)
    ensures r.Some? ==> |r.value.1| < |t|
    decreases |t|, 1
  {
    if |t| == 0 then None
    else if t[0] == 'n' then Literal(t, "null", Null)
    else if t[0] == 't' then Literal(t, "true", Bool(true))
    else if t[0] == 'f' then Literal(t, "false", Bool(false))
    else if t[0] == '"' then
      match ParseStringBody(t[1..])
      case Some((str, rest)) => Some((Str(str), rest))
      case None => None
    else if t[0] == '[' then ParseArray(t[1..])
    else if t[0] == '{' then ParseObject(t[1..])
    else if t[0] == '-' || Strings.IsDigit(t[0]) then
      match ParseNumber(t)
      case Some((n, rest)) => Some((Num(n), rest))
      case None => None
    else None
  }

  /** One of the literal words `null`, `true`, `false`. */
  function Literal(t: string, word: string, v: Value): (r: Option<(Value, string)>)
    requires |word| > 0
    ensures r.Some? ==> |r.value.1| < |t|
  {
    if Strings.StartsWith(t, word) then Some((v, t[|word|..])) else None
  }

  /** An array, its opening bracket already read. */
  function ParseArray(s: string): (r: Option<(Value, string)>)
    ensures r.Some? ==> |r.value.1| < |s|
    decreases |s|, 6
  {
    var u := SkipWs(s);
    if |u| > 0 && u[0] == ']' then Some((Arr([]), u[1..]))
    else
      match ParseItems(s)
      case Some((items, rest)) => Some((Arr(items), rest))
      case None => None
  }

  /** An object, its opening brace already read. */
  function ParseObject(s: string): (r: Option<(Value, string)>)
    ensures r.Some? ==> |r.value.1| < |s|
    decreases |s|, 6
  {
    var u := SkipWs(s);
    if |u| > 0 && u[0] == '}' then Some((Obj([]), u[1..]))
    else
      match ParseFields(s)
      case Some((fields, rest)) => Some((Obj(fields), rest))
      case None => None
  }

  /** The elements of a non-empty array and its closing bracket. */
  function ParseItems(s: string): (r: Option<(seq<Value>, string)>)
    ensures r.Some? ==> |r.value.1| < |s|
    decreases |s|, 3
  {
    match ParseValue(s)
    case None => None
    case Some((v, r1)) => ItemsAfter(v, r1)
  }

  /** After an element `v`: the closing bracket, or a comma and more
      elements. */
  function ItemsAfter(v: Value, r1: string): (r: Option<(seq<Value>, string)>)
    ensures r.Some? ==> |r.value.1| < |r1|
    decreases |r1|, 4
  {
    var r2 := SkipWs(r1);
    if |r2| == 0 then None
    else if r2[0] == ']' then Some(([v], r2[1..]))
    else if r2[0] == ',' then
      match ParseItems(r2[1..])
      case Some((vs, r3)) => Some(([v] + vs, r3))
      case None => None
    else None
  }

  /** One `"key": value` member. */
  function ParseMember(s: string): (r: Option<(Field, string)>)
    ensures r.Some? ==> |r.value.1| < |s|
    decreases |s|, 3
  {
    var t := SkipWs(s);
    if |t| == 0 || t[0] != '"' then None
    else
      match ParseStringBody(t[1..])
      case None => None
      case Some((key, r1)) => MemberValue(key, r1)
  }

  /** The colon and the value of a member whose key has been read. */
  function MemberValue(key: string, r1: string): (r: Option<(Field, string)>)
    ensures r.Some? ==> |r.value.1| < |r1|
    decreases |r1|, 3
  {
    var r2 := SkipWs(r1);
    if |r2| == 0 || r2[0] != ':' then None
    else
      match ParseValue(r2[1..])
      case None => None
      case Some((v, r3)) => Some((Field(key, v), r3))
  }

  /** The members of a non-empty object and its closing brace. */
  function ParseFields(s: string): (r: Option<(seq<Field>, string)>)
    ensures r.Some? ==> |r.value.1| < |s|
    decreases |s|, 4
  {
    match ParseMember(s)
    case None => None
    case Some((f, r3)) => FieldsAfter(f, r3)
  }

  /** After a member `f`: the closing brace, or a comma and more members. */
  function FieldsAfter(f: Field, r3: string): (r: Option<(seq<Field>, string)>)
    ensures r.Some? ==> |r.value.1| < |r3|
    decreases |r3|, 5
  {
    var r4 := SkipWs(r3);
    if |r4| == 0 then None
    else if r4[0] == '}' then Some(([f], r4[1..]))
    else if r4[0] == ',' then
      match ParseFields(r4[1..])
      case Some((fs, r5)) => Some(([f] + fs, r5))
      case None => None
    else None
  }

  /** `JSON.parse(s)`: one value, optionally surrounded by whitespace;
      `None` where `JSON.parse` throws. */
  function Parse(s: string): Option<Value> {
    match ParseValue(s)
    case Some((v, rest)) => if SkipWs(rest) == "" then Some(v) else None
    case None => None
  }

  /* ----- Round trip ----- */

  /** The first character of a serialised value opens it: a letter of a
      literal, a quote, a bracket, a brace, a minus sign or a digit. */
  lemma StringifyStart(v: Value)
    ensures |Stringify(v)| > 0
    ensures var c := Stringify(v)[0];
            match v
            case Null => c == 'n'
            case Bool(b) => c == (if b then 't' else 'f')
            case Num(n) => c == '-' || Strings.IsDigit(c)
            case Str(_) => c == '"'
            case Arr(_) => c == '['
            case Obj(_) => c == '{'
  {
  }

  lemma StringifyItemsStart(items: seq<Value>)
    requires |items| > 0
    ensures |StringifyItems(items)| > 0 && StringifyItems(items)[0] == Stringify(items[0])[0]
  {
    StringifyStart(items[0]);
  }

  /** Reading a serialised value gives the value back and stops right after
      it. */
  lemma {:induction false} ValueRoundTrip(v: Value, rest: string)
    requires NotDigitStart(rest)
    ensures ParseValue(Stringify(v) + rest) == Some((v, rest))
    decreases v, 2
  {
    var t := Stringify(v) + rest;
    assert SkipWs(t) == t by {
      StringifyNotWs(v);
      assert t[0] == Stringify(v)[0];
    }
    TokenRoundTrip(v, rest);
  }

  /** A serialised value does not start with whitespace. */
  lemma StringifyNotWs(v: Value)
    ensures |Stringify(v)| > 0 && !IsWs(Stringify(v)[0])
  {
    StringifyStart(v);
  }

  lemma {:induction false} TokenRoundTrip(v: Value, rest: string)
    requires NotDigitStart(rest)
    ensures ParseToken(Stringify(v) + rest) == Some((v, rest))
    decreases v, 1
  {
    match v
    case Null => LiteralRoundTrip("null", Null, rest);
    case Bool(b) =>
      if b {
        LiteralRoundTrip("true", v, rest);
      } else {
        LiteralRoundTrip("false", v, rest);
      }
    case Num(n) => NumberTokenRoundTrip(n, rest);
    case Str(s) => StringTokenRoundTrip(s, rest);
    case Arr(items) => ArrayTokenRoundTrip(items, rest);
    case Obj(fields) => ObjectTokenRoundTrip(fields, rest);
  }

  lemma LiteralRoundTrip(word: string, v: Value, rest: string)
    requires (word, v) == ("null", Null) || (word, v) == ("true", Bool(true)) || (word, v) == ("false", Bool(false))
    ensures ParseToken(word + rest) == Some((v, rest))
  {
    var t := word + rest;
    assert t[..|word|] == word;
    assert t[|word|..] == rest;
  }

  lemma NumberTokenRoundTrip(n: int, rest: string)
    requires NotDigitStart(rest)
    ensures ParseToken(Strings.IntToString(n) + rest) == Some((Num(n), rest))
  {
    var t := Strings.IntToString(n) + rest;
    assert t[0] == Strings.IntToString(n)[0];
    assert t[0] == '-' || Strings.IsDigit(t[0]);
    IntRoundTrip(n, rest);
  }

  lemma StringTokenRoundTrip(s: string, rest: string)
    ensures ParseToken(Quote(s) + rest) == Some((Str(s), rest))
  {
    var t := Quote(s) + rest;
    assert t[1..] == Escape(s) + "\"" + rest;
    StringRoundTrip(s, rest);
  }

  lemma {:induction false} ArrayTokenRoundTrip(items: seq<Value>, rest: string)
    ensures ParseToken("[" + StringifyItems(items) + "]" + rest) == Some((Arr(items), rest))
    decreases items, 4
  {
    var t := "[" + StringifyItems(items) + "]" + rest;
    assert t[1..] == StringifyItems(items) + "]" + rest;
    ArrayRoundTrip(items, rest);
    ArrayToken(t);
  }

  lemma ArrayToken(t: string)
    requires |t| > 0 && t[0] == '['
    ensures ParseToken(t) == ParseArray(t[1..])
  {
  }

  lemma {:induction false} ObjectTokenRoundTrip(fields: seq<Field>, rest: string)
    ensures ParseToken("{" + StringifyFields(fields) + "}" + rest) == Some((Obj(fields), rest))
    decreases fields, 4
  {
    var t := "{" + StringifyFields(fields) + "}" + rest;
    assert t[1..] == StringifyFields(fields) + "}" + rest;
    ObjectRoundTrip(fields, rest);
    ObjectToken(t);
  }

  lemma ObjectToken(t: string)
    requires |t| > 0 && t[0] == '{'
    ensures ParseToken(t) == ParseObject(t[1..])
  {
  }

  lemma {:induction false} ArrayRoundTrip(items: seq<Value>, rest: string)
    ensures ParseArray(StringifyItems(items) + "]" + rest) == Some((Arr(items), rest))
    decreases items, 3
  {
    if |items| == 0 {
      EmptyArrayRoundTrip(rest);
    } else {
      var body := StringifyItems(items) + "]" + rest;
      ItemsBodyStart(items, rest);
      ItemsRoundTrip(items, rest);
      NonEmptyArrayStep(body, items, rest);
    }
  }

  lemma ItemsBodyStart(items: seq<Value>, rest: string)
    requires |items| > 0
    ensures var body := StringifyItems(items) + "]" + rest;
            |body| > 0 && !IsWs(body[0]) && body[0] != ']'
  {
    var body := StringifyItems(items) + "]" + rest;
    StringifyItemsStart(items);
    StringifyStart(items[0]);
    assert body[0] == StringifyItems(items)[0];
  }

  lemma EmptyArrayRoundTrip(rest: string)
    ensures ParseArray("]" + rest) == Some((Arr([]), rest))
  {
    assert ("]" + rest)[1..] == rest;
  }

  lemma NonEmptyArrayStep(body: string, items: seq<Value>, rest: string)
    requires |body| > 0 && !IsWs(body[0]) && body[0] != ']'
    requires ParseItems(body) == Some((items, rest))
    ensures ParseArray(body) == Some((Arr(items), rest))
  {
  }

  lemma {:induction false} ObjectRoundTrip(fields: seq<Field>, rest: string)
    ensures ParseObject(StringifyFields(fields) + "}" + rest) == Some((Obj(fields), rest))
    decreases fields, 3
  {
    if |fields| == 0 {
      EmptyObjectRoundTrip(rest);
    } else {
      var body := StringifyFields(fields) + "}" + rest;
      assert body[0] == '"';
      FieldsRoundTrip(fields, rest);
      NonEmptyObjectStep(body, fields, rest);
    }
  }

  lemma EmptyObjectRoundTrip(rest: string)
    ensures ParseObject("}" + rest) == Some((Obj([]), rest))
  {
    assert ("}" + rest)[1..] == rest;
  }

  lemma NonEmptyObjectStep(body: string, fields: seq<Field>, rest: string)
    requires |body| > 0 && !IsWs(body[0]) && body[0] != '}'
    requires ParseFields(body) == Some((fields, rest))
    ensures ParseObject(body) == Some((Obj(fields), rest))
  {
  }

  lemma {:induction false} ItemsRoundTrip(items: seq<Value>, rest: string)
    requires |items| > 0
    ensures ParseItems(StringifyItems(items) + "]" + rest) == Some((items, rest))
    decreases items, 2
  {
    if |items| == 1 {
      SingleItemRoundTrip(items, rest);
    } else {
      MoreItemsRoundTrip(items, rest);
    }
  }

  lemma {:induction false} SingleItemRoundTrip(items: seq<Value>, rest: string)
    requires |items| == 1
    ensures ParseItems(StringifyItems(items) + "]" + rest) == Some((items, rest))
    decreases items, 0
  {
    var s := StringifyItems(items) + "]" + rest;
    assert ParseValue(s) == Some((items[0], "]" + rest)) by {
      assert s == Stringify(items[0]) + ("]" + rest) by {
        assert StringifyItems(items) == Stringify(items[0]);
        Seqs.Assoc(Stringify(items[0]), "]", rest);
      }
      ValueRoundTrip(items[0], "]" + rest);
    }
    ItemsClose(s, items[0], rest);
    assert [items[0]] == items;
  }

  lemma {:induction false} MoreItemsRoundTrip(items: seq<Value>, rest: string)
    requires |items| > 1
    ensures ParseItems(StringifyItems(items) + "]" + rest) == Some((items, rest))
    decreases items, 1
  {
    ItemsText(items, rest);
    ItemsCons(items, rest);
  }

  /** An element, a comma and more elements read back. */
  lemma {:induction false} ItemsCons(items: seq<Value>, rest: string)
    requires |items| > 1
    ensures ParseItems(Stringify(items[0]) + ("," + (StringifyItems(items[1..]) + "]" + rest))) == Some((items, rest))
    decreases items, 0
  {
    var tail := StringifyItems(items[1..]) + "]" + rest;
    ValueRoundTrip(items[0], "," + tail);
    ItemsRoundTrip(items[1..], rest);
    ItemsComma(Stringify(items[0]) + ("," + tail), items[0], tail, items[1..], rest);
    Seqs.HeadTail(items);
  }

  /** The text of several elements: the first, a comma, the others. */
  lemma ItemsText(items: seq<Value>, rest: string)
    requires |items| > 1
    ensures StringifyItems(items) + "]" + rest
            == Stringify(items[0]) + ("," + (StringifyItems(items[1..]) + "]" + rest))
  {
    assert StringifyItems(items) == Stringify(items[0]) + "," + StringifyItems(items[1..]);
    Seqs.Assoc4(Stringify(items[0]), ",", StringifyItems(items[1..]), "]", rest);
  }

  lemma ItemsClose(s: string, v: Value, rest: string)
    requires ParseValue(s) == Some((v, "]" + rest))
    ensures ParseItems(s) == Some(([v], rest))
  {
    assert ("]" + rest)[1..] == rest;
  }

  lemma ItemsComma(s: string, v: Value, tail: string, vs: seq<Value>, rest: string)
    requires ParseValue(s) == Some((v, "," + tail))
    requires ParseItems(tail) == Some((vs, rest))
    ensures ParseItems(s) == Some(([v] + vs, rest))
  {
    assert ("," + tail)[1..] == tail;
  }

  /** A serialised member reads back, whatever follows that cannot continue
      a number. */
  lemma {:induction false} MemberRoundTrip(key: string, val: Value, after: string)
    requires NotDigitStart(after)
    ensures ParseMember(Quote(key) + ":" + Stringify(val) + after) == Some((Field(key, val), after))
    decreases val, 4
  {
    var r1 := ":" + Stringify(val) + after;
    ColonThen(val, after);
    MemberStep(key, r1, val, after);
    assert Quote(key) + ":" + Stringify(val) + after == Quote(key) + r1 by {
      Seqs.Assoc(Quote(key), ":", Stringify(val));
      Seqs.Assoc(Quote(key), ":" + Stringify(val), after);
    }
  }

  lemma QuotedThen(key: string, r1: string)
    ensures |Quote(key) + r1| > 0 && (Quote(key) + r1)[0] == '"'
    ensures ParseStringBody((Quote(key) + r1)[1..]) == Some((key, r1))
  {
    assert (Quote(key) + r1)[1..] == Escape(key) + "\"" + r1;
    StringRoundTrip(key, r1);
  }

  lemma {:induction false} ColonThen(val: Value, after: string)
    requires NotDigitStart(after)
    ensures var r1 := ":" + Stringify(val) + after;
            |r1| > 0 && r1[0] == ':' && ParseValue(r1[1..]) == Some((val, after))
    decreases val, 3
  {
    var r1 := ":" + Stringify(val) + after;
    assert r1[1..] == Stringify(val) + after;
    ValueRoundTrip(val, after);
  }

  lemma MemberStep(key: string, r1: string, val: Value, after: string)
    requires |r1| > 0 && r1[0] == ':' && ParseValue(r1[1..]) == Some((val, after))
    ensures ParseMember(Quote(key) + r1) == Some((Field(key, val), after))
  {
    var s := Quote(key) + r1;
    QuotedThen(key, r1);
    SkipWsNone(s);
    SkipWsNone(r1);
    assert MemberValue(key, r1) == Some((Field(key, val), after));
  }

  lemma SkipWsNone(t: string)
    requires |t| > 0 && !IsWs(t[0])
    ensures SkipWs(t) == t
  {
  }

  lemma {:induction false} FieldsRoundTrip(fields: seq<Field>, rest: string)
    requires |fields| > 0
    ensures ParseFields(StringifyFields(fields) + "}" + rest) == Some((fields, rest))
    decreases fields, 2
  {
    if |fields| == 1 {
      SingleFieldRoundTrip(fields, rest);
    } else {
      MoreFieldsRoundTrip(fields, rest);
    }
  }

  lemma {:induction false} SingleFieldRoundTrip(fields: seq<Field>, rest: string)
    requires |fields| == 1
    ensures ParseFields(StringifyFields(fields) + "}" + rest) == Some((fields, rest))
    decreases fields, 0
  {
    var f := fields[0];
    var s := StringifyFields(fields) + "}" + rest;
    assert ParseMember(s) == Some((f, "}" + rest)) by {
      assert s == Quote(f.key) + ":" + Stringify(f.val) + ("}" + rest) by {
        assert StringifyFields(fields) == Quote(f.key) + ":" + Stringify(f.val);
        Seqs.Assoc(Quote(f.key) + ":" + Stringify(f.val), "}", rest);
      }
      MemberRoundTrip(f.key, f.val, "}" + rest);
    }
    FieldsClose(s, f, rest);
    assert [f] == fields;
  }

  lemma {:induction false} MoreFieldsRoundTrip(fields: seq<Field>, rest: string)
    requires |fields| > 1
    ensures ParseFields(StringifyFields(fields) + "}" + rest) == Some((fields, rest))
    decreases fields, 1
  {
    FieldsText(fields, rest);
    FieldsCons(fields, rest);
  }

  /** A member, a comma and more members read back. */
  lemma {:induction false} FieldsCons(fields: seq<Field>, rest: string)
    requires |fields| > 1
    ensures ParseFields(Quote(fields[0].key) + ":" + Stringify(fields[0].val)
                        + ("," + (StringifyFields(fields[1..]) + "}" + rest))) == Some((fields, rest))
    decreases fields, 0
  {
    var f := fields[0];
    var tail := StringifyFields(fields[1..]) + "}" + rest;
    MemberRoundTrip(f.key, f.val, "," + tail);
    FieldsRoundTrip(fields[1..], rest);
    FieldsComma(Quote(f.key) + ":" + Stringify(f.val) + ("," + tail), f, tail, fields[1..], rest);
    Seqs.HeadTail(fields);
  }

  /** The text of several members: the first, a comma, the others. */
  lemma FieldsText(fields: seq<Field>, rest: string)
    requires |fields| > 1
    ensures StringifyFields(fields) + "}" + rest
            == Quote(fields[0].key) + ":" + Stringify(fields[0].val) + ("," + (StringifyFields(fields[1..]) + "}" + rest))
  {
    var member := Quote(fields[0].key) + ":" + Stringify(fields[0].val);
    assert StringifyFields(fields) == member + "," + StringifyFields(fields[1..]);
    Seqs.Assoc4(member, ",", StringifyFields(fields[1..]), "}", rest);
  }

  lemma FieldsClose(s: string, f: Field, rest: string)
    requires ParseMember(s) == Some((f, "}" + rest))
    ensures ParseFields(s) == Some(([f], rest))
  {
    assert ("}" + rest)[1..] == rest;
  }

  lemma FieldsComma(s: string, f: Field, tail: string, fs: seq<Field>, rest: string)
    requires ParseMember(s) == Some((f, "," + tail))
    requires ParseFields(tail) == Some((fs, rest))
    ensures ParseFields(s) == Some(([f] + fs, rest))
  {
    var r3 := "," + tail;
    assert r3[0] == ',' && !IsWs(r3[0]);
    assert SkipWs(r3) == r3;
    assert r3[1..] == tail;
    assert FieldsAfter(f, r3) == Some(([f] + fs, rest));
  }

  /** `JSON.parse(JSON.stringify(v))` is `v`. */
  lemma ParseStringify(v: Value)
    ensures Parse(Stringify(v)) == Some(v)
  {
    ValueRoundTrip(v, "");
    assert Stringify(v) + "" == Stringify(v);
  }
}
