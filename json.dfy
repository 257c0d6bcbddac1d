/**
 * The canonical text form of block metadata: a flat JSON object (RFC 8259)
 * whose values are numbers or strings, written without whitespace, with
 * string escaping done the way serde_json's compact writer does it
 * (`\"`, `\\`, the short escapes `\b \t \n \f \r`, `\u00XX` for the other
 * control characters, every other character verbatim).
 *
 * A parser for the same flat objects is the serializer's partner: parsing
 * what was serialized gives back the object, and it leaves whatever text
 * followed the object untouched. From that round trip every injectivity
 * fact the metadata needs follows.
 */
module Json {
  import opened Wrappers

  /** The values a metadata member can hold. */
  datatype Scalar = Num(n: int) | Str(s: string)

  type Member = (string, Scalar)

  /** A JSON object, its members in the order they are written. */
  type Object = seq<Member>

  function Keys(o: Object): (ks: seq<string>)
    ensures |ks| == |o|
    ensures forall i :: 0 <= i < |o| ==> ks[i] == o[i].0
  {
    if o == [] then [] else [o[0].0] + Keys(o[1..])
  }

  // ---------------------------------------------------------------- numbers

  predicate IsDigit(c: char) {
    '0' <= c <= '9'
  }

  predicate AllDigits(s: string) {
    forall i :: 0 <= i < |s| ==> IsDigit(s[i])
  }

  function DigitChar(d: nat): (c: char)
    requires d < 10
  {
    (('0' as int) + d) as char
  }

  function DigitValue(c: char): nat
    requires IsDigit(c)
  {
    (c as int) - ('0' as int)
  }

  /** Decimal digits of `n`, most significant first, no leading zero. */
  function NatToDecimal(n: nat): string
  {
    if n < 10 then [DigitChar(n)] else NatToDecimal(n / 10) + [DigitChar(n % 10)]
  }

  /** A JSON number for an integer: a minus sign for negatives, then the digits. */
  function IntToDecimal(i: int): string
  {
    if i < 0 then "-" + NatToDecimal(-i) else NatToDecimal(i)
  }

  /** Length of the longest prefix of `s` made of digits. */
  function DigitsPrefix(s: string): (k: nat)
    ensures k <= |s|
    ensures forall i :: 0 <= i < k ==> IsDigit(s[i])
    ensures k < |s| ==> !IsDigit(s[k])
  {
    if s == [] || !IsDigit(s[0]) then 0 else 1 + DigitsPrefix(s[1..])
  }

  /** The value of a string of decimal digits. */
  function DecimalValue(ds: string): nat
    requires AllDigits(ds)
  {
    if ds == [] then 0 else 10 * DecimalValue(ds[..|ds| - 1]) + DigitValue(ds[|ds| - 1])
  }

  /** Reads the digits at the front of `s`; a leading zero is only allowed alone. */
  function ParseNat(s: string): (r: Option<(nat, string)>)
    ensures r.Some? ==> |r.value.1| < |s|
  {
    var k := DigitsPrefix(s);
    if k == 0 || (k > 1 && s[0] == '0') then None
    else Some((DecimalValue(s[..k]), s[k..]))
  }

  function ParseInt(s: string): (r: Option<(int, string)>)
    ensures r.Some? ==> |r.value.1| < |s|
  {
    if s != [] && s[0] == '-' then
      match ParseNat(s[1..])
      case None => None
      case Some((n, rest)) => Some((-(n as int), rest))
    else
      match ParseNat(s)
      case None => None
      case Some((n, rest)) => Some((n as int, rest))
  }

  // ---------------------------------------------------------------- strings

  function HexDigit(d: nat): char
    requires d < 16
  {
    "0123456789abcdef"[d]
  }

  function HexValue(c: char): Option<nat>
  {
    if '0' <= c <= '9' then Some((c as int) - ('0' as int))
    else if 'a' <= c <= 'f' then Some((c as int) - ('a' as int) + 10)
    else if 'A' <= c <= 'F' then Some((c as int) - ('A' as int) + 10)
    else None
  }

  /** The code point written by four hex digits. */
  function Hex4(h: string): Option<nat>
    requires |h| == 4
  {
    match (HexValue(h[0]), HexValue(h[1]), HexValue(h[2]), HexValue(h[3]))
    case (Some(a), Some(b), Some(c), Some(d)) => Some(4096 * a + 256 * b + 16 * c + d)
    case _ => None
  }

  predicate IsScalarValue(code: int) {
    (0 <= code < 0xD800) || (0xE000 <= code < 0x11_0000)
  }

  /** The letter of the two-character escape written for `c`, if it has one. */
  function ShortEscape(c: char): Option<char>
  {
    if c == '"' then Some('"')
    else if c == '\\' then Some('\\')
    else if c as int == 0x08 then Some('b')
    else if c as int == 0x09 then Some('t')
    else if c as int == 0x0A then Some('n')
    else if c as int == 0x0C then Some('f')
    else if c as int == 0x0D then Some('r')
    else None
  }

  /** The character a two-character escape stands for. */
  function Unescape(letter: char): Option<char>
  {
    if letter == '"' then Some('"')
    else if letter == '\\' then Some('\\')
    else if letter == '/' then Some('/')
    else if letter == 'b' then Some(0x08 as char)
    else if letter == 't' then Some(0x09 as char)
    else if letter == 'n' then Some(0x0A as char)
    else if letter == 'f' then Some(0x0C as char)
    else if letter == 'r' then Some(0x0D as char)
    else None
  }

  /** How one character is written inside a JSON string. */
  function EscapeChar(c: char): string
  {
    match ShortEscape(c)
    case Some(letter) => ['\\', letter]
    case None =>
      if c as int < 0x20 then "\\u00" + [HexDigit(c as int / 16), HexDigit(c as int % 16)]
      else [c]
  }

  function Escape(s: string): string
  {
    if s == [] then [] else EscapeChar(s[0]) + Escape(s[1..])
  }

  /** A JSON string literal. */
  function Quote(s: string): string
  {
    "\"" + Escape(s) + "\""
  }

  /** Reads the escape sequence that follows a backslash. */
  function ParseEscape(s: string): (r: Option<(char, string)>)
    ensures r.Some? ==> |r.value.1| < |s|
  {
    if s == [] then None
    else match Unescape(s[0])
      case Some(c) => Some((c, s[1..]))
      case None =>
        if s[0] == 'u' && |s| >= 5 then
          match Hex4(s[1..5])
          case None => None
          case Some(code) => if IsScalarValue(code) then Some((code as char, s[5..])) else None
        else None
  }

  function Prepend(c: char, r: Option<(string, string)>): Option<(string, string)>
  {
    match r
    case None => None
    case Some((t, rest)) => Some(([c] + t, rest))
  }

  /**
   * Reads the contents of a string literal whose opening quote has been
   * consumed, up to and including the closing quote.
   */
  function ParseStringBody(s: string): (r: Option<(string, string)>)
    ensures r.Some? ==> |r.value.1| < |s|
    decreases |s|
  {
    if s == [] then None
    else if s[0] == '"' then Some(([], s[1..]))
    else if s[0] == '\\' then
      match ParseEscape(s[1..])
      case None => None
      case Some((c, rest)) => Prepend(c, ParseStringBody(rest))
    else if (s[0] as int) < 0x20 then None
    else Prepend(s[0], ParseStringBody(s[1..]))
  }

  function ParseQuoted(s: string): (r: Option<(string, string)>)
    ensures r.Some? ==> |r.value.1| < |s|
  {
    if s != [] && s[0] == '"' then ParseStringBody(s[1..]) else None
  }

  // ---------------------------------------------------------------- objects

  function SerializeScalar(v: Scalar): string
  {
    match v
    case Num(n) => IntToDecimal(n)
    case Str(s) => Quote(s)
  }

  function SerializeMember(m: Member): string
  {
    Quote(m.0) + ":" + SerializeScalar(m.1)
  }

  function SerializeMembers(ms: Object): string
  {
    if |ms| == 0 then ""
    else if |ms| == 1 then SerializeMember(ms[0])
    else SerializeMember(ms[0]) + "," + SerializeMembers(ms[1..])
  }

  /**
   * The compact text of an object: `{"k1":v1,"k2":v2}`, and `{}` for the
   * empty object only. `Parse` inverts it (`RoundTrip`).
   */
  function Serialize(o: Object): (r: string)
    ensures r == "{}" <==> o == []
  {
    if o != [] then MembersStartWithQuote(o); "{" + SerializeMembers(o) + "}"
    else "{" + SerializeMembers(o) + "}"
  }

  /**
   * `text` parses as exactly `o`. Stated for every text equal to `text`, so
   * that the fact comes into play only where a parse of `text` is mentioned.
   */
  ghost predicate ReadsBackAs(text: string, o: Object) {
    forall t :: t == text ==> Parse(t) == Some(o)
  }

  /** Reading one object off the front of `text` gives `o` and leaves `rest`. */
  ghost predicate PrefixReadsBackAs(text: string, o: Object, rest: string) {
    forall t :: t == text ==> ParsePrefix(t) == Some((o, rest))
  }

  function ParseScalar(s: string): (r: Option<(Scalar, string)>)
    ensures r.Some? ==> |r.value.1| < |s|
  {
    if s != [] && s[0] == '"' then
      match ParseQuoted(s)
      case None => None
      case Some((t, rest)) => Some((Str(t), rest))
    else
      match ParseInt(s)
      case None => None
      case Some((n, rest)) => Some((Num(n), rest))
  }

  function ParseMember(s: string): (r: Option<(Member, string)>)
    ensures r.Some? ==> |r.value.1| < |s|
  {
    match ParseQuoted(s)
    case None => None
    case Some((key, rest)) =>
      if rest != [] && rest[0] == ':' then
        match ParseScalar(rest[1..])
        case None => None
        case Some((v, rest')) => Some(((key, v), rest'))
      else None
  }

  /** Reads members separated by commas, up to and including the closing brace. */
  function ParseMembers(s: string): (r: Option<(Object, string)>)
    ensures r.Some? ==> |r.value.1| < |s|
    decreases |s|
  {
    match ParseMember(s)
    case None => None
    case Some((m, rest)) =>
      if rest != [] && rest[0] == ',' then
        match ParseMembers(rest[1..])
        case None => None
        case Some((ms, rest')) => Some(([m] + ms, rest'))
      else if rest != [] && rest[0] == '}' then Some(([m], rest[1..]))
      else None
  }

  /** Reads one object from the front of `s` and returns what follows it. */
  function ParsePrefix(s: string): (r: Option<(Object, string)>)
    ensures r.Some? ==> |r.value.1| < |s|
  {
    if |s| >= 2 && s[0] == '{' && s[1] == '}' then Some(([], s[2..]))
    else if s != [] && s[0] == '{' then ParseMembers(s[1..])
    else None
  }

  /** Reads a text that is exactly one object. */
  function Parse(s: string): Option<Object>
  {
    match ParsePrefix(s)
    case None => None
    case Some((o, rest)) => if rest == [] then Some(o) else None
  }

  // ---------------------------------------------------------------- round trip

  lemma {:induction false} NatToDecimalShape(n: nat)
    ensures |NatToDecimal(n)| > 0 && AllDigits(NatToDecimal(n))
    ensures |NatToDecimal(n)| > 1 ==> NatToDecimal(n)[0] != '0'
    decreases n
  {
    if n >= 10 {
      NatToDecimalShape(n / 10);
      assert NatToDecimal(n)[0] == NatToDecimal(n / 10)[0];
    }
  }

  lemma {:induction false} DecimalValueOfNat(n: nat)
    ensures AllDigits(NatToDecimal(n)) && DecimalValue(NatToDecimal(n)) == n
    decreases n
  {
    NatToDecimalShape(n);
    var ds := NatToDecimal(n);
    if n >= 10 {
      DecimalValueOfNat(n / 10);
      assert ds[..|ds| - 1] == NatToDecimal(n / 10);
    }
  }

  lemma {:induction false} DigitsPrefixOfDigits(ds: string, rest: string)
    requires AllDigits(ds)
    requires rest == [] || !IsDigit(rest[0])
    ensures DigitsPrefix(ds + rest) == |ds|
    decreases |ds|
  {
    if ds == [] {
      assert ds + rest == rest;
    } else {
      DigitsPrefixOfDigits(ds[1..], rest);
      assert (ds + rest)[1..] == ds[1..] + rest;
    }
  }

  lemma NatRoundTrip(n: nat, rest: string)
    requires rest == [] || !IsDigit(rest[0])
    ensures ParseNat(NatToDecimal(n) + rest) == Some((n, rest))
  {
    var ds := NatToDecimal(n);
    NatToDecimalShape(n);
    DecimalValueOfNat(n);
    DigitsPrefixOfDigits(ds, rest);
    var s := ds + rest;
    assert s[..|ds|] == ds;
    assert s[|ds|..] == rest;
  }

  lemma IntRoundTrip(i: int, rest: string)
    requires rest == [] || !IsDigit(rest[0])
    ensures ParseInt(IntToDecimal(i) + rest) == Some((i, rest))
  {
    if i < 0 {
      NegativeRoundTrip(-i, rest);
    } else {
      NonNegativeRoundTrip(i, rest);
    }
  }

  lemma NegativeRoundTrip(n: nat, rest: string)
    requires n > 0
    requires rest == [] || !IsDigit(rest[0])
    ensures ParseInt("-" + NatToDecimal(n) + rest) == Some((-(n as int), rest))
  {
    var digits := NatToDecimal(n) + rest;
    NatRoundTrip(n, rest);
    assert "-" + NatToDecimal(n) + rest == ['-'] + digits;
    assert (['-'] + digits)[1..] == digits;
  }

  lemma NonNegativeRoundTrip(n: nat, rest: string)
    requires rest == [] || !IsDigit(rest[0])
    ensures ParseInt(NatToDecimal(n) + rest) == Some((n, rest))
  {
    NatRoundTrip(n, rest);
    NatToDecimalShape(n);
    assert (NatToDecimal(n) + rest)[0] == NatToDecimal(n)[0];
  }

  lemma ShortEscapeInverse(c: char)
    requires ShortEscape(c).Some?
    ensures Unescape(ShortEscape(c).value) == Some(c)
  {
  }

  /** A backslash sequence that reads back as `c`, then the rest of the literal. */
  lemma EscapedStep(c: char, e: string, tail: string)
    requires |e| >= 2 && e[0] == '\\'
    requires ParseEscape(e[1..] + tail) == Some((c, tail))
    ensures ParseStringBody(e + tail) == Prepend(c, ParseStringBody(tail))
  {
    assert (e + tail)[1..] == e[1..] + tail;
  }

  lemma ShortEscapeParses(c: char, tail: string)
    requires ShortEscape(c).Some?
    ensures ParseEscape(EscapeChar(c)[1..] + tail) == Some((c, tail))
  {
    var letter := ShortEscape(c).value;
    ShortEscapeInverse(c);
    assert EscapeChar(c)[1..] + tail == [letter] + tail;
    assert ([letter] + tail)[1..] == tail;
  }

  lemma HexDigitValue(d: nat)
    requires d < 16
    ensures HexValue(HexDigit(d)) == Some(d)
  {
  }

  lemma Hex4OfByte(hi: nat, lo: nat)
    requires hi < 16 && lo < 16
    ensures Hex4(['0', '0', HexDigit(hi), HexDigit(lo)]) == Some(16 * hi + lo)
  {
    HexDigitValue(hi);
    HexDigitValue(lo);
  }

  lemma UnicodeEscapeParses(c: char, tail: string)
    requires ShortEscape(c).None? && c as int < 0x20
    ensures ParseEscape(EscapeChar(c)[1..] + tail) == Some((c, tail))
  {
    var hi, lo := c as int / 16, c as int % 16;
    var hex := ['0', '0', HexDigit(hi), HexDigit(lo)];
    var s := EscapeChar(c)[1..] + tail;
    assert s == ['u'] + hex + tail;
    assert s[1..5] == hex && s[5..] == tail;
    Hex4OfByte(hi, lo);
    assert 16 * hi + lo == c as int;
  }

  /** Parsing one escaped character, then the rest of the literal. */
  lemma EscapeCharStep(c: char, tail: string)
    ensures ParseStringBody(EscapeChar(c) + tail) == Prepend(c, ParseStringBody(tail))
  {
    if ShortEscape(c).Some? {
      ShortEscapeParses(c, tail);
      EscapedStep(c, EscapeChar(c), tail);
    } else if c as int < 0x20 {
      UnicodeEscapeParses(c, tail);
      EscapedStep(c, EscapeChar(c), tail);
    } else {
      assert ([c] + tail)[1..] == tail;
    }
  }

  lemma {:induction false} StringBodyRoundTrip(s: string, rest: string)
    ensures ParseStringBody(Escape(s) + "\"" + rest) == Some((s, rest))
    decreases |s|
  {
    if s == [] {
      assert Escape(s) + "\"" + rest == "\"" + rest;
    } else {
      var tail := Escape(s[1..]) + "\"" + rest;
      StringBodyRoundTrip(s[1..], rest);
      assert Escape(s) + "\"" + rest == EscapeChar(s[0]) + tail;
      EscapeCharStep(s[0], tail);
      assert [s[0]] + s[1..] == s;
    }
  }

  lemma QuotedRoundTrip(s: string, rest: string)
    ensures ParseQuoted(Quote(s) + rest) == Some((s, rest))
  {
    StringBodyRoundTrip(s, rest);
    assert (Quote(s) + rest)[1..] == Escape(s) + "\"" + rest;
  }

  lemma ScalarRoundTrip(v: Scalar, rest: string)
    requires rest == [] || !IsDigit(rest[0])
    ensures ParseScalar(SerializeScalar(v) + rest) == Some((v, rest))
  {
    match v
    case Num(n) =>
      IntRoundTrip(n, rest);
      if n >= 0 {
        NatToDecimalShape(n);
      }
      assert (IntToDecimal(n) + rest)[0] == IntToDecimal(n)[0];
    case Str(t) =>
      QuotedRoundTrip(t, rest);
  }

  lemma MemberRoundTrip(m: Member, rest: string)
    requires rest == [] || !IsDigit(rest[0])
    ensures ParseMember(SerializeMember(m) + rest) == Some((m, rest))
  {
    var value := SerializeScalar(m.1);
    var after := ":" + value + rest;
    Regroup3(Quote(m.0), ":", value, rest);
    QuotedRoundTrip(m.0, after);
    Regroup2(":", value, rest);
    assert after[0] == ':' && after[1..] == value + rest;
    ScalarRoundTrip(m.1, rest);
    ParseMemberStep(SerializeMember(m) + rest, m.0, after, m.1, rest);
  }

  lemma ParseMemberStep(s: string, key: string, after: string, v: Scalar, rest: string)
    requires ParseQuoted(s) == Some((key, after))
    requires after != [] && after[0] == ':'
    requires ParseScalar(after[1..]) == Some((v, rest))
    ensures ParseMember(s) == Some(((key, v), rest))
  {
  }

  /*
   * Regrouping and indexing steps on concatenations, stated over plain
   * strings so that using them does not unfold the functions that produced
   * the parts.
   */
  lemma Regroup2(a: string, b: string, c: string)
    ensures a + b + c == a + (b + c)
  {
  }

  lemma Regroup3(a: string, b: string, c: string, d: string)
    ensures a + b + c + d == a + (b + c + d)
  {
  }

  lemma HeadOfConcat(a: string, b: string)
    requires |a| > 0
    ensures |a + b| > 0 && (a + b)[0] == a[0]
  {
  }

  /** One member, followed by a comma or the closing brace. */
  lemma ParseMembersAfterMember(m: Member, after: string)
    requires after != [] && (after[0] == ',' || after[0] == '}')
    ensures ParseMembers(SerializeMember(m) + after)
         == if after[0] == '}' then Some(([m], after[1..]))
            else match ParseMembers(after[1..])
                 case None => None
                 case Some((ms, rest)) => Some(([m] + ms, rest))
  {
    MemberRoundTrip(m, after);
    ParseMembersStep(SerializeMember(m) + after, m, after);
  }

  lemma ParseMembersStep(s: string, m: Member, after: string)
    requires ParseMember(s) == Some((m, after))
    requires after != [] && (after[0] == ',' || after[0] == '}')
    ensures ParseMembers(s)
         == if after[0] == '}' then Some(([m], after[1..]))
            else match ParseMembers(after[1..])
                 case None => None
                 case Some((ms, rest)) => Some(([m] + ms, rest))
  {
  }

  lemma {:induction false} MembersRoundTrip(ms: Object, rest: string)
    requires |ms| > 0
    ensures ParseMembers(SerializeMembers(ms) + "}" + rest) == Some((ms, rest))
    decreases |ms|
  {
    if |ms| == 1 {
      LastMemberRoundTrip(ms[0], rest);
      assert [ms[0]] == ms;
    } else {
      var tail := SerializeMembers(ms[1..]) + "}" + rest;
      MembersRoundTrip(ms[1..], rest);
      MemberThenMore(ms[0], ms[1..], tail, rest);
      ConsText(ms, rest);
      assert [ms[0]] + ms[1..] == ms;
    }
  }

  lemma ConsText(ms: Object, rest: string)
    requires |ms| > 1
    ensures SerializeMembers(ms) + "}" + rest == SerializeMember(ms[0]) + ("," + (SerializeMembers(ms[1..]) + "}" + rest))
  {
    var head, more := SerializeMember(ms[0]), SerializeMembers(ms[1..]);
    assert SerializeMembers(ms) == head + "," + more;
    Regroup(head, ",", more, "}", rest);
  }

  lemma Regroup(a: string, b: string, c: string, d: string, e: string)
    ensures a + b + c + d + e == a + (b + (c + d + e))
  {
  }

  lemma LastMemberRoundTrip(m: Member, rest: string)
    ensures ParseMembers(SerializeMembers([m]) + "}" + rest) == Some(([m], rest))
  {
    assert SerializeMembers([m]) + "}" + rest == SerializeMember(m) + ("}" + rest);
    ParseMembersAfterMember(m, "}" + rest);
    assert ("}" + rest)[1..] == rest;
  }

  lemma MemberThenMore(m: Member, more: Object, tail: string, rest: string)
    requires ParseMembers(tail) == Some((more, rest))
    ensures ParseMembers(SerializeMember(m) + ("," + tail)) == Some(([m] + more, rest))
  {
    ParseMembersAfterMember(m, "," + tail);
    assert ("," + tail)[1..] == tail;
  }

  lemma MembersStartWithQuote(ms: Object)
    requires |ms| > 0
    ensures |SerializeMembers(ms)| > 0 && SerializeMembers(ms)[0] == '"'
  {
    var key := Quote(ms[0].0);
    var first := SerializeMember(ms[0]);
    assert |key| > 0 && key[0] == '"';
    HeadOfConcat(key, ":");
    HeadOfConcat(key + ":", SerializeScalar(ms[0].1));
    if |ms| > 1 {
      HeadOfConcat(first, ",");
      HeadOfConcat(first + ",", SerializeMembers(ms[1..]));
    }
  }

  /**
   * Reading an object off the front of any text that starts with its
   * serialization gives the object back and leaves the rest untouched.
   */
  lemma PrefixRoundTrip(o: Object, rest: string)
    ensures ParsePrefix(Serialize(o) + rest) == Some((o, rest))
  {
    if o == [] {
      assert Serialize(o) + rest == "{}" + rest;
      assert ("{}" + rest)[2..] == rest;
    } else {
      var body := SerializeMembers(o) + "}" + rest;
      assert Serialize(o) + rest == "{" + body;
      MembersStartWithQuote(o);
      assert ("{" + body)[1] == '"' && ("{" + body)[1..] == body;
      MembersRoundTrip(o, rest);
    }
  }

  /** The serializer and the parser are inverse on every flat object. */
  lemma RoundTrip(o: Object)
    ensures Parse(Serialize(o)) == Some(o)
  {
    PrefixRoundTrip(o, "");
    assert Serialize(o) + "" == Serialize(o);
  }

  /** Two objects with the same text are the same object. */
  lemma SerializeInjective(o1: Object, o2: Object)
    requires Serialize(o1) == Serialize(o2)
    ensures o1 == o2
  {
    RoundTrip(o1);
    RoundTrip(o2);
  }
}
