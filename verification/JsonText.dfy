/** `json.dumps` of a list of strings with ASCII output, and why the text determines the list. */
module JsonText {

  function HexDigit(n: nat): char
    requires n < 16
  {
    if n < 10 then (48 + n) as char else (87 + n) as char
  }

  function Hex4(n: nat): (s: string)
    requires n < 0x10000
  {
    ['\\', 'u', HexDigit(n / 16 / 16 / 16), HexDigit(n / 16 / 16 % 16), HexDigit(n / 16 % 16), HexDigit(n % 16)]
  }

  predicate IsShort(c: char) {
    c in "\"\\\n\r\t\U{0008}\U{000C}"
  }

  /** The letter after the backslash in a two-character escape. */
  function Letter(c: char): char
    requires IsShort(c)
  {
    if c == '\n' then 'n' else if c == '\r' then 'r' else if c == '\t' then 't'
    else if c == '\U{0008}' then 'b' else if c == '\U{000C}' then 'f' else c
  }

  predicate IsPlain(c: char) {
    ' ' <= c <= '~' && !IsShort(c)
  }

  /** The code unit of a character, or its high surrogate. */
  function High(c: char): nat {
    if c as int < 0x10000 then c as int else 0xD800 + (c as int - 0x10000) / 0x400
  }

  /** The low surrogate of a character beyond the basic plane. */
  function Low(c: char): string {
    if c as int < 0x10000 then "" else Hex4(0xDC00 + (c as int - 0x10000) % 0x400)
  }

  /** One character of a string literal. */
  function Escape(c: char): string {
    if IsPlain(c) then [c]
    else if IsShort(c) then ['\\', Letter(c)]
    else Hex4(High(c)) + Low(c)
  }

  // The list syntax, for any encoding of characters.

  function EncodeAll(enc: char -> string, s: string): string {
    if s == [] then [] else enc(s[0]) + EncodeAll(enc, s[1..])
  }

  function Quote(enc: char -> string, s: string): string {
    "\"" + (EncodeAll(enc, s) + "\"")
  }

  function Tail(enc: char -> string, parts: seq<string>): string {
    if parts == [] then "]" else ", " + (Quote(enc, parts[0]) + Tail(enc, parts[1..]))
  }

  function Dumps(enc: char -> string, parts: seq<string>): string {
    if parts == [] then "[]" else "[" + (Quote(enc, parts[0]) + Tail(enc, parts[1..]))
  }

  function JsonDumps(parts: seq<string>): string {
    Dumps(Escape, parts)
  }

  // ----- what the text is -----

  function DigitValue(c: char): int {
    if '0' <= c <= '9' then c as int - '0' as int else c as int - 'a' as int + 10
  }

  function HexValue(s: string): int {
    if s == [] then 0 else 16 * HexValue(s[..|s| - 1]) + DigitValue(s[|s| - 1])
  }

  predicate IsUnit(s: string, n: int) {
    |s| == 6 && s[0] == '\\' && s[1] == 'u' && HexValue(s[2..]) == n && forall i | 2 <= i < 6 :: s[i] in "0123456789abcdef"
  }

  lemma HexDigitDenotes(n: nat)
    requires n < 16
    ensures HexDigit(n) in "0123456789abcdef"
    ensures DigitValue(HexDigit(n)) == n
  {
    assert "0123456789abcdef"[n] == HexDigit(n);
  }

  lemma Hex4Denotes(n: nat)
    requires n < 0x10000
    ensures IsUnit(Hex4(n), n)
  {
    var a, b, c, d := n / 16 / 16 / 16, n / 16 / 16 % 16, n / 16 % 16, n % 16;
    HexDigitDenotes(a);
    HexDigitDenotes(b);
    HexDigitDenotes(c);
    HexDigitDenotes(d);
    FourDigits(HexDigit(a), HexDigit(b), HexDigit(c), HexDigit(d));
    hide HexDigit, HexValue;
    assert Hex4(n)[2..] == [HexDigit(a), HexDigit(b), HexDigit(c), HexDigit(d)];
    assert n == 16 * (16 * (16 * a + b) + c) + d;
  }

  lemma FourDigits(a: char, b: char, c: char, d: char)
    ensures HexValue([a, b, c, d]) == 16 * (16 * (16 * DigitValue(a) + DigitValue(b)) + DigitValue(c)) + DigitValue(d)
  {
    hide DigitValue;
    assert [a, b, c, d][..3] == [a, b, c] && [a, b, c][..2] == [a, b] && [a, b][..1] == [a] && [a][..0] == [];
    assert HexValue([a]) == DigitValue(a);
    assert HexValue([a, b]) == 16 * DigitValue(a) + DigitValue(b);
    assert HexValue([a, b, c]) == 16 * (16 * DigitValue(a) + DigitValue(b)) + DigitValue(c);
  }

  /** Printable ASCII stands for itself, but for quote and backslash; these and five control characters have a letter. */
  lemma ShortEscapes(c: char)
    ensures ' ' <= c <= '~' && c != '"' && c != '\\' ==> Escape(c) == [c]
    ensures Escape('"') == "\\\"" && Escape('\\') == "\\\\"
    ensures Escape('\n') == "\\n" && Escape('\r') == "\\r" && Escape('\t') == "\\t"
    ensures Escape('\U{0008}') == "\\b" && Escape('\U{000C}') == "\\f"
  {
    hide Hex4;
  }

  /** Everything else is written as one UTF-16 unit in lower-case hexadecimal, */
  lemma UnitEscape(c: char)
    requires !(' ' <= c <= '~') && c !in "\n\r\t\U{0008}\U{000C}" && c as int < 0x10000
    ensures IsUnit(Escape(c), c as int)
  {
    assert !IsPlain(c) && !IsShort(c);
    hide IsPlain, IsShort, IsUnit, Hex4;
    Hex4Denotes(c as int);
    assert Escape(c) == Hex4(c as int) + "";
    assert Escape(c) == Hex4(c as int);
  }

  /** or as the two units of a surrogate pair. */
  lemma PairEscape(c: char) returns (high: int, low: int)
    requires c as int >= 0x10000
    ensures |Escape(c)| == 12 && IsUnit(Escape(c)[..6], high) && IsUnit(Escape(c)[6..], low)
    ensures 0xD800 <= high < 0xDC00 <= low < 0xE000 && c as int == 0x10000 + (high - 0xD800) * 0x400 + (low - 0xDC00)
  {
    assert !IsPlain(c) && !IsShort(c);
    hide IsPlain, IsShort, IsUnit, Hex4, Escape;
    high, low := High(c), 0xDC00 + (c as int - 0x10000) % 0x400;
    Hex4Denotes(high);
    Hex4Denotes(low);
    SplitEscape(c, low);
  }

  lemma SplitEscape(c: char, low: nat)
    requires !IsPlain(c) && !IsShort(c) && c as int >= 0x10000 && low == 0xDC00 + (c as int - 0x10000) % 0x400
    ensures |Escape(c)| == 12 && Escape(c)[..6] == Hex4(High(c)) && Escape(c)[6..] == Hex4(low)
  {
    assert Escape(c) == Hex4(High(c)) + Hex4(low);
    hide HexDigit, Escape, IsPlain, IsShort, High;
  }

  /** A list is its quoted strings between brackets, with a comma and a blank between two of them. */
  lemma DumpsMeaning(p: string, rest: seq<string>)
    ensures JsonDumps([]) == "[]"
    ensures JsonDumps([p]) == "[\"" + EncodeAll(Escape, p) + "\"]"
    ensures rest != [] ==> JsonDumps([p] + rest) == "[\"" + EncodeAll(Escape, p) + "\", " + JsonDumps(rest)[1..]
  {
    hide EncodeAll;
    assert ([p] + rest)[1..] == rest && [p][1..] == [];
  }

  // ----- no escape sequence is a prefix of another, and none starts with the closing quote -----

  ghost predicate PrefixFree(enc: char -> string) {
    && (forall c :: enc(c) != [] && enc(c)[0] != '"')
    && (forall c, d, s, t :: enc(c) + s == enc(d) + t ==> c == d && s == t)
  }

  lemma HexDigitInjective(m: nat, n: nat)
    requires m < 16 && n < 16 && HexDigit(m) == HexDigit(n)
    ensures m == n
  {
  }

  lemma Hex4Injective(m: nat, n: nat, s: string, t: string)
    requires m < 0x10000 && n < 0x10000
    requires Hex4(m) + s == Hex4(n) + t
    ensures m == n && s == t
  {
    var l, r := Hex4(m) + s, Hex4(n) + t;
    assert s == l[6..] && t == r[6..];
    assert l[..6] == Hex4(m) && r[..6] == Hex4(n);
    assert forall i | 0 <= i < 6 :: Hex4(m)[i] == Hex4(n)[i];
    HexDigitInjective(m / 16 / 16 / 16, n / 16 / 16 / 16);
    HexDigitInjective(m / 16 / 16 % 16, n / 16 / 16 % 16);
    HexDigitInjective(m / 16 % 16, n / 16 % 16);
    HexDigitInjective(m % 16, n % 16);
  }

  lemma HexEscapeInjective(c: char, d: char, s: string, t: string)
    requires Hex4(High(c)) + Low(c) + s == Hex4(High(d)) + Low(d) + t
    ensures c == d && s == t
  {
    assert Hex4(High(c)) + Low(c) + s == Hex4(High(c)) + (Low(c) + s);
    assert Hex4(High(d)) + Low(d) + t == Hex4(High(d)) + (Low(d) + t);
    Hex4Injective(High(c), High(d), Low(c) + s, Low(d) + t);
    if c as int >= 0x10000 {
      Hex4Injective(0xDC00 + (c as int - 0x10000) % 0x400, 0xDC00 + (d as int - 0x10000) % 0x400, s, t);
    } else {
      assert Low(c) + s == s && Low(d) + t == t;
    }
  }

  lemma EscapeInjective(c: char, d: char, s: string, t: string)
    requires Escape(c) + s == Escape(d) + t
    ensures c == d && s == t
  {
    var l, r := Escape(c) + s, Escape(d) + t;
    assert l[0] == Escape(c)[0] && r[0] == Escape(d)[0];
    if IsPlain(c) {
      assert s == l[1..] && t == r[1..];
    } else {
      assert l[1] == Escape(c)[1] && r[1] == Escape(d)[1];
      if IsShort(c) {
        assert s == l[2..] && t == r[2..];
      } else {
        HexEscapeInjective(c, d, s, t);
      }
    }
  }

  lemma EscapePrefixFree()
    ensures PrefixFree(Escape)
  {
    forall c, d, s, t | Escape(c) + s == Escape(d) + t
      ensures c == d && s == t
    {
      EscapeInjective(c, d, s, t);
    }
  }

  // ----- the text determines the list -----

  /** What follows the opening quote: the closing quote, or a character's code and what follows it. */
  function AfterQuote(enc: char -> string, p: string, s: string): string {
    EncodeAll(enc, p) + "\"" + s
  }

  lemma AfterQuoteUnfolds(enc: char -> string, p: string, s: string)
    ensures Quote(enc, p) + s == "\"" + AfterQuote(enc, p, s)
    ensures AfterQuote(enc, p, s) == if p == [] then "\"" + s else enc(p[0]) + AfterQuote(enc, p[1..], s)
  {
    if p != [] {
      var rest := EncodeAll(enc, p[1..]);
      assert EncodeAll(enc, p) == enc(p[0]) + rest;
      hide EncodeAll;
      assert (enc(p[0]) + rest) + "\"" + s == enc(p[0]) + (rest + "\"" + s);
    }
  }

  lemma {:induction false} AfterQuoteSplits(enc: char -> string, p: string, q: string, s: string, t: string)
    requires PrefixFree(enc)
    requires AfterQuote(enc, p, s) == AfterQuote(enc, q, t)
    ensures p == q && s == t
  {
    hide AfterQuote;
    AfterQuoteUnfolds(enc, p, s);
    AfterQuoteUnfolds(enc, q, t);
    var l, r := AfterQuote(enc, p, s), AfterQuote(enc, q, t);
    assert l[0] == if p == [] then '"' else enc(p[0])[0];
    assert r[0] == if q == [] then '"' else enc(q[0])[0];
    if p == [] {
      assert s == l[1..] && t == r[1..];
    } else {
      AfterQuoteSplits(enc, p[1..], q[1..], s, t);
      assert p == [p[0]] + p[1..] && q == [q[0]] + q[1..];
    }
  }

  lemma QuoteSplits(enc: char -> string, p: string, q: string, s: string, t: string)
    requires PrefixFree(enc)
    requires Quote(enc, p) + s == Quote(enc, q) + t
    ensures p == q && s == t
  {
    hide AfterQuote, Quote;
    AfterQuoteUnfolds(enc, p, s);
    AfterQuoteUnfolds(enc, q, t);
    assert AfterQuote(enc, p, s) == (Quote(enc, p) + s)[1..];
    assert AfterQuote(enc, q, t) == (Quote(enc, q) + t)[1..];
    AfterQuoteSplits(enc, p, q, s, t);
  }

  lemma {:induction false} TailInjective(enc: char -> string, p: seq<string>, q: seq<string>)
    requires PrefixFree(enc)
    requires Tail(enc, p) == Tail(enc, q)
    ensures p == q
  {
    var l, r := Tail(enc, p), Tail(enc, q);
    assert (p != [] ==> l[0] == ',') && (q != [] ==> r[0] == ',');
    if p != [] {
      assert l[2..] == Quote(enc, p[0]) + Tail(enc, p[1..]);
      assert r[2..] == Quote(enc, q[0]) + Tail(enc, q[1..]);
      QuoteSplits(enc, p[0], q[0], Tail(enc, p[1..]), Tail(enc, q[1..]));
      TailInjective(enc, p[1..], q[1..]);
      assert p == [p[0]] + p[1..] && q == [q[0]] + q[1..];
    }
  }

  lemma DumpsInjective(enc: char -> string, p: seq<string>, q: seq<string>)
    requires PrefixFree(enc)
    requires Dumps(enc, p) == Dumps(enc, q)
    ensures p == q
  {
    var l, r := Dumps(enc, p), Dumps(enc, q);
    assert (p != [] ==> l[1] == '"') && (q != [] ==> r[1] == '"');
    if p != [] {
      assert l[1..] == Quote(enc, p[0]) + Tail(enc, p[1..]);
      assert r[1..] == Quote(enc, q[0]) + Tail(enc, q[1..]);
      QuoteSplits(enc, p[0], q[0], Tail(enc, p[1..]), Tail(enc, q[1..]));
      TailInjective(enc, p[1..], q[1..]);
      assert p == [p[0]] + p[1..] && q == [q[0]] + q[1..];
    }
  }

  /** Two payloads are the same text exactly when they come from the same list of strings. */
  lemma JsonInjective(p: seq<string>, q: seq<string>)
    ensures JsonDumps(p) == JsonDumps(q) <==> p == q
  {
    EscapePrefixFree();
    if JsonDumps(p) == JsonDumps(q) {
      DumpsInjective(Escape, p, q);
    }
  }
}
