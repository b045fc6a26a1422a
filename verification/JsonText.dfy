/** JSON text as UTF-16 code units: strings and their escapes, as printed and as read back. */
module JsonText {

  type CodeUnit = u: int | 0 <= u < 0x1_0000

  type Text = seq<CodeUnit>

  const QUOTATION_MARK: CodeUnit := 0x22
  const BACKSLASH: CodeUnit := 0x5C
  const LETTER_U: CodeUnit := 0x75

  /** A reader's result: the value read and the text after it. */
  datatype Parsed<+T> = Fail | Done(value: T, rest: Text)

  // ----- Hexadecimal escapes -----

  /** Lower-case digits, as printed. */
  function HexDigit(d: int): CodeUnit
    requires 0 <= d < 16
  {
    if d < 10 then 0x30 + d else 0x61 + d - 10
  }

  /** Either case is read; -1 for anything that is not a digit. */
  function HexValue(u: CodeUnit): (d: int)
    ensures -1 <= d < 16
  {
    if 0x30 <= u <= 0x39 then u - 0x30
    else if 0x61 <= u <= 0x66 then u - 0x61 + 10
    else if 0x41 <= u <= 0x46 then u - 0x41 + 10
    else -1
  }

  function HexEscape(u: CodeUnit): Text {
    [BACKSLASH, LETTER_U, HexDigit(u / 0x1000), HexDigit(u / 0x100 % 0x10), HexDigit(u / 0x10 % 0x10), HexDigit(u % 0x10)]
  }

  function ReadHex(text: Text): Parsed<CodeUnit> {
    if |text| < 4 then Fail
    else
      var a, b, c, d := HexValue(text[0]), HexValue(text[1]), HexValue(text[2]), HexValue(text[3]);
      if a < 0 || b < 0 || c < 0 || d < 0 then Fail
      else Done(a * 0x1000 + b * 0x100 + c * 0x10 + d, text[4..])
  }

  // ----- Escapes -----

  /** The letter of a two-character escape, or -1. */
  function ShortEscape(u: CodeUnit): (letter: int)
    ensures -1 <= letter < 0x1_0000
  {
    if u == 0x22 then 0x22
    else if u == 0x5C then 0x5C
    else if u == 0x08 then 0x62
    else if u == 0x0C then 0x66
    else if u == 0x0A then 0x6E
    else if u == 0x0D then 0x72
    else if u == 0x09 then 0x74
    else -1
  }

  /** What a two-character escape stands for, or -1; a reader also takes the escaped solidus. */
  function ShortMeaning(letter: CodeUnit): (u: int)
    ensures -1 <= u < 0x1_0000
  {
    if letter == 0x22 then 0x22
    else if letter == 0x5C then 0x5C
    else if letter == 0x2F then 0x2F
    else if letter == 0x62 then 0x08
    else if letter == 0x66 then 0x0C
    else if letter == 0x6E then 0x0A
    else if letter == 0x72 then 0x0D
    else if letter == 0x74 then 0x09
    else -1
  }

  predicate Leading(u: CodeUnit) {
    0xD800 <= u < 0xDC00
  }

  predicate Trailing(u: CodeUnit) {
    0xDC00 <= u < 0xE000
  }

  /** One code unit outside a surrogate pair: control characters and lone surrogates are escaped. */
  function EscapeUnit(u: CodeUnit): Text {
    if ShortEscape(u) >= 0 then [BACKSLASH, ShortEscape(u)]
    else if u < 0x20 || Leading(u) || Trailing(u) then HexEscape(u)
    else [u]
  }

  function Escape(s: Text): Text {
    if s == [] then []
    else if |s| > 1 && Leading(s[0]) && Trailing(s[1]) then [s[0], s[1]] + Escape(s[2..])
    else EscapeUnit(s[0]) + Escape(s[1..])
  }

  /** A string as printed. */
  function Quoted(s: Text): Text {
    [QUOTATION_MARK] + Escape(s) + [QUOTATION_MARK]
  }

  /** Reads the characters of a string up to its closing quotation mark. */
  function ReadChars(text: Text): (r: Parsed<Text>)
    ensures r.Done? ==> |r.rest| < |text|
    decreases |text|
  {
    if text == [] then Fail
    else if text[0] == QUOTATION_MARK then Done([], text[1..])
    else if text[0] != BACKSLASH then
      if text[0] < 0x20 then Fail else Prepend(text[0], ReadChars(text[1..]))
    else if |text| < 2 then Fail
    else if text[1] == LETTER_U then
      var hex := ReadHex(text[2..]);
      if hex.Fail? then Fail else Prepend(hex.value, ReadChars(text[6..]))
    else if ShortMeaning(text[1]) < 0 then Fail
    else Prepend(ShortMeaning(text[1]), ReadChars(text[2..]))
  }

  function Prepend(u: CodeUnit, r: Parsed<Text>): Parsed<Text> {
    if r.Fail? then Fail else Done([u] + r.value, r.rest)
  }

  function ReadString(text: Text): (r: Parsed<Text>)
    ensures r.Done? ==> |r.rest| < |text|
  {
    if text == [] || text[0] != QUOTATION_MARK then Fail else ReadChars(text[1..])
  }

  // ----- What is printed is read back -----

  lemma {:induction false} HexRead(u: CodeUnit, rest: Text)
    ensures ReadHex(HexEscape(u)[2..] + rest) == Done(u, rest)
  {
    var a, b, c, d := u / 0x1000, u / 0x100 % 0x10, u / 0x10 % 0x10, u % 0x10;
    FourDigits(u, a, b, c, d);
    assert HexEscape(u)[2..] == [HexDigit(a), HexDigit(b), HexDigit(c), HexDigit(d)];
  }

  lemma {:induction false} FourDigits(u: CodeUnit, a: int, b: int, c: int, d: int)
    requires a == u / 0x1000 && b == u / 0x100 % 0x10 && c == u / 0x10 % 0x10 && d == u % 0x10
    ensures a * 0x1000 + b * 0x100 + c * 0x10 + d == u
  {
    var high, middle := u / 0x100, u / 0x10;
    assert middle == high * 0x10 + c;
    assert high == a * 0x10 + b;
  }

  lemma {:induction false} EscapeUnitRead(u: CodeUnit, rest: Text)
    ensures ReadChars(EscapeUnit(u) + rest) == Prepend(u, ReadChars(rest))
  {
    var text := EscapeUnit(u) + rest;
    if ShortEscape(u) >= 0 {
      assert text[1] == ShortEscape(u) && text[2..] == rest;
    } else if u < 0x20 || Leading(u) || Trailing(u) {
      assert text[2..] == HexEscape(u)[2..] + rest && text[6..] == rest;
      HexRead(u, rest);
    } else {
      assert text[1..] == rest;
    }
  }

  lemma {:induction false} RawRead(u: CodeUnit, rest: Text)
    requires u >= 0x20 && u != QUOTATION_MARK && u != BACKSLASH
    ensures ReadChars([u] + rest) == Prepend(u, ReadChars(rest))
  {
    assert ([u] + rest)[1..] == rest;
  }

  lemma {:induction false} Regroup<T>(a: seq<T>, b: seq<T>, c: seq<T>)
    ensures a + b + c == a + (b + c)
  {
  }

  predicate StartsWithPair(s: Text) {
    |s| > 1 && Leading(s[0]) && Trailing(s[1])
  }

  lemma {:induction false} EscapePair(s: Text, tail: Text)
    requires StartsWithPair(s)
    ensures Escape(s) + tail == [s[0]] + ([s[1]] + (Escape(s[2..]) + tail))
    ensures s == [s[0]] + ([s[1]] + s[2..])
  {
  }

  lemma {:induction false} EscapeSingle(s: Text, tail: Text)
    requires s != [] && !StartsWithPair(s)
    ensures Escape(s) + tail == EscapeUnit(s[0]) + (Escape(s[1..]) + tail)
    ensures s == [s[0]] + s[1..]
  {
    Regroup(EscapeUnit(s[0]), Escape(s[1..]), tail);
  }

  lemma {:induction false} EscapeRead(s: Text, tail: Text)
    requires tail != [] && tail[0] == QUOTATION_MARK
    ensures ReadChars(Escape(s) + tail) == Done(s, tail[1..])
  {
    if s == [] {
      assert Escape(s) + tail == tail;
    } else if StartsWithPair(s) {
      var u, v, others := s[0], s[1], s[2..];
      EscapeRead(others, tail);
      EscapePair(s, tail);
      var inner := Escape(others) + tail;
      RawRead(u, [v] + inner);
      RawRead(v, inner);
    } else {
      var u, others := s[0], s[1..];
      EscapeRead(others, tail);
      EscapeSingle(s, tail);
      EscapeUnitRead(u, Escape(others) + tail);
    }
  }

  /** Reading a printed string gives the string back and stops right after it. */
  lemma {:induction false} QuotedRead(s: Text, rest: Text)
    ensures ReadString(Quoted(s) + rest) == Done(s, rest)
  {
    var text := Quoted(s) + rest;
    assert text[1..] == Escape(s) + ([QUOTATION_MARK] + rest);
    EscapeRead(s, [QUOTATION_MARK] + rest);
    assert ([QUOTATION_MARK] + rest)[1..] == rest;
  }

  // ----- The printed form is the shortest -----

  predicate Surrogate(u: CodeUnit) {
    Leading(u) || Trailing(u)
  }

  /** Every surrogate is half of a pair. */
  predicate WellFormed(text: Text) {
    text == [] ||
    (if StartsWithPair(text) then WellFormed(text[2..]) else !Surrogate(text[0]) && WellFormed(text[1..]))
  }

  predicate LowerCaseDigit(u: CodeUnit) {
    0x30 <= u <= 0x39 || 0x61 <= u <= 0x66
  }

  /** Printed text has no lone surrogate and no control character in it. */
  lemma {:induction false} EscapeIsWellFormed(s: Text, tail: Text)
    requires WellFormed(tail) && tail != [] && !Trailing(tail[0])
    ensures WellFormed(Escape(s) + tail) && forall i | 0 <= i < |Escape(s)| :: Escape(s)[i] >= 0x20
  {
    if s == [] {
      assert Escape(s) + tail == tail;
    } else if StartsWithPair(s) {
      EscapeIsWellFormed(s[2..], tail);
      assert (Escape(s) + tail)[2..] == Escape(s[2..]) + tail;
    } else {
      EscapeIsWellFormed(s[1..], tail);
      EscapeSingle(s, tail);
      UnitIsWellFormed(s[0], Escape(s[1..]) + tail);
    }
  }

  /** Nor has what stands for one unit, which in hexadecimal is written in lower case. */
  lemma {:induction false} UnitIsWellFormed(u: CodeUnit, rest: Text)
    requires WellFormed(rest)
    ensures WellFormed(EscapeUnit(u) + rest)
    ensures forall i | 0 <= i < |EscapeUnit(u)| :: EscapeUnit(u)[i] >= 0x20 && !Surrogate(EscapeUnit(u)[i])
    ensures |EscapeUnit(u)| == 6 ==> forall i | 2 <= i < 6 :: LowerCaseDigit(EscapeUnit(u)[i])
  {
    PlainIsWellFormed(EscapeUnit(u), rest);
  }

  lemma {:induction false} PlainIsWellFormed(plain: Text, rest: Text)
    requires WellFormed(rest) && forall i | 0 <= i < |plain| :: !Surrogate(plain[i])
    ensures WellFormed(plain + rest)
  {
    if plain == [] {
      assert plain + rest == rest;
    } else {
      PlainIsWellFormed(plain[1..], rest);
      assert (plain + rest)[1..] == plain[1..] + rest;
    }
  }

  /** No well-formed text that reads as the same string is shorter than the printed one. */
  lemma {:induction false} PrintedIsShortest(text: Text)
    requires ReadChars(text).Done? && WellFormed(text)
    ensures |Quoted(ReadChars(text).value)| <= 1 + |text| - |ReadChars(text).rest|
    decreases |text|
  {
    if text[0] == QUOTATION_MARK {
    } else if text[0] != BACKSLASH {
      if StartsWithPair(text) {
        assert ReadChars(text[1..]) == Prepend(text[1], ReadChars(text[2..])) by { assert text[1..][1..] == text[2..]; }
        var s := ReadChars(text).value;
        assert s[2..] == ReadChars(text[2..]).value;
        PrintedIsShortest(text[2..]);
      } else {
        PrintedIsShortest(text[1..]);
        LongerByUnit(text[0], ReadChars(text[1..]).value, 1);
      }
    } else if text[1] == LETTER_U {
      HexIsPlain(text);
      PrintedIsShortest(text[6..]);
      LongerByUnit(ReadHex(text[2..]).value, ReadChars(text[6..]).value, 6);
    } else {
      assert WellFormed(text[1..]) && text[1..][1..] == text[2..];
      PrintedIsShortest(text[2..]);
      LongerByUnit(ShortMeaning(text[1]), ReadChars(text[2..]).value, 2);
    }
  }

  /** One more unit makes the printed string longer by what that unit needs, at most. */
  lemma {:induction false} LongerByUnit(u: CodeUnit, s: Text, n: nat)
    requires n == 6 || |EscapeUnit(u)| <= n
    ensures |Escape([u] + s)| <= n + |Escape(s)|
  {
    var t := [u] + s;
    assert t[1..] == s;
    if StartsWithPair(t) {
      assert t[2..] == s[1..] && !StartsWithPair(s);
      assert |EscapeUnit(u)| == 6 && |EscapeUnit(s[0])| == 6;
    }
  }

  lemma {:induction false} HexIsPlain(text: Text)
    requires |text| >= 2 && text[0] == BACKSLASH && text[1] == LETTER_U && ReadHex(text[2..]).Done? && WellFormed(text)
    ensures WellFormed(text[6..])
  {
    WellFormedAfter(text, 6);
  }

  lemma {:induction false} WellFormedAfter(text: Text, n: nat)
    requires WellFormed(text) && n <= |text| && forall i | 0 <= i < n :: !Surrogate(text[i])
    ensures WellFormed(text[n..])
  {
    if n > 0 {
      WellFormedAfter(text[1..], n - 1);
      assert text[1..][n - 1..] == text[n..];
    }
  }
}
