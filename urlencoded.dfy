/** The `application/x-www-form-urlencoded` serializer (section 5.2 of the
    WHATWG URL Standard, as implemented by the source).

    The source walks its input one UTF-16 code unit at a time and writes the
    hexadecimal value of the code unit itself, not of its UTF-8 bytes. A Dafny
    `string` holds Unicode scalar values, so each character is first split into
    the one or two code units JavaScript would see for it. */
module UrlEncoded {
  import opened JsCommon
  import opened Entries

  type CodeUnit = u: int | 0 <= u < 0x10000

  /** The UTF-16 code units of one character. */
  function Utf16(c: char): (r: seq<CodeUnit>)
    ensures 1 <= |r| <= 2
  {
    var v := c as int;
    if v < 0x10000 then [v]
    else [0xD800 + (v - 0x10000) / 0x400, 0xDC00 + (v - 0x10000) % 0x400]
  }

  /** `s.length` in JavaScript: the number of UTF-16 code units. */
  function CodeUnitLength(s: string): (r: nat)
    ensures r >= |s|
  {
    if s == [] then 0 else CodeUnitLength(s[..|s| - 1]) + |Utf16(s[|s| - 1])|
  }

  /** ASCII letters, digits and `-`, `.`, `_`, `*` are written unchanged. */
  predicate IsSafeUnit(u: int) {
    || 0x41 <= u <= 0x5A
    || 0x61 <= u <= 0x7A
    || 0x30 <= u <= 0x39
    || u == 0x2D || u == 0x2E || u == 0x5F || u == 0x2A
  }

  predicate IsUpperHexDigit(c: char) {
    '0' <= c <= '9' || 'A' <= c <= 'F'
  }

  /** The characters the encoder can emit. */
  predicate IsOutputChar(c: char) {
    IsSafeUnit(c as int) || c == '+' || c == '%'
  }

  function HexDigit(d: nat): (c: char)
    requires d < 16
    ensures IsUpperHexDigit(c) && IsSafeUnit(c as int)
  {
    if d < 10 then ('0' as int + d) as char else ('A' as int + d - 10) as char
  }

  /** `n.toString(16).toUpperCase()`: the shortest upper-case hexadecimal
      rendering of `n`. */
  function Hex(n: nat): (r: string)
    ensures |r| >= 1
  {
    if n < 16 then [HexDigit(n)] else Hex(n / 16) + [HexDigit(n % 16)]
  }

  lemma {:induction false} HexAlphabet(n: nat)
    ensures forall i :: 0 <= i < |Hex(n)| ==> IsUpperHexDigit(Hex(n)[i]) && IsSafeUnit(Hex(n)[i] as int)
  {
    if n >= 16 {
      HexAlphabet(n / 16);
    }
  }

  /** The value of a hexadecimal digit of either case. */
  function HexValue(c: char): (v: nat)
    ensures v < 16
  {
    if '0' <= c <= '9' then c as int - '0' as int
    else if 'A' <= c <= 'F' then c as int - 'A' as int + 10
    else if 'a' <= c <= 'f' then c as int - 'a' as int + 10
    else 0
  }

  predicate IsHexDigit(c: char) {
    '0' <= c <= '9' || 'A' <= c <= 'F' || 'a' <= c <= 'f'
  }

  /** The encoding of one code unit: itself if safe, `+` for a space, else `%`
      and its hexadecimal value padded to at least two digits. */
  function EncodeUnit(u: CodeUnit): (r: string)
    ensures |r| >= 1
    ensures IsSafeUnit(u) ==> r == [u as char]
    ensures u == 0x20 ==> r == "+"
  {
    if IsSafeUnit(u) then [u as char]
    else if u == 0x20 then "+"
    else
      var hex := Hex(u);
      "%" + (if |hex| == 1 then "0" + hex else hex)
  }

  function EncodeChar(c: char): (r: string)
    ensures |r| >= |Utf16(c)|
  {
    var units := Utf16(c);
    if |units| == 1 then EncodeUnit(units[0]) else EncodeUnit(units[0]) + EncodeUnit(units[1])
  }

  /** The value `percentEncode(s)` returns. Its output uses only the safe
      characters, `+` and `%` (so never `&`, `=` or `?`), and is at least as
      long as the input's JavaScript length. */
  function EncodeString(s: string): (r: string)
    ensures |r| >= CodeUnitLength(s)
  {
    if s == [] then "" else EncodeString(s[..|s| - 1]) + EncodeChar(s[|s| - 1])
  }

  predicate IsOutput(t: string) {
    forall i :: 0 <= i < |t| ==> IsOutputChar(t[i])
  }

  lemma UnitAlphabet(u: CodeUnit)
    ensures IsOutput(EncodeUnit(u))
  {
    if !IsSafeUnit(u) && u != 0x20 {
      HexAlphabet(u);
    }
  }

  lemma OutputConcat(a: string, b: string)
    requires IsOutput(a) && IsOutput(b)
    ensures IsOutput(a + b)
  {
    assert forall i :: 0 <= i < |a + b| ==> (a + b)[i] == if i < |a| then a[i] else b[i - |a|];
  }

  lemma CharAlphabet(c: char)
    ensures IsOutput(EncodeChar(c))
  {
    var units := Utf16(c);
    UnitAlphabet(units[0]);
    if |units| == 2 {
      UnitAlphabet(units[1]);
      OutputConcat(EncodeUnit(units[0]), EncodeUnit(units[1]));
    }
  }

  lemma {:induction false} EncodedAlphabet(s: string)
    ensures IsOutput(EncodeString(s))
  {
    if s != [] {
      EncodedAlphabet(s[..|s| - 1]);
      CharAlphabet(s[|s| - 1]);
      OutputConcat(EncodeString(s[..|s| - 1]), EncodeChar(s[|s| - 1]));
    }
  }

  /** `percentEncode`: grows the result one character at a time. */
  method PercentEncode(s: string) returns (result: string)
    ensures result == EncodeString(s)
  {
    result := "";
    for i := 0 to |s|
      invariant result == EncodeString(s[..i])
    {
      assert s[..i + 1][..i] == s[..i];
      result := result + EncodeChar(s[i]);
    }
    assert s[..|s|] == s;
  }

  lemma OutputHasNoSeparators(s: string)
    ensures '&' !in EncodeString(s) && '=' !in EncodeString(s) && '?' !in EncodeString(s)
  {
    var r := EncodeString(s);
    EncodedAlphabet(s);
    assert forall i :: 0 <= i < |r| ==> r[i] != '&' && r[i] != '=' && r[i] != '?';
  }

  lemma EncodeSnoc(s: string, c: char)
    ensures EncodeString(s + [c]) == EncodeString(s) + EncodeChar(c)
  {
    var t := s + [c];
    assert t[..|t| - 1] == s;
  }

  lemma {:induction false} EncodeConcat(a: string, b: string)
    ensures EncodeString(a + b) == EncodeString(a) + EncodeString(b)
    decreases |b|
  {
    if b == [] {
      assert a + b == a;
    } else {
      var b', last := b[..|b| - 1], b[|b| - 1];
      assert b == b' + [last];
      assert a + b == (a + b') + [last];
      EncodeSnoc(a + b', last);
      EncodeConcat(a, b');
      EncodeSnoc(b', last);
      AppendAssoc(EncodeString(a), EncodeString(b'), EncodeChar(last));
    }
  }

  /** A string made only of safe characters encodes to itself. */
  lemma {:induction false} SafeStringIsFixedPoint(s: string)
    requires forall i :: 0 <= i < |s| ==> IsSafeUnit(s[i] as int)
    ensures EncodeString(s) == s
  {
    if s != [] {
      var init, c := s[..|s| - 1], s[|s| - 1];
      SafeStringIsFixedPoint(init);
      assert s == init + [c];
      EncodeSnoc(init, c);
      assert EncodeChar(c) == [c] by {
        assert Utf16(c) == [c as int];
      }
    }
  }

  /** Every other character of the Basic Multilingual Plane becomes `%` and
      its upper-case hexadecimal code, padded to two digits. */
  lemma OtherCharIsPercentHex(c: char)
    requires c as int < 0x10000 && !IsSafeUnit(c as int) && c != ' '
    ensures EncodeString([c]) == "%" + (if c as int < 16 then "0" + Hex(c as int) else Hex(c as int))
  {
    assert [c][..0] == [];
  }

  lemma EncodeSingle(c: char)
    ensures EncodeString([c]) == EncodeChar(c)
  {
    assert [c][..0] == [];
  }

  lemma EncodeCons(c: char, rest: string)
    ensures EncodeString([c] + rest) == EncodeChar(c) + EncodeString(rest)
  {
    EncodeConcat([c], rest);
    EncodeSingle(c);
  }

  lemma EncodeExamples()
    ensures EncodeString(" ") == "+"
    ensures EncodeString("\n") == "%0A"
    ensures EncodeString([0xE9 as char]) == "%E9"
    ensures EncodeString([0x20AC as char]) == "%20AC"
  {
    EncodeSingle(' ');
    EncodeSingle('\n');
    EncodeSingle(0xE9 as char);
    EncodeSingle(0x20AC as char);
    assert Hex(0xE9) == Hex(0xE) + "9";
    assert Hex(0x20) == Hex(0x2) + "0";
    assert Hex(0x20A) == Hex(0x20) + "A";
    assert Hex(0x20AC) == Hex(0x20A) + "C";
  }

  /** Because the hexadecimal code is not fixed-width, two different strings
      can encode to the same text: U+0010 followed by `0`, and U+0100, both
      encode to `%100`. */
  lemma EncodingIsNotInjective()
    ensures EncodeString([0x10 as char, '0']) == EncodeString([0x100 as char]) == "%100"
  {
    assert [0x10 as char, '0'][..1] == [0x10 as char];
    assert [0x10 as char][..0] == [];
    assert [0x100 as char][..0] == [];
    assert Hex(0x100) == Hex(0x10) + "0";
    assert Hex(0x10) == "10";
  }

  // ---------------------------------------------------------------------------
  // A Latin-1 percent-decoder: `+` becomes a space and `%XX` the character
  // U+00XX. It inverts the encoder on characters below U+0100, where every
  // code is exactly two digits. The URL Standard's urlencoded parser instead
  // decodes the `%XX` bytes as UTF-8; the two agree on ASCII text only.

  function PercentDecode(t: string): string
    decreases |t|
  {
    if t == [] then []
    else if t[0] == '+' then " " + PercentDecode(t[1..])
    else if t[0] == '%' && |t| >= 3 && IsHexDigit(t[1]) && IsHexDigit(t[2]) then
      [(HexValue(t[1]) * 16 + HexValue(t[2])) as char] + PercentDecode(t[3..])
    else [t[0]] + PercentDecode(t[1..])
  }

  lemma HexDigitValue(d: nat)
    requires d < 16
    ensures HexValue(HexDigit(d)) == d && IsHexDigit(HexDigit(d))
  {
  }

  lemma TwoDigitHex(n: nat)
    requires n < 0x100
    ensures (if n < 16 then "0" + Hex(n) else Hex(n)) == [HexDigit(n / 16), HexDigit(n % 16)]
  {
    if n >= 16 {
      assert Hex(n / 16) == [HexDigit(n / 16)];
    }
  }

  lemma DecodeEncodeChar(c: char, rest: string)
    requires c as int < 0x100
    ensures PercentDecode(EncodeChar(c) + rest) == [c] + PercentDecode(rest)
  {
    var u := c as int;
    var t := EncodeChar(c) + rest;
    if IsSafeUnit(u) {
      assert t == [c] + rest;
      assert t[1..] == rest;
    } else if u == 0x20 {
      assert t == "+" + rest;
      assert t[1..] == rest;
    } else {
      TwoDigitHex(u);
      HexDigitValue(u / 16);
      HexDigitValue(u % 16);
      assert t == ['%', HexDigit(u / 16), HexDigit(u % 16)] + rest;
      assert t[3..] == rest;
    }
  }

  predicate Latin1(s: string) {
    forall i :: 0 <= i < |s| ==> s[i] as int < 0x100
  }

  /** On strings whose characters are all below U+0100, percent-decoding
      undoes the encoding. */
  lemma {:induction false} Latin1RoundTrip(s: string)
    requires Latin1(s)
    ensures PercentDecode(EncodeString(s)) == s
    decreases |s|
  {
    if s != [] {
      var c, rest := s[0], s[1..];
      assert s == [c] + rest;
      EncodeCons(c, rest);
      DecodeEncodeChar(c, EncodeString(rest));
      Latin1RoundTrip(rest);
    }
  }

  // ---------------------------------------------------------------------------
  // serialize

  /** `percentEncode(name) + "=" + percentEncode(value)` for a string entry. */
  function EncodePair(e: Entry): string
    requires e.value.Str?
  {
    EncodeString(e.name) + "=" + EncodeString(e.value.s)
  }

  function Parts(entries: seq<Entry>): (r: seq<string>)
    requires AllStrings(entries)
    ensures |r| == |entries|
    ensures forall i :: 0 <= i < |entries| ==> r[i] == EncodePair(entries[i])
  {
    if entries == [] then [] else [EncodePair(entries[0])] + Parts(entries[1..])
  }

  /** What calling `notImplemented` raises in this file, which never imports it. */
  const NotImplementedUndefined := ReferenceError("notImplemented is not defined")

  /** `serialize(entryList, encoding)`. A non-string value reaches the
      `notImplemented` call, which throws before the `name=` fallback. */
  function Serialize(entryList: seq<Entry>, encoding: string): (r: Result<string, JsError>)
    ensures r.Success? <==> AllStrings(entryList)
    ensures r.Failure? ==> r.error == NotImplementedUndefined
    ensures entryList == [] ==> r == Success("")
  {
    if AllStrings(entryList) then
      var parts := Parts(entryList);
      Success(if |parts| > 0 then Join(parts, "&") else "")
    else Failure(NotImplementedUndefined)
  }

  lemma PartSplitsAtEquals(e: Entry)
    requires e.value.Str?
    ensures '&' !in EncodePair(e)
    ensures Split(EncodePair(e), '=') == [EncodeString(e.name), EncodeString(e.value.s)]
  {
    OutputHasNoSeparators(e.name);
    OutputHasNoSeparators(e.value.s);
    SplitJoin([EncodeString(e.name), EncodeString(e.value.s)], '=');
    assert Join([EncodeString(e.name), EncodeString(e.value.s)], "=") == EncodePair(e);
  }

  /** No `&` or `=` leaks out of an encoded part: splitting the serialization
      on `&` gives exactly one part per entry, in order, and each part splits
      on `=` into the encoded name and the encoded value. */
  lemma SerializeSplits(entryList: seq<Entry>, encoding: string)
    requires AllStrings(entryList) && entryList != []
    ensures var parts := Split(Serialize(entryList, encoding).value, '&');
      && parts == Parts(entryList)
      && |parts| == |entryList|
      && forall i :: 0 <= i < |parts| ==>
           Split(parts[i], '=') == [EncodeString(entryList[i].name), EncodeString(entryList[i].value.s)]
  {
    var parts := Parts(entryList);
    forall k | 0 <= k < |parts| ensures '&' !in parts[k] && Split(parts[k], '=') == [EncodeString(entryList[k].name), EncodeString(entryList[k].value.s)] {
      PartSplitsAtEquals(entryList[k]);
    }
    SplitJoin(parts, '&');
  }

  /** A serialization never holds `?`, so it can be appended as a URL query. */
  lemma SerializeHasNoQuestionMark(entryList: seq<Entry>, encoding: string)
    requires AllStrings(entryList)
    ensures '?' !in Serialize(entryList, encoding).value
  {
    var parts := Parts(entryList);
    forall k | 0 <= k < |parts| ensures '?' !in parts[k] {
      OutputHasNoSeparators(entryList[k].name);
      OutputHasNoSeparators(entryList[k].value.s);
    }
    JoinExcludes(parts, "&", '?');
  }

  /** Every part holds `=`, so only the empty list serializes to `""`. */
  lemma SerializeEmptyIffNoEntries(entryList: seq<Entry>, encoding: string)
    requires AllStrings(entryList)
    ensures Serialize(entryList, encoding).value == "" <==> entryList == []
  {
    if entryList != [] {
      var parts := Parts(entryList);
      JoinStartsWithFirst(parts, "&");
      assert |parts[0]| >= 1;
    }
  }

  /** A urlencoded parser over the Latin-1 decoder above: split on `&`, skip
      empty pieces, split each at the first `=` and decode both halves. */
  function ParseParts(pieces: seq<string>): seq<(string, string)> {
    if pieces == [] then []
    else
      var rest := ParseParts(pieces[1..]);
      if pieces[0] == "" then rest
      else [(PercentDecode(Before(pieces[0], '=')), PercentDecode(After(pieces[0], '=')))] + rest
  }

  function Parse(s: string): seq<(string, string)> {
    ParseParts(Split(s, '&'))
  }

  predicate Latin1Entries(entries: seq<Entry>) {
    forall i :: 0 <= i < |entries| ==>
      Latin1(entries[i].name) && entries[i].value.Str? && Latin1(entries[i].value.s)
  }

  lemma {:induction false} ParsePartsInverse(entries: seq<Entry>)
    requires AllStrings(entries) && Latin1Entries(entries)
    ensures ParseParts(Parts(entries)) == StringPairs(entries)
  {
    if entries != [] {
      var e := entries[0];
      var p := EncodePair(e);
      OutputHasNoSeparators(e.name);
      BeforeAfterConcat(EncodeString(e.name), '=', EncodeString(e.value.s));
      assert p == EncodeString(e.name) + ['='] + EncodeString(e.value.s);
      Latin1RoundTrip(e.name);
      Latin1RoundTrip(e.value.s);
      assert p != "";
      assert Parts(entries)[1..] == Parts(entries[1..]);
      ParsePartsInverse(entries[1..]);
    }
  }

  /** Parsing the serialization of an entry list whose names and values are
      below U+0100 gives back its name/value pairs in order. */
  lemma SerializeParseRoundTrip(entryList: seq<Entry>, encoding: string)
    requires AllStrings(entryList) && Latin1Entries(entryList)
    ensures Parse(Serialize(entryList, encoding).value) == StringPairs(entryList)
  {
    if entryList == [] {
      assert Split("", '&') == [""];
    } else {
      var parts := Parts(entryList);
      forall k | 0 <= k < |parts| ensures '&' !in parts[k] {
        PartSplitsAtEquals(entryList[k]);
      }
      SplitJoin(parts, '&');
      ParsePartsInverse(entryList);
    }
  }

  lemma EncodeSpaceExample()
    ensures EncodeString("x y") == "x+y"
  {
    EncodeSpacedWords("x", "y");
    assert "x" + " " + "y" == "x y";
    assert "x" + "+" + "y" == "x+y";
  }

  lemma PartsExample()
    ensures AllStrings([Entry("a", Str("1")), Entry("b", Str("x y"))])
    ensures Parts([Entry("a", Str("1")), Entry("b", Str("x y"))]) == ["a=1", "b=x+y"]
  {
    SafeStringIsFixedPoint("a");
    SafeStringIsFixedPoint("1");
    SafeStringIsFixedPoint("b");
    EncodeSpaceExample();
    var l := [Entry("a", Str("1")), Entry("b", Str("x y"))];
    assert AllStrings(l);
    assert EncodePair(l[0]) == "a=1";
    assert EncodePair(l[1]) == "b=x+y";
  }

  lemma SerializeExample()
    ensures Serialize([Entry("a", Str("1")), Entry("b", Str("x y"))], "UTF-8") == Success("a=1&b=x+y")
  {
    PartsExample();
    assert Join(["b=x+y"], "&") == "b=x+y";
    assert Join(["a=1", "b=x+y"], "&") == "a=1" + "&" + "b=x+y";
    assert "a=1" + "&" + "b=x+y" == "a=1&b=x+y";
  }

  /** Two safe words around a space encode to the words around `+`. */
  lemma EncodeSpacedWords(a: string, b: string)
    requires forall i :: 0 <= i < |a| ==> IsSafeUnit(a[i] as int)
    requires forall i :: 0 <= i < |b| ==> IsSafeUnit(b[i] as int)
    ensures EncodeString(a + " " + b) == a + "+" + b
  {
    SafeStringIsFixedPoint(a);
    SafeStringIsFixedPoint(b);
    EncodeConcat(a + " ", b);
    EncodeSnoc(a, ' ');
    assert Utf16(' ') == [0x20];
  }

  lemma EncodeHiThereExample()
    ensures EncodeString("hi there") == "hi+there"
  {
    EncodeSpacedWords("hi", "there");
    assert "hi" + " " + "there" == "hi there";
    assert "hi" + "+" + "there" == "hi+there";
  }

  /** A one-entry list serializes to that entry's pair alone. */
  lemma SerializeSingle(e: Entry, encoding: string)
    requires e.value.Str?
    ensures Serialize([e], encoding) == Success(EncodePair(e))
  {
    assert [e][1..] == [];
  }

  lemma SerializeHiThereExample()
    ensures Serialize([Entry("q", Str("hi there"))], "UTF-8") == Success("q=hi+there")
  {
    var e := Entry("q", Str("hi there"));
    SerializeSingle(e, "UTF-8");
    SafeStringIsFixedPoint("q");
    EncodeHiThereExample();
    assert EncodePair(e) == "q" + "=" + "hi+there";
    assert "q" + "=" + "hi+there" == "q=hi+there";
  }
}
