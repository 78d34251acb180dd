/**
 * The text form of cached transactions: the debug print of a byte vector, `[1, 2, 255]`,
 * and the parser that reads it back.
 */
module CacheText {
  import opened Wrappers

  type Byte = x: int | 0 <= x < 256 witness 0

  // ---------- Printing

  function DigitChar(d: int): char
    requires 0 <= d < 10
  {
    ('0' as int + d) as char
  }

  function PrintNumber(n: nat): (s: string)
    ensures |s| > 0
  {
    if n < 10 then [DigitChar(n)] else PrintNumber(n / 10) + [DigitChar(n % 10)]
  }

  function PrintItems(bytes: seq<Byte>): string
    requires bytes != []
  {
    if |bytes| == 1 then PrintNumber(bytes[0])
    else PrintItems(bytes[..|bytes| - 1]) + ", " + PrintNumber(bytes[|bytes| - 1])
  }

  /** `{:?}` of a `Vec<u8>`. */
  function Print(bytes: seq<Byte>): string {
    if bytes == [] then "[]" else "[" + PrintItems(bytes) + "]"
  }

  // ---------- Byte indices into text

  /** The bytes of a character in UTF-8. */
  function Width(c: char): (w: nat)
    ensures 1 <= w <= 4 && (w == 1 <==> c as int < 128)
  {
    if c as int < 0x80 then 1 else if c as int < 0x800 then 2 else if c as int < 0x1_0000 then 3 else 4
  }

  /** `str::len`. */
  function ByteLength(s: string): nat {
    if s == [] then 0 else Width(s[0]) + ByteLength(s[1..])
  }

  /** The number of characters in the first `i` bytes; none if `i` is no character boundary. */
  function CharsIn(s: string, i: int): (k: Option<nat>)
    ensures k.Some? ==> k.value <= |s|
    decreases |s|
  {
    if i == 0 then Some(0)
    else if s == [] || i < Width(s[0]) then None
    else
      var rest :- CharsIn(s[1..], i - Width(s[0]));
      Some(rest + 1)
  }

  /** `&s[i..j]`, which panics off the character boundaries and if the range is reversed. */
  function Slice(s: string, i: int, j: int): Option<string> {
    var from :- CharsIn(s, i);
    var to :- CharsIn(s, j);
    if i <= j && from <= to then Some(s[from..to]) else None
  }

  // ---------- Parsing

  function WithoutSpaces(s: string): string {
    if s == [] then [] else WithoutSpaces(s[..|s| - 1]) + if s[|s| - 1] == ' ' then [] else [s[|s| - 1]]
  }

  function ExtendLast(parts: seq<string>, t: string): (r: seq<string>)
    requires |parts| > 0
    ensures |r| == |parts|
  {
    parts[..|parts| - 1] + [parts[|parts| - 1] + t]
  }

  /** `split(',')`: always at least one part. */
  function Split(s: string): (parts: seq<string>)
    ensures |parts| > 0
  {
    if s == [] then [[]]
    else
      var parts := Split(s[..|s| - 1]);
      var c := s[|s| - 1];
      if c == ',' then parts + [[]] else ExtendLast(parts, [c])
  }

  predicate IsDigit(c: char) {
    '0' <= c <= '9'
  }

  function ParseDigits(s: string): Option<Byte> {
    if s == [] then Some(0)
    else
      var value :- ParseDigits(s[..|s| - 1]);
      var c := s[|s| - 1];
      if !IsDigit(c) then None
      else
        var next := value * 10 + (c as int - '0' as int);
        if next < 256 then Some(next) else None
  }

  /** `str::parse::<u8>`: a plus sign is allowed before at least one digit. */
  function ParseByte(s: string): Option<Byte> {
    if s == [] then None
    else if s[0] == '+' then if |s| == 1 then None else ParseDigits(s[1..])
    else ParseDigits(s)
  }

  function ParseAll(parts: seq<string>): Option<seq<Byte>> {
    if parts == [] then Some([])
    else
      var before :- ParseAll(parts[..|parts| - 1]);
      var last :- ParseByte(parts[|parts| - 1]);
      Some(before + [last])
  }

  datatype Parsed = Bytes(bytes: seq<Byte>) | Invalid | Panics

  /** The first and the last byte are dropped, whatever they are; the slice may panic. */
  function Strip(s: string): Option<string> {
    Slice(s, 1, ByteLength(s) - 1)
  }

  function Parse(text: string): Parsed {
    match Strip(WithoutSpaces(text))
    case None => Panics
    case Some(inner) => ParseInner(inner)
  }

  function ParseInner(inner: string): Parsed {
    match ParseAll(Split(inner))
    case Some(bytes) => Bytes(bytes)
    case None => Invalid
  }

  // ---------- When it panics

  lemma {:induction false} LastByte(s: string)
    requires s != []
    ensures ByteLength(s) >= 1
    ensures CharsIn(s, ByteLength(s) - 1) == if Width(s[|s| - 1]) == 1 then Some(|s| - 1) else None
  {
    if |s| == 1 {
      assert s[1..] == [];
    } else {
      LastByte(s[1..]);
      assert s[1..][|s| - 2] == s[|s| - 1];
    }
  }

  lemma FirstByte(s: string)
    requires s != []
    ensures CharsIn(s, 1) == if Width(s[0]) == 1 then Some(1) else None
    ensures ByteLength(s) >= 2 <==> |s| >= 2 || Width(s[0]) >= 2
  {
    assert CharsIn(s[1..], 0) == Some(0);
    if |s| == 1 {
      assert s[1..] == [];
    } else {
      LastByte(s[1..]);
    }
  }

  /** Dropping the first and last byte gives a text exactly if both belong to one-byte characters. */
  predicate Strippable(s: string) {
    |s| >= 2 && s[0] as int < 128 && s[|s| - 1] as int < 128
  }

  lemma StripIff(s: string)
    ensures Strip(s) == if Strippable(s) then Some(s[1..|s| - 1]) else None
  {
    if s != [] {
      FirstByte(s);
      LastByte(s);
    }
  }

  lemma ParseStripped(text: string, s: string, inner: string)
    requires WithoutSpaces(text) == s && Strip(s) == Some(inner)
    ensures Parse(text) == ParseInner(inner)
  {
  }

  /** The parser panics if and only if, without its spaces, the text has no two ends of one byte each. */
  lemma ParsePanicsIff(text: string)
    ensures Parse(text).Panics? <==> !Strippable(WithoutSpaces(text))
  {
    StripIff(WithoutSpaces(text));
  }

  // ---------- What it accepts

  predicate AllDigits(s: string) {
    forall i :: 0 <= i < |s| ==> IsDigit(s[i])
  }

  /** The decimal value of digits, of any size. */
  function Decimal(s: string): nat
    requires AllDigits(s)
  {
    if s == [] then 0 else Decimal(s[..|s| - 1]) * 10 + (s[|s| - 1] as int - '0' as int)
  }

  lemma {:induction false} ParseDigitsIff(s: string)
    ensures ParseDigits(s) == if AllDigits(s) && Decimal(s) < 256 then Some(Decimal(s)) else None
  {
    if s != [] {
      ParseDigitsIff(s[..|s| - 1]);
      assert s == s[..|s| - 1] + [s[|s| - 1]];
    }
  }

  /** A byte is read from one or more digits, after at most one plus sign, whose value fits. */
  lemma ParseByteIff(s: string, b: Byte)
    ensures ParseByte(s) == Some(b) <==>
              var digits := if s != [] && s[0] == '+' then s[1..] else s;
              digits != [] && AllDigits(digits) && Decimal(digits) == b
  {
    ParseDigitsIff(s);
    if s != [] {
      ParseDigitsIff(s[1..]);
      assert s[0] == '+' ==> !IsDigit(s[0]);
    }
  }

  lemma {:induction false} ParseAllIff(parts: seq<string>, bytes: seq<Byte>)
    ensures ParseAll(parts) == Some(bytes) <==>
              |bytes| == |parts| && forall i :: 0 <= i < |parts| ==> ParseByte(parts[i]) == Some(bytes[i])
  {
    if parts != [] {
      var n := |parts| - 1;
      if bytes != [] {
        ParseAllIff(parts[..n], bytes[..|bytes| - 1]);
        assert bytes == bytes[..|bytes| - 1] + [bytes[|bytes| - 1]];
      }
      var before := ParseAll(parts[..n]);
      if before.Some? {
        ParseAllIff(parts[..n], before.value);
      }
    }
  }

  /** The parts put together again, with commas between them. */
  function Join(parts: seq<string>): string
    requires parts != []
  {
    if |parts| == 1 then parts[0] else Join(parts[..|parts| - 1]) + "," + parts[|parts| - 1]
  }

  predicate NoCommas(parts: seq<string>) {
    forall i, j :: 0 <= i < |parts| && 0 <= j < |parts[i]| ==> parts[i][j] != ','
  }

  /** The parts join to the text. */
  lemma {:induction false} SplitIsJoined(s: string)
    ensures Join(Split(s)) == s
  {
    if s != [] {
      var front, c := s[..|s| - 1], s[|s| - 1];
      SplitIsJoined(front);
      JoinComma(Split(front));
      JoinExtend(Split(front), [c]);
      assert s == front + [c];
    }
  }

  /** No part has a comma. */
  lemma {:induction false} SplitHasNoCommas(s: string)
    ensures NoCommas(Split(s))
  {
    if s != [] {
      SplitHasNoCommas(s[..|s| - 1]);
    }
  }

  lemma JoinComma(parts: seq<string>)
    requires parts != []
    ensures Join(parts + [[]]) == Join(parts) + ","
  {
    assert (parts + [[]])[..|parts|] == parts;
    assert Join(parts) + "," + [] == Join(parts) + ",";
  }

  lemma JoinExtend(parts: seq<string>, t: string)
    requires parts != []
    ensures Join(ExtendLast(parts, t)) == Join(parts) + t
  {
    var r, n := ExtendLast(parts, t), |parts| - 1;
    assert r[..n] == parts[..n];
    if n > 0 {
      assert Join(parts[..n]) + "," + (parts[n] + t) == Join(parts[..n]) + "," + parts[n] + t;
    }
  }

  /** Exactly which texts parse, and to what: between two ends of one byte, each part between commas is a byte. */
  lemma ParseIff(text: string, bytes: seq<Byte>)
    ensures Parse(text) == Bytes(bytes) <==>
              var s := WithoutSpaces(text);
              && Strippable(s)
              && var parts := Split(s[1..|s| - 1]);
              |bytes| == |parts| && forall i :: 0 <= i < |parts| ==> ParseByte(parts[i]) == Some(bytes[i])
  {
    var s := WithoutSpaces(text);
    StripIff(s);
    if Strippable(s) {
      ParseStripped(text, s, s[1..|s| - 1]);
      ParseAllIff(Split(s[1..|s| - 1]), bytes);
    }
  }

  // ---------- The round trip

  lemma {:induction false} NumberIsDigits(n: nat, i: nat)
    requires i < |PrintNumber(n)|
    ensures IsDigit(PrintNumber(n)[i])
  {
    if n >= 10 && i < |PrintNumber(n / 10)| {
      NumberIsDigits(n / 10, i);
    }
  }

  lemma {:induction false} ParsePrintNumber(n: nat)
    requires n < 256
    ensures ParseDigits(PrintNumber(n)) == Some(n)
  {
    var s := PrintNumber(n);
    if n < 10 {
      assert s[..0] == [];
    } else {
      ParsePrintNumber(n / 10);
      assert s[..|s| - 1] == PrintNumber(n / 10);
    }
  }

  lemma ParsePrintByte(b: Byte)
    ensures ParseByte(PrintNumber(b)) == Some(b)
  {
    NumberIsDigits(b, 0);
    ParsePrintNumber(b);
  }

  /** The printed items with the spaces gone. */
  function Compact(bytes: seq<Byte>): string
    requires bytes != []
  {
    if |bytes| == 1 then PrintNumber(bytes[0])
    else Compact(bytes[..|bytes| - 1]) + "," + PrintNumber(bytes[|bytes| - 1])
  }

  lemma {:induction false} WithoutSpacesConcat(s: string, t: string)
    ensures WithoutSpaces(s + t) == WithoutSpaces(s) + WithoutSpaces(t)
  {
    if t == [] {
      assert s + t == s;
    } else {
      WithoutSpacesConcat(s, t[..|t| - 1]);
      assert (s + t)[..|s + t| - 1] == s + t[..|t| - 1];
    }
  }

  lemma {:induction false} WithoutSpacesSame(s: string)
    requires forall i :: 0 <= i < |s| ==> s[i] != ' '
    ensures WithoutSpaces(s) == s
  {
    if s != [] {
      WithoutSpacesSame(s[..|s| - 1]);
      assert s == s[..|s| - 1] + [s[|s| - 1]];
    }
  }

  lemma NumberHasNoSpaces(n: nat)
    ensures WithoutSpaces(PrintNumber(n)) == PrintNumber(n)
  {
    forall i | 0 <= i < |PrintNumber(n)| ensures PrintNumber(n)[i] != ' ' {
      NumberIsDigits(n, i);
    }
    WithoutSpacesSame(PrintNumber(n));
  }

  lemma {:induction false} ItemsCompact(bytes: seq<Byte>)
    requires bytes != []
    ensures WithoutSpaces(PrintItems(bytes)) == Compact(bytes)
  {
    var n := |bytes| - 1;
    NumberHasNoSpaces(bytes[n]);
    if n > 0 {
      ItemsCompact(bytes[..n]);
      WithoutSpacesConcat(PrintItems(bytes[..n]) + ", ", PrintNumber(bytes[n]));
      WithoutSpacesConcat(PrintItems(bytes[..n]), ", ");
      CommaSpace();
    }
  }

  lemma CommaSpace()
    ensures WithoutSpaces(", ") == ","
  {
    var s := ", ";
    assert s[..1] == "," && ","[..0] == "";
    assert WithoutSpaces(",") == ",";
  }

  lemma ExtendTwice(parts: seq<string>, t: string, u: string)
    requires |parts| > 0
    ensures ExtendLast(ExtendLast(parts, t), u) == ExtendLast(parts, t + u)
    ensures ExtendLast(parts, []) == parts
  {
    var last := parts[|parts| - 1];
    assert last + t + u == last + (t + u);
    assert last + [] == last;
  }

  /** Text without a comma extends the last part. */
  lemma {:induction false} SplitExtend(s: string, t: string)
    requires forall i :: 0 <= i < |t| ==> t[i] != ','
    ensures Split(s + t) == ExtendLast(Split(s), t)
  {
    if t == [] {
      assert s + t == s;
      ExtendTwice(Split(s), t, t);
    } else {
      var front, c := t[..|t| - 1], t[|t| - 1];
      SplitExtend(s, front);
      assert (s + t)[..|s + t| - 1] == s + front;
      assert t == front + [c];
      ExtendTwice(Split(s), front, [c]);
    }
  }

  lemma SplitComma(s: string)
    ensures Split(s + ",") == Split(s) + [[]]
  {
    assert (s + ",")[..|s|] == s;
  }

  /** The printed numbers, one per part. */
  function Parts(bytes: seq<Byte>): seq<string> {
    seq(|bytes|, i requires 0 <= i < |bytes| => PrintNumber(bytes[i]))
  }

  lemma {:induction false} SplitCompact(bytes: seq<Byte>)
    requires bytes != []
    ensures Split(Compact(bytes)) == Parts(bytes)
  {
    var n := |bytes| - 1;
    var number := PrintNumber(bytes[n]);
    NumberHasNoCommas(bytes[n]);
    if n == 0 {
      SplitExtend("", number);
      assert "" + number == number;
    } else {
      SplitCompact(bytes[..n]);
      SplitSnoc(Compact(bytes[..n]), number);
      PartsSnoc(bytes);
    }
  }

  lemma NumberHasNoCommas(n: nat)
    ensures forall i :: 0 <= i < |PrintNumber(n)| ==> PrintNumber(n)[i] != ','
  {
    forall i | 0 <= i < |PrintNumber(n)| ensures PrintNumber(n)[i] != ',' {
      NumberIsDigits(n, i);
    }
  }

  lemma PartsSnoc(bytes: seq<Byte>)
    requires bytes != []
    ensures Parts(bytes) == Parts(bytes[..|bytes| - 1]) + [PrintNumber(bytes[|bytes| - 1])]
  {
  }

  lemma SplitSnoc(s: string, number: string)
    requires forall i :: 0 <= i < |number| ==> number[i] != ','
    ensures Split(s + "," + number) == Split(s) + [number]
  {
    SplitComma(s);
    SplitExtend(s + ",", number);
    assert [] + number == number;
  }

  lemma {:induction false} ParseParts(bytes: seq<Byte>)
    ensures ParseAll(Parts(bytes)) == Some(bytes)
  {
    if bytes != [] {
      var n := |bytes| - 1;
      ParseParts(bytes[..n]);
      ParsePrintByte(bytes[n]);
      assert Parts(bytes)[..n] == Parts(bytes[..n]);
      assert bytes == bytes[..n] + [bytes[n]];
    }
  }

  lemma PrintCompacts(bytes: seq<Byte>)
    requires bytes != []
    ensures WithoutSpaces(Print(bytes)) == "[" + Compact(bytes) + "]"
  {
    ItemsCompact(bytes);
    WithoutSpacesSame("[");
    WithoutSpacesSame("]");
    WithoutSpacesConcat("[" + PrintItems(bytes), "]");
    WithoutSpacesConcat("[", PrintItems(bytes));
  }

  /** Parsing what was printed gives the bytes back if and only if there are any; the empty print is invalid. */
  lemma RoundTrip(bytes: seq<Byte>)
    ensures bytes != [] ==> Parse(Print(bytes)) == Bytes(bytes)
    ensures bytes == [] ==> Parse(Print(bytes)) == Invalid
  {
    if bytes == [] {
      EmptyIsInvalid();
    } else {
      var s := "[" + Compact(bytes) + "]";
      PrintCompacts(bytes);
      assert s[1..|s| - 1] == Compact(bytes);
      StripIff(s);
      ParseStripped(Print(bytes), s, Compact(bytes));
      SplitCompact(bytes);
      ParseParts(bytes);
    }
  }

  lemma EmptyIsInvalid()
    ensures Parse("[]") == Invalid
  {
    WithoutSpacesSame("[]");
    assert "[]"[1..1] == "";
    StripIff("[]");
    ParseStripped("[]", "[]", "");
    assert ParseAll([""]).None? by {
      assert [""][..0] == [];
      assert ParseByte("").None?;
    }
  }
}
