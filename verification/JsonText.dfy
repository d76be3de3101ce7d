/** The part of JSON that frames use, printed as `json.dumps(..., separators=(",", ":"))`
    prints it and parsed as `json.loads` parses it. */
module JsonText {
  import opened Prelude
  import opened Decimal

  datatype Json =
    | Null
    | Bool(b: bool)
    | Number(n: int)
    | Text(s: string)
    | Array(items: seq<Json>)
    | Object(fields: Dict<string, Json>)

  /** No object repeats a key: what a Python dict guarantees by construction. */
  ghost predicate WellFormed(v: Json) {
    match v
    case Array(items) => forall i | 0 <= i < |items| :: WellFormed(items[i])
    case Object(fields) => Distinct(fields) && forall i | 0 <= i < |fields| :: WellFormed(fields[i].val)
    case _ => true
  }

  // ---------- printing ----------

  function HexDigit(d: nat): char
    requires d < 16
  {
    if d < 10 then '0' + d as char else 'a' + (d - 10) as char
  }

  function Prepend(c: char, s: string): string {
    [c] + s
  }

  function HexFour(n: nat, rest: string): string
    requires n < 0x1_0000
  {
    Prepend(HexDigit(n / 0x1000), Prepend(HexDigit(n / 0x100 % 0x10),
      Prepend(HexDigit(n / 0x10 % 0x10), Prepend(HexDigit(n % 0x10), rest))))
  }

  function Backslash(c: char, rest: string): string {
    Prepend('\\', Prepend(c, rest))
  }

  /** The letter of a two-character escape. */
  function ShortEscape(c: char): Option<char> {
    if c == '\"' || c == '\\' then Some(c)
    else if c == '\n' then Some('n')
    else if c == '\r' then Some('r')
    else if c == '\t' then Some('t')
    else if c as int == 8 then Some('b')
    else if c as int == 12 then Some('f')
    else None
  }

  /** One character inside a string literal, in ASCII; beyond the basic plane as a surrogate pair. */
  function Escape(c: char, rest: string): string {
    var n := c as int;
    if ShortEscape(c).Some? then Backslash(ShortEscape(c).value, rest)
    else if 0x20 <= n < 0x7F then Prepend(c, rest)
    else if n < 0x1_0000 then Backslash('u', HexFour(n, rest))
    else
      Backslash('u', HexFour(0xD800 + (n - 0x1_0000) / 0x400,
        Backslash('u', HexFour(0xDC00 + (n - 0x1_0000) % 0x400, rest))))
  }

  /** The characters of a literal, its closing quote, and `rest`. */
  function EscapeAll(s: string, rest: string): string {
    if s == [] then Prepend('\"', rest) else Escape(s[0], EscapeAll(s[1..], rest))
  }

  function PrintText(s: string, rest: string): string {
    Prepend('\"', EscapeAll(s, rest))
  }

  /** The text of `v` followed by `rest`. */
  function PrintThen(v: Json, rest: string): string
    decreases v, 0
  {
    match v
    case Null => "null" + rest
    case Bool(b) => (if b then "true" else "false") + rest
    case Number(n) => IntText(n) + rest
    case Text(s) => PrintText(s, rest)
    case Array(items) => Prepend('[', PrintItems(items, rest))
    case Object(fields) => Prepend('{', PrintFields(fields, rest))
  }

  function PrintItems(items: seq<Json>, rest: string): string
    decreases items, 1
  {
    if items == [] then Prepend(']', rest) else PrintThen(items[0], PrintMoreItems(items[1..], rest))
  }

  function PrintMoreItems(items: seq<Json>, rest: string): string
    decreases items, 2
  {
    if items == [] then Prepend(']', rest) else Prepend(',', PrintItems(items, rest))
  }

  function PrintField(field: Item<string, Json>, rest: string): string
    decreases field, 0
  {
    assert field.val < field;
    PrintText(field.key, Prepend(':', PrintThen(field.val, rest)))
  }

  function PrintFields(fields: Dict<string, Json>, rest: string): string
    decreases fields, 1
  {
    if fields == [] then Prepend('}', rest) else PrintField(fields[0], PrintMoreFields(fields[1..], rest))
  }

  function PrintMoreFields(fields: Dict<string, Json>, rest: string): string
    decreases fields, 2
  {
    if fields == [] then Prepend('}', rest) else Prepend(',', PrintFields(fields, rest))
  }

  /** `json.dumps(v, separators=(",", ":"))` */
  function Print(v: Json): string {
    PrintThen(v, [])
  }

  // ---------- parsing ----------

  /** A parsed value with the input left over. */
  datatype Parsed<+T> = Parsed(result: T, rest: string)

  predicate IsSpace(c: char) {
    c == ' ' || c == '\t' || c == '\n' || c == '\r'
  }

  function SkipSpace(s: string): (r: string)
    ensures |r| <= |s|
  {
    if s != [] && IsSpace(s[0]) then SkipSpace(s[1..]) else s
  }

  function HexValue(c: char): (r: Option<nat>)
    ensures r.Some? ==> r.value < 0x10
  {
    if '0' <= c <= '9' then Some((c - '0') as nat)
    else if 'a' <= c <= 'f' then Some((c - 'a') as nat + 10)
    else if 'A' <= c <= 'F' then Some((c - 'A') as nat + 10)
    else None
  }

  function ParseHexFour(s: string): (r: Option<nat>)
    ensures r.Some? ==> |s| >= 4 && r.value < 0x1_0000
  {
    if |s| < 4 then None
    else
      var a :- HexValue(s[0]);
      var b :- HexValue(s[1]);
      var c :- HexValue(s[2]);
      var d :- HexValue(s[3]);
      Some(0x1000 * a + 0x100 * b + 0x10 * c + d)
  }

  function Unescape(letter: char): Option<char> {
    if letter == '\"' || letter == '\\' || letter == '/' then Some(letter)
    else if letter == 'n' then Some('\n')
    else if letter == 'r' then Some('\r')
    else if letter == 't' then Some('\t')
    else if letter == 'b' then Some(8 as char)
    else if letter == 'f' then Some(12 as char)
    else None
  }

  /** One literal or escaped character. */
  function ParseChar(s: string): (r: Option<Parsed<char>>)
    requires s != []
    ensures r.Some? ==> |r.value.rest| < |s|
  {
    if s[0] != '\\' then
      if s[0] as int < 0x20 then None else Some(Parsed(s[0], s[1..]))
    else if |s| < 2 then None
    else if s[1] == 'u' then ParseUnicode(s[2..])
    else
      var c :- Unescape(s[1]);
      Some(Parsed(c, s[2..]))
  }

  /** After `\u`: four digits, or a surrogate pair; a lone surrogate is no character here. */
  function ParseUnicode(s: string): (r: Option<Parsed<char>>)
    ensures r.Some? ==> |r.value.rest| < |s|
  {
    var n :- ParseHexFour(s);
    if n < 0xD800 || 0xE000 <= n then Some(Parsed(n as char, s[4..]))
    else if n < 0xDC00 && |s| >= 6 && s[4] == '\\' && s[5] == 'u' then
      var low :- ParseHexFour(s[6..]);
      if 0xDC00 <= low < 0xE000
      then Some(Parsed((0x1_0000 + (n - 0xD800) * 0x400 + (low - 0xDC00)) as char, s[10..]))
      else None
    else None
  }

  /** The rest of a string literal, after its opening quote. */
  function ParseChars(s: string): (r: Option<Parsed<string>>)
    ensures r.Some? ==> |r.value.rest| < |s|
    decreases |s|
  {
    if s == [] then None
    else if s[0] == '\"' then Some(Parsed([], s[1..]))
    else
      var first :- ParseChar(s);
      var others :- ParseChars(first.rest);
      Some(Parsed([first.result] + others.result, others.rest))
  }

  function CountDigits(s: string): (k: nat)
    ensures k <= |s| && AllDigits(s[..k])
    ensures k < |s| ==> !IsDigit(s[k])
  {
    if s == [] || !IsDigit(s[0]) then 0
    else
      var k := CountDigits(s[1..]);
      assert forall i | 1 <= i < 1 + k :: s[i] == s[1..][i - 1];
      1 + k
  }

  /** An integer without sign; `None` for a leading zero followed by digits or for a fraction or exponent. */
  function ParseNat(s: string): (r: Option<Parsed<nat>>)
    ensures r.Some? ==> |r.value.rest| < |s|
  {
    var k := CountDigits(s);
    if k == 0 || (k > 1 && s[0] == '0') then None
    else if k < |s| && s[k] in {'.', 'e', 'E'} then None
    else Some(Parsed(Value(s[..k]), s[k..]))
  }

  /** `-`, then digits; or just digits. */
  function ParseNumber(s: string): (r: Option<Parsed<Json>>)
    ensures r.Some? ==> |r.value.rest| < |s|
  {
    var negative := s != [] && s[0] == '-';
    var n :- ParseNat(if negative then s[1..] else s);
    var magnitude: int := n.result;
    Some(Parsed(Number(if negative then -magnitude else magnitude), n.rest))
  }

  function ParseWord(s: string): (r: Option<Parsed<Json>>)
    ensures r.Some? ==> |r.value.rest| < |s|
  {
    if "null" <= s then Some(Parsed(Null, s[4..]))
    else if "true" <= s then Some(Parsed(Bool(true), s[4..]))
    else if "false" <= s then Some(Parsed(Bool(false), s[5..]))
    else None
  }

  /** One value, optional white space first. */
  function ParseValue(input: string): (r: Option<Parsed<Json>>)
    ensures r.Some? ==> |r.value.rest| < |input|
    decreases |input|, 0
  {
    var s := SkipSpace(input);
    if s == [] then None
    else if s[0] == '\"' then
      var t :- ParseChars(s[1..]);
      Some(Parsed(Text(t.result), t.rest))
    else if s[0] == '[' then ParseArray(s[1..])
    else if s[0] == '{' then ParseObject(s[1..])
    else if s[0] == '-' || IsDigit(s[0]) then ParseNumber(s)
    else ParseWord(s)
  }

  /** The rest of an array, after its opening bracket. */
  function ParseArray(s: string): (r: Option<Parsed<Json>>)
    ensures r.Some? ==> |r.value.rest| < |s|
    decreases |s|, 2
  {
    var inside := SkipSpace(s);
    if inside != [] && inside[0] == ']' then Some(Parsed(Array([]), inside[1..]))
    else
      var items :- ParseItems(inside);
      Some(Parsed(Array(items.result), items.rest))
  }

  /** The rest of an object, after its opening brace; of a repeated key the last value counts. */
  function ParseObject(s: string): (r: Option<Parsed<Json>>)
    ensures r.Some? ==> |r.value.rest| < |s|
    decreases |s|, 2
  {
    var inside := SkipSpace(s);
    if inside != [] && inside[0] == '}' then Some(Parsed(Object([]), inside[1..]))
    else
      var fields :- ParseFields(inside);
      Some(Parsed(Object(Update([], fields.result)), fields.rest))
  }

  /** `value , value , ... ]` */
  function ParseItems(s: string): (r: Option<Parsed<seq<Json>>>)
    ensures r.Some? ==> |r.value.rest| < |s|
    decreases |s|, 1
  {
    var first :- ParseValue(s);
    var after := SkipSpace(first.rest);
    if after == [] then None
    else if after[0] == ']' then Some(Parsed([first.result], after[1..]))
    else if after[0] == ',' then
      var others :- ParseItems(after[1..]);
      Some(Parsed([first.result] + others.result, others.rest))
    else None
  }

  /** `"key" : value , ... }`, pairs in order, repeated keys still there. */
  function ParseFields(input: string): (r: Option<Parsed<Dict<string, Json>>>)
    ensures r.Some? ==> |r.value.rest| < |input|
    decreases |input|, 1
  {
    var s := SkipSpace(input);
    if s == [] || s[0] != '\"' then None
    else
      var key :- ParseChars(s[1..]);
      var colon := SkipSpace(key.rest);
      if colon == [] || colon[0] != ':' then None
      else
        var val :- ParseValue(colon[1..]);
        var after := SkipSpace(val.rest);
        var field := Item(key.result, val.result);
        if after == [] then None
        else if after[0] == '}' then Some(Parsed([field], after[1..]))
        else if after[0] == ',' then
          var others :- ParseFields(after[1..]);
          Some(Parsed([field] + others.result, others.rest))
        else None
  }

  /** `json.loads(s.strip())`, `None` for malformed text. */
  function Parse(s: string): Option<Json> {
    var v :- ParseValue(StripRight(StripLeft(s)));
    if SkipSpace(v.rest) == [] then Some(v.result) else None
  }

  // ---------- whatever is parsed is well-formed ----------

  ghost predicate FieldsWellFormed(fields: Dict<string, Json>) {
    forall i | 0 <= i < |fields| :: WellFormed(fields[i].val)
  }

  lemma {:induction false} ValueParsed(input: string)
    ensures ParseValue(input).Some? ==> WellFormed(ParseValue(input).value.result)
    decreases |input|, 0
  {
    var s := SkipSpace(input);
    if s != [] && s[0] == '[' {
      ArrayParsed(s[1..]);
    } else if s != [] && s[0] == '{' {
      ObjectParsed(s[1..]);
    }
    hide ParseArray, ParseObject, SkipSpace;
  }

  lemma {:induction false} ArrayParsed(s: string)
    ensures ParseArray(s).Some? ==> WellFormed(ParseArray(s).value.result)
    decreases |s|, 2
  {
    ItemsParsed(SkipSpace(s));
    hide ParseItems, SkipSpace;
  }

  lemma {:induction false} ItemsParsed(s: string)
    ensures ParseItems(s).Some? ==> WellFormed(Array(ParseItems(s).value.result))
    decreases |s|, 1
  {
    ValueParsed(s);
    var first := ParseValue(s);
    if first.Some? {
      var after := SkipSpace(first.value.rest);
      if after != [] { ItemsParsed(after[1..]); }
    }
    hide ParseValue, SkipSpace;
  }

  /** Repeated keys are merged as they are read. */
  lemma {:induction false} ObjectParsed(s: string)
    ensures ParseObject(s).Some? ==> WellFormed(ParseObject(s).value.result)
    decreases |s|, 2
  {
    var inside := SkipSpace(s);
    FieldsParsed(inside);
    if ParseFields(inside).Some? {
      var fields := ParseFields(inside).value.result;
      UpdateDistinct([], fields);
      UpdateKeeps([], fields, FieldIsWellFormed());
    }
    hide ParseFields, SkipSpace;
  }

  ghost function FieldIsWellFormed(): Item<string, Json> -> bool {
    (f: Item<string, Json>) => WellFormed(f.val)
  }

  lemma {:induction false} FieldsParsed(input: string)
    ensures ParseFields(input).Some? ==> FieldsWellFormed(ParseFields(input).value.result)
    decreases |input|, 1
  {
    var s := SkipSpace(input);
    if s != [] && s[0] == '\"' {
      var key := ParseChars(s[1..]);
      if key.Some? {
        var colon := SkipSpace(key.value.rest);
        if colon != [] && colon[0] == ':' {
          ValueParsed(colon[1..]);
          var val := ParseValue(colon[1..]);
          if val.Some? {
            var after := SkipSpace(val.value.rest);
            if after != [] { FieldsParsed(after[1..]); }
          }
        }
      }
    }
    hide ParseValue, ParseChars, SkipSpace, WellFormed;
  }

  /** Parsed values never repeat a key, whatever the text. */
  lemma ParsedIsWellFormed(s: string)
    ensures Parse(s).Some? ==> WellFormed(Parse(s).value)
  {
    ValueParsed(StripRight(StripLeft(s)));
  }

  // ---------- the parser undoes the printer ----------

  /** What may follow a value inside a document. */
  predicate Delimited(rest: string) {
    rest == [] || rest[0] == ',' || rest[0] == ']' || rest[0] == '}'
  }

  lemma PrependParts(c: char, s: string)
    ensures Prepend(c, s)[0] == c && Prepend(c, s)[1..] == s
  {
  }

  lemma HexSum(n: nat)
    ensures n == 0x1000 * (n / 0x1000) + 0x100 * (n / 0x100 % 0x10) + 0x10 * (n / 0x10 % 0x10) + n % 0x10
  {
    assert n / 0x1000 == n / 0x100 / 0x10 && n / 0x100 == n / 0x10 / 0x10;
  }

  lemma HexDigitRoundTrip(d: nat)
    requires d < 0x10
    ensures HexValue(HexDigit(d)) == Some(d)
  {
  }

  lemma HexFourRoundTrip(n: nat, rest: string)
    requires n < 0x1_0000
    ensures ParseHexFour(HexFour(n, rest)) == Some(n)
    ensures HexFour(n, rest)[4..] == rest
  {
    HexDigitRoundTrip(n / 0x1000);
    HexDigitRoundTrip(n / 0x100 % 0x10);
    HexDigitRoundTrip(n / 0x10 % 0x10);
    HexDigitRoundTrip(n % 0x10);
    HexSum(n);
  }

  lemma PairRoundTrip(high: nat, low: nat, rest: string)
    requires 0xD800 <= high < 0xDC00 <= low < 0xE000
    ensures ParseUnicode(HexFour(high, Backslash('u', HexFour(low, rest))))
         == Some(Parsed((0x1_0000 + (high - 0xD800) * 0x400 + (low - 0xDC00)) as char, rest))
  {
    var second := Backslash('u', HexFour(low, rest));
    var s := HexFour(high, second);
    HexFourRoundTrip(high, second);
    HexFourRoundTrip(low, rest);
    assert s[4..] == second && s[4] == second[0] && s[5] == second[1];
    assert s[6..] == HexFour(low, rest);
    assert s[10..] == rest;
  }

  lemma EscapeRoundTrip(c: char, rest: string)
    ensures ParseChar(Escape(c, rest)) == Some(Parsed(c, rest))
    ensures Escape(c, rest) != [] && Escape(c, rest)[0] != '\"'
  {
    var n := c as int;
    if ShortEscape(c).Some? {
      BackslashParts(ShortEscape(c).value, rest);
    } else if 0x20 <= n < 0x7F {
      PrependParts(c, rest);
    } else if n < 0x1_0000 {
      HexFourRoundTrip(n, rest);
      BackslashParts('u', HexFour(n, rest));
    } else {
      var high, low := 0xD800 + (n - 0x1_0000) / 0x400, 0xDC00 + (n - 0x1_0000) % 0x400;
      PairRoundTrip(high, low, rest);
      BackslashParts('u', HexFour(high, Backslash('u', HexFour(low, rest))));
    }
    hide HexFour, ParseHexFour, Backslash, Prepend;
  }

  lemma BackslashParts(c: char, rest: string)
    ensures var s := Backslash(c, rest); |s| >= 2 && s[0] == '\\' && s[1] == c && s[2..] == rest
  {
  }

  lemma {:induction false} CharsRoundTrip(s: string, rest: string)
    ensures ParseChars(EscapeAll(s, rest)) == Some(Parsed(s, rest))
  {
    if s == [] {
      PrependParts('\"', rest);
    } else {
      CharsRoundTrip(s[1..], rest);
      EscapeRoundTrip(s[0], EscapeAll(s[1..], rest));
      assert s == [s[0]] + s[1..];
    }
  }

  lemma {:induction false} CountDigitsStops(s: string, rest: string)
    requires AllDigits(s) && (rest == [] || !IsDigit(rest[0]))
    ensures CountDigits(s + rest) == |s|
  {
    if s == [] {
      assert s + rest == rest;
    } else {
      assert IsDigit(s[0]);
      assert (s + rest)[1..] == s[1..] + rest;
      CountDigitsStops(s[1..], rest);
    }
  }

  lemma NatRoundTrip(n: nat, rest: string)
    requires Delimited(rest)
    ensures ParseNat(Digits(n) + rest) == Some(Parsed(n, rest))
  {
    DigitsValue(n);
    CountDigitsStops(Digits(n), rest);
    var s := Digits(n) + rest;
    assert s[..|Digits(n)|] == Digits(n) && s[|Digits(n)|..] == rest;
  }

  lemma NumberRoundTrip(n: int, rest: string)
    requires Delimited(rest)
    ensures ParseNumber(IntText(n) + rest) == Some(Parsed(Number(n), rest))
    ensures IntText(n)[0] == '-' || IsDigit(IntText(n)[0])
  {
    if n < 0 {
      NatRoundTrip(-n, rest);
      SignParts(n, rest);
    } else {
      NatRoundTrip(n, rest);
      DigitsValue(n);
      assert IsDigit(Digits(n)[0]);
      ConcatParts(Digits(n), rest);
    }
    hide CountDigits, ParseNat, Digits;
  }

  lemma ConcatParts(s: string, t: string)
    requires s != []
    ensures (s + t)[0] == s[0] && (s + t)[1..] == s[1..] + t
  {
  }

  lemma SignParts(n: int, rest: string)
    requires n < 0
    ensures var s := IntText(n) + rest; s[0] == '-' && s[1..] == Digits(-n) + rest
  {
  }

  /** Every printed value starts with a visible character that is no closing bracket. */
  lemma PrintStarts(v: Json, rest: string)
    ensures var s := PrintThen(v, rest); s != [] && !IsSpace(s[0]) && !IsStripped(s[0]) && s[0] != ']' && s[0] != '}'
  {
    if v.Number? {
      DigitsValue(if v.n < 0 then -v.n else v.n);
      assert v.n >= 0 ==> IsDigit(Digits(v.n)[0]);
      assert PrintThen(v, rest)[0] == IntText(v.n)[0];
    }
  }

  /** Printing any value and parsing it again, inside any document, gives the value back. */
  lemma {:induction false} ValueRoundTrip(v: Json, rest: string)
    requires WellFormed(v) && Delimited(rest)
    ensures ParseValue(PrintThen(v, rest)) == Some(Parsed(v, rest))
    decreases v, 0
  {
    PrintStarts(v, rest);
    match v
    case Null => assert ("null" + rest)[4..] == rest;
    case Bool(b) => assert ("true" + rest)[4..] == rest && ("false" + rest)[5..] == rest;
    case Number(n) => NumberRoundTrip(n, rest);
    case Text(t) =>
      CharsRoundTrip(t, rest);
      PrependParts('\"', EscapeAll(t, rest));
    case Array(items) =>
      ArrayRoundTrip(items, rest);
      PrependParts('[', PrintItems(items, rest));
    case Object(fields) =>
      ObjectRoundTrip(fields, rest);
      PrependParts('{', PrintFields(fields, rest));
    hide ParseArray, ParseObject, ParseNumber, ParseChars, PrintFields, PrintItems, EscapeAll;
  }

  lemma {:induction false} ArrayRoundTrip(items: seq<Json>, rest: string)
    requires forall i | 0 <= i < |items| :: WellFormed(items[i])
    ensures ParseArray(PrintItems(items, rest)) == Some(Parsed(Array(items), rest))
    decreases items, 2
  {
    if items == [] {
      PrependParts(']', rest);
    } else {
      PrintStarts(items[0], PrintMoreItems(items[1..], rest));
      ItemsRoundTrip(items, rest);
    }
  }

  lemma {:induction false} ItemsRoundTrip(items: seq<Json>, rest: string)
    requires items != [] && forall i | 0 <= i < |items| :: WellFormed(items[i])
    ensures ParseItems(PrintItems(items, rest)) == Some(Parsed(items, rest))
    decreases items, 1
  {
    var more := PrintMoreItems(items[1..], rest);
    ValueRoundTrip(items[0], more);
    assert items == [items[0]] + items[1..];
    assert SkipSpace(more) == more;
    if |items| == 1 {
      assert items == [items[0]];
      PrependParts(']', rest);
    } else {
      ItemsRoundTrip(items[1..], rest);
      PrependParts(',', PrintItems(items[1..], rest));
    }
  }

  lemma {:induction false} ObjectRoundTrip(fields: Dict<string, Json>, rest: string)
    requires Distinct(fields) && forall i | 0 <= i < |fields| :: WellFormed(fields[i].val)
    ensures ParseObject(PrintFields(fields, rest)) == Some(Parsed(Object(fields), rest))
    decreases fields, 2
  {
    if fields == [] {
      PrependParts('}', rest);
    } else {
      FieldsRoundTrip(fields, rest);
      assert [] + fields == fields;
      UpdateFresh([], fields);
    }
  }

  lemma {:induction false} FieldsRoundTrip(fields: Dict<string, Json>, rest: string)
    requires fields != [] && forall i | 0 <= i < |fields| :: WellFormed(fields[i].val)
    ensures ParseFields(PrintFields(fields, rest)) == Some(Parsed(fields, rest))
    decreases fields, 1
  {
    var field, more := fields[0], PrintMoreFields(fields[1..], rest);
    assert field.val < field;
    ValueRoundTrip(field.val, more);
    FieldRoundTrip(field, more);
    assert fields == [field] + fields[1..];
    hide ParseFields, ParseValue, ParseChars, PrintField;
    if |fields| == 1 {
      assert fields == [field];
      PrependParts('}', rest);
    } else {
      FieldsRoundTrip(fields[1..], rest);
      PrependParts(',', PrintFields(fields[1..], rest));
    }
  }

  /** One `"key":value` is read back, and then whatever follows it. */
  lemma FieldRoundTrip(field: Item<string, Json>, more: string)
    requires ParseValue(PrintThen(field.val, more)) == Some(Parsed(field.val, more))
    requires more != [] && (more[0] == '}' || more[0] == ',')
    ensures ParseFields(PrintField(field, more))
         == if more[0] == '}' then Some(Parsed([field], more[1..]))
            else match ParseFields(more[1..])
                 case None => None
                 case Some(others) => Some(Parsed([field] + others.result, others.rest))
  {
    KeyRoundTrip(field, more);
    PrependParts(':', PrintThen(field.val, more));
    assert field == Item(field.key, field.val);
    hide ParseChars, ParseValue, PrintField, PrintThen, Prepend;
  }

  lemma KeyRoundTrip(field: Item<string, Json>, more: string)
    ensures var s := PrintField(field, more);
      && s != [] && s[0] == '\"'
      && ParseChars(s[1..]) == Some(Parsed(field.key, Prepend(':', PrintThen(field.val, more))))
    ensures Prepend(':', PrintThen(field.val, more))[1..] == PrintThen(field.val, more)
  {
    var colon := Prepend(':', PrintThen(field.val, more));
    CharsRoundTrip(field.key, colon);
    PrependParts('\"', EscapeAll(field.key, colon));
  }

  // ---------- printed text is printable ASCII ----------

  /** Printable ASCII only, and not ending in a character that `strip` removes. */
  ghost predicate Tidy(s: string) {
    && (forall i | 0 <= i < |s| :: 0x20 <= s[i] as int < 0x7F)
    && (s != [] ==> !IsStripped(s[|s| - 1]))
  }

  lemma TidyPrepend(c: char, s: string)
    requires Tidy(s) && 0x20 <= c as int < 0x7F && (s == [] ==> c != ' ')
    ensures Tidy(Prepend(c, s))
  {
  }

  lemma TidyDigits(s: string, rest: string)
    requires AllDigits(s) && Tidy(rest)
    ensures Tidy(s + rest)
  {
    assert forall i | 0 <= i < |s| :: IsDigit(s[i]);
  }

  lemma TidyBackslash(c: char, s: string)
    requires Tidy(s) && s != [] && 0x20 <= c as int < 0x7F
    ensures Tidy(Backslash(c, s))
  {
    TidyPrepend(c, s);
    TidyPrepend('\\', Prepend(c, s));
  }

  lemma TidyHexFour(n: nat, s: string)
    requires Tidy(s) && s != [] && n < 0x1_0000
    ensures Tidy(HexFour(n, s))
  {
    var d := HexDigit(n % 0x10);
    var c := HexDigit(n / 0x10 % 0x10);
    var b := HexDigit(n / 0x100 % 0x10);
    TidyPrepend(d, s);
    TidyPrepend(c, Prepend(d, s));
    TidyPrepend(b, Prepend(c, Prepend(d, s)));
    TidyPrepend(HexDigit(n / 0x1000), Prepend(b, Prepend(c, Prepend(d, s))));
  }

  lemma TidyUnicode(n: nat, s: string)
    requires Tidy(s) && s != [] && n < 0x1_0000
    ensures Tidy(Backslash('u', HexFour(n, s))) && Backslash('u', HexFour(n, s)) != []
  {
    TidyHexFour(n, s);
    TidyBackslash('u', HexFour(n, s));
    hide Tidy;
  }

  lemma TidyEscape(c: char, rest: string)
    requires Tidy(rest) && rest != []
    ensures Tidy(Escape(c, rest))
  {
    hide Tidy, HexFour, Backslash, Prepend;
    var n := c as int;
    if ShortEscape(c).Some? {
      TidyBackslash(ShortEscape(c).value, rest);
    } else if 0x20 <= n < 0x7F {
      TidyPrepend(c, rest);
    } else if n < 0x1_0000 {
      TidyUnicode(n, rest);
    } else {
      var low := 0xDC00 + (n - 0x1_0000) % 0x400;
      TidyUnicode(low, rest);
      TidyUnicode(0xD800 + (n - 0x1_0000) / 0x400, Backslash('u', HexFour(low, rest)));
    }
  }

  lemma {:induction false} TidyText(s: string, rest: string)
    requires Tidy(rest)
    ensures Tidy(EscapeAll(s, rest)) && EscapeAll(s, rest) != []
  {
    if s == [] {
      TidyPrepend('\"', rest);
    } else {
      TidyText(s[1..], rest);
      TidyEscape(s[0], EscapeAll(s[1..], rest));
    }
  }

  /** The printed form has no control character and nothing beyond ASCII: in particular no CR and no LF. */
  lemma {:induction false} PrintIsTidy(v: Json, rest: string)
    requires Tidy(rest)
    ensures Tidy(PrintThen(v, rest))
    decreases v, 0
  {
    match v
    case Number(n) => TidyNumber(n, rest);
    case Text(s) =>
      TidyText(s, rest);
      TidyPrepend('\"', EscapeAll(s, rest));
    case Array(items) =>
      ItemsAreTidy(items, rest);
      TidyPrepend('[', PrintItems(items, rest));
    case Object(fields) =>
      FieldsAreTidy(fields, rest);
      TidyPrepend('{', PrintFields(fields, rest));
    case _ =>
  }

  lemma TidyNumber(n: int, rest: string)
    requires Tidy(rest)
    ensures Tidy(IntText(n) + rest)
  {
    var digits := Digits(if n < 0 then -n else n);
    DigitsValue(if n < 0 then -n else n);
    TidyDigits(digits, rest);
    if n < 0 {
      TidyPrepend('-', digits + rest);
      MinusFirst(digits, rest);
    }
    hide Tidy, Digits, Prepend;
  }

  lemma MinusFirst(digits: string, rest: string)
    ensures "-" + digits + rest == Prepend('-', digits + rest)
  {
  }

  lemma {:induction false} ItemsAreTidy(items: seq<Json>, rest: string)
    requires Tidy(rest)
    ensures Tidy(PrintItems(items, rest)) && Tidy(PrintMoreItems(items, rest))
    decreases items, 1
  {
    if items == [] {
      TidyPrepend(']', rest);
    } else {
      ItemsAreTidy(items[1..], rest);
      PrintIsTidy(items[0], PrintMoreItems(items[1..], rest));
      hide Tidy;
      TidyPrepend(',', PrintItems(items, rest));
    }
  }

  lemma {:induction false} FieldsAreTidy(fields: Dict<string, Json>, rest: string)
    requires Tidy(rest)
    ensures Tidy(PrintFields(fields, rest)) && Tidy(PrintMoreFields(fields, rest))
    decreases fields, 1
  {
    if fields == [] {
      TidyPrepend('}', rest);
    } else {
      var field, more := fields[0], PrintMoreFields(fields[1..], rest);
      assert field.val < field;
      FieldsAreTidy(fields[1..], rest);
      PrintIsTidy(field.val, more);
      TidyPrepend(':', PrintThen(field.val, more));
      TidyText(field.key, Prepend(':', PrintThen(field.val, more)));
      TidyPrepend('\"', EscapeAll(field.key, Prepend(':', PrintThen(field.val, more))));
      hide Tidy;
      assert PrintFields(fields, rest) == PrintField(field, more);
      TidyPrepend(',', PrintFields(fields, rest));
    }
  }

  /** `json.loads(json.dumps(v)) == v`. */
  lemma RoundTrip(v: Json)
    requires WellFormed(v)
    ensures Parse(Print(v)) == Some(v)
  {
    PrintStarts(v, []);
    PrintIsTidy(v, []);
    ValueRoundTrip(v, []);
  }
}
