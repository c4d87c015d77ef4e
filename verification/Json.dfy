/**
 JSON text: the compact form Go's encoder writes, a reader for it, and the
 proof that the reader undoes the writer (RFC 8259, sections 2 to 8).
 */
module JsonText {
  import opened Wrappers

  /** A number is kept as its literal. */
  datatype Json =
    | Null
    | Bool(b: bool)
    | Num(literal: string)
    | Str(s: string)
    | Arr(items: seq<Json>)
    | Obj(fields: seq<Field>)

  datatype Field = Field(key: string, value: Json)

  // ---- strings -----------------------------------------------------------------

  function HexDigit(d: nat): char
    requires d < 16
  {
    "0123456789abcdef"[d]
  }

  function HexValue(c: char): (d: Option<nat>)
    ensures d.Some? ==> d.value < 16
  {
    if '0' <= c <= '9' then Some(c as int - '0' as int)
    else if 'a' <= c <= 'f' then Some(c as int - 'a' as int + 10)
    else if 'A' <= c <= 'F' then Some(c as int - 'A' as int + 10)
    else None
  }

  function Hex4(n: nat): (s: string)
    requires n < 0x1_0000
    ensures |s| == 4
  {
    [HexDigit(n / 16 / 16 / 16), HexDigit(n / 16 / 16 % 16), HexDigit(n / 16 % 16), HexDigit(n % 16)]
  }

  function Unhex4(s: string): (n: Option<nat>)
    requires |s| == 4
    ensures n.Some? ==> n.value < 0x1_0000
  {
    var a, b, c, d := HexValue(s[0]), HexValue(s[1]), HexValue(s[2]), HexValue(s[3]);
    if a.Some? && b.Some? && c.Some? && d.Some?
    then Some(16 * (16 * (16 * a.value + b.value) + c.value) + d.value)
    else None
  }

  /** Written as a `\u` escape: control characters, the three HTML ones, and the two line separators. */
  predicate NeedsUnicodeEscape(c: char) {
    c < ' ' || c == '<' || c == '>' || c == '&' || c == '\U{2028}' || c == '\U{2029}'
  }

  function EscapeChar(c: char): (e: string)
    ensures e != ""
  {
    if c == '"' then "\\\""
    else if c == '\\' then "\\\\"
    else if c == '\U{0008}' then "\\b"
    else if c == '\U{000c}' then "\\f"
    else if c == '\n' then "\\n"
    else if c == '\r' then "\\r"
    else if c == '\t' then "\\t"
    else if NeedsUnicodeEscape(c) then "\\u" + Hex4(c as int)
    else [c]
  }

  function Escape(s: string): string {
    if s == "" then "" else EscapeChar(s[0]) + Escape(s[1..])
  }

  function Quote(s: string): string {
    "\"" + Escape(s) + "\""
  }

  /** The character a two-character escape stands for. */
  function Unescape(c: char): Option<char> {
    match c
    case '"' => Some('"')
    case '\\' => Some('\\')
    case '/' => Some('/')
    case 'b' => Some('\U{0008}')
    case 'f' => Some('\U{000c}')
    case 'n' => Some('\n')
    case 'r' => Some('\r')
    case 't' => Some('\t')
    case _ => None
  }

  predicate IsSurrogate(n: nat) {
    0xd800 <= n < 0xe000
  }

  datatype Read<T> = Read(value: T, rest: string)

  /** One character of a string literal. */
  function ReadChar(t: string): (r: Option<Read<char>>)
    ensures r.Some? ==> |r.value.rest| < |t|
  {
    if t == "" || t[0] < ' ' then None
    else if t[0] != '\\' then Some(Read(t[0], t[1..]))
    else if |t| < 2 then None
    else if t[1] == 'u' then
      if |t| < 6 then None
      else
        match Unhex4(t[2..6])
        case None => None
        case Some(n) => Some(Read(if IsSurrogate(n) then '\U{fffd}' else n as char, t[6..]))
    else
      match Unescape(t[1])
      case None => None
      case Some(c) => Some(Read(c, t[2..]))
  }

  /** The rest of a string literal, up to and including the closing quote. */
  function ReadString(t: string): (r: Option<Read<string>>)
    ensures r.Some? ==> |r.value.rest| < |t|
    decreases |t|
  {
    if t == "" then None
    else if t[0] == '"' then Some(Read("", t[1..]))
    else
      match ReadChar(t)
      case None => None
      case Some(c) =>
        match ReadString(c.rest)
        case None => None
        case Some(s) => Some(Read([c.value] + s.value, s.rest))
  }

  lemma HexDigitValue(d: nat)
    requires d < 16
    ensures HexValue(HexDigit(d)) == Some(d)
  {
  }

  lemma HexRoundTrip(n: nat)
    requires n < 0x1_0000
    ensures Unhex4(Hex4(n)) == Some(n)
  {
    hide HexDigit, HexValue;
    HexDigitValue(n / 16 / 16 / 16);
    HexDigitValue(n / 16 / 16 % 16);
    HexDigitValue(n / 16 % 16);
    HexDigitValue(n % 16);
  }

  lemma ReadEscapedChar(c: char, rest: string)
    ensures ReadChar(EscapeChar(c) + rest) == Some(Read(c, rest))
    ensures EscapeChar(c)[0] != '"'
  {
    hide HexDigit, HexValue, Hex4, Unhex4;
    var e := EscapeChar(c);
    var t := e + rest;
    assert t[|e|..] == rest;
    if |e| > 2 {
      assert t[2..6] == Hex4(c as int);
      HexRoundTrip(c as int);
    }
  }

  lemma ReadOneMore(c: char, tail: string)
    requires ReadString(tail).Some?
    ensures var r := ReadString(tail).value;
            ReadString(EscapeChar(c) + tail) == Some(Read([c] + r.value, r.rest))
  {
    ReadEscapedChar(c, tail);
    hide EscapeChar, ReadChar;
  }

  lemma EscapeSplits(s: string, rest: string)
    requires s != ""
    ensures Escape(s) + "\"" + rest == EscapeChar(s[0]) + (Escape(s[1..]) + "\"" + rest)
  {
    hide EscapeChar;
  }

  lemma {:induction false} ReadQuoted(s: string, rest: string)
    ensures ReadString(Escape(s) + "\"" + rest) == Some(Read(s, rest))
  {
    if s == "" {
      assert Escape(s) + "\"" + rest == "\"" + rest;
    } else {
      ReadQuoted(s[1..], rest);
      ReadOneMore(s[0], Escape(s[1..]) + "\"" + rest);
      EscapeSplits(s, rest);
      assert [s[0]] + s[1..] == s;
    }
  }

  // ---- values ---------------------------------------------------------------------

  predicate IsNumberChar(c: char) {
    '0' <= c <= '9' || c == '-' || c == '+' || c == '.' || c == 'e' || c == 'E'
  }

  predicate IsLiteral(s: string) {
    s != "" && (s[0] == '-' || '0' <= s[0] <= '9') && forall c :: c in s ==> IsNumberChar(c)
  }

  /** Every number is a literal. */
  predicate WellFormed(j: Json) {
    match j
    case Num(literal) => IsLiteral(literal)
    case Arr(items) => forall i :: 0 <= i < |items| ==> WellFormed(items[i])
    case Obj(fields) => forall i :: 0 <= i < |fields| ==> WellFormed(fields[i].value)
    case _ => true
  }

  function Text(j: Json): (t: string)
    decreases j
  {
    match j
    case Null => "null"
    case Bool(b) => if b then "true" else "false"
    case Num(literal) => literal
    case Str(s) => Quote(s)
    case Arr(items) => "[" + TextOfItems(items) + "]"
    case Obj(fields) => "{" + TextOfFields(fields) + "}"
  }

  function TextOfItems(items: seq<Json>): string
    decreases items
  {
    if items == [] then ""
    else if |items| == 1 then Text(items[0])
    else Text(items[0]) + "," + TextOfItems(items[1..])
  }

  function TextOfField(f: Field): string
    decreases f
  {
    Quote(f.key) + ":" + Text(f.value)
  }

  function TextOfFields(fields: seq<Field>): string
    decreases fields
  {
    if fields == [] then ""
    else if |fields| == 1 then TextOfField(fields[0])
    else TextOfField(fields[0]) + "," + TextOfFields(fields[1..])
  }

  /** The longest prefix made of number characters. */
  function NumberPrefix(t: string): (n: nat)
    ensures n <= |t|
  {
    if t == "" || !IsNumberChar(t[0]) then 0 else 1 + NumberPrefix(t[1..])
  }

  function ReadNumber(t: string): (r: Option<Read<Json>>)
    ensures r.Some? ==> |r.value.rest| < |t|
  {
    var n := NumberPrefix(t);
    if n > 0 && IsLiteral(t[..n]) then Some(Read(Num(t[..n]), t[n..])) else None
  }

  function ReadValue(t: string): (r: Option<Read<Json>>)
    ensures r.Some? ==> |r.value.rest| < |t|
    decreases |t|, 0
  {
    if t == "" then None
    else if t[0] == '"' then
      match ReadString(t[1..])
      case None => None
      case Some(s) => Some(Read(Str(s.value), s.rest))
    else if t[0] == '[' then
      if |t| > 1 && t[1] == ']' then Some(Read(Arr([]), t[2..]))
      else
        match ReadItems(t[1..])
        case None => None
        case Some(items) => Some(Read(Arr(items.value), items.rest))
    else if t[0] == '{' then
      if |t| > 1 && t[1] == '}' then Some(Read(Obj([]), t[2..]))
      else
        match ReadFields(t[1..])
        case None => None
        case Some(fields) => Some(Read(Obj(fields.value), fields.rest))
    else if "null" <= t then Some(Read(Null, t[4..]))
    else if "true" <= t then Some(Read(Bool(true), t[4..]))
    else if "false" <= t then Some(Read(Bool(false), t[5..]))
    else ReadNumber(t)
  }

  function ReadItems(t: string): (r: Option<Read<seq<Json>>>)
    ensures r.Some? ==> |r.value.rest| < |t|
    decreases |t|, 1
  {
    match ReadValue(t)
    case None => None
    case Some(item) =>
      if item.rest != "" && item.rest[0] == ']' then Some(Read([item.value], item.rest[1..]))
      else if item.rest != "" && item.rest[0] == ',' then
        match ReadItems(item.rest[1..])
        case None => None
        case Some(items) => Some(Read([item.value] + items.value, items.rest))
      else None
  }

  function ReadField(t: string): (r: Option<Read<Field>>)
    ensures r.Some? ==> |r.value.rest| < |t|
    decreases |t|, 1
  {
    if t == "" || t[0] != '"' then None
    else
      match ReadString(t[1..])
      case None => None
      case Some(key) =>
        if key.rest == "" || key.rest[0] != ':' then None
        else
          match ReadValue(key.rest[1..])
          case None => None
          case Some(value) => Some(Read(Field(key.value, value.value), value.rest))
  }

  function ReadFields(t: string): (r: Option<Read<seq<Field>>>)
    ensures r.Some? ==> |r.value.rest| < |t|
    decreases |t|, 2
  {
    match ReadField(t)
    case None => None
    case Some(field) =>
      if field.rest != "" && field.rest[0] == '}' then Some(Read([field.value], field.rest[1..]))
      else if field.rest != "" && field.rest[0] == ',' then
        match ReadFields(field.rest[1..])
        case None => None
        case Some(fields) => Some(Read([field.value] + fields.value, fields.rest))
      else None
  }

  /** A whole document: one value and nothing after it. */
  function Parse(t: string): Option<Json> {
    match ReadValue(t)
    case None => None
    case Some(r) => if r.rest == "" then Some(r.value) else None
  }

  // ---- the reader undoes the writer --------------------------------------------------

  /** What may follow a value. */
  predicate Ends(rest: string) {
    rest == "" || rest[0] == ',' || rest[0] == ']' || rest[0] == '}'
  }

  lemma {:induction false} NumberPrefixOf(literal: string, rest: string)
    requires (forall c :: c in literal ==> IsNumberChar(c)) && Ends(rest)
    ensures NumberPrefix(literal + rest) == |literal|
  {
    if literal == "" {
      assert literal + rest == rest;
    } else {
      assert (literal + rest)[1..] == literal[1..] + rest;
      NumberPrefixOf(literal[1..], rest);
    }
  }

  lemma ReadLiteral(literal: string, rest: string)
    requires IsLiteral(literal) && Ends(rest)
    ensures ReadValue(literal + rest) == Some(Read(Num(literal), rest))
  {
    var t := literal + rest;
    NumberPrefixOf(literal, rest);
    assert t[..|literal|] == literal && t[|literal|..] == rest;
    assert t[0] == literal[0];
    assert !("null" <= t) && !("true" <= t) && !("false" <= t);
  }

  lemma StartsValue(j: Json)
    requires WellFormed(j)
    ensures Text(j) != "" && Text(j)[0] != ']' && Text(j)[0] != '}'
  {
  }

  lemma ReadWord(j: Json, rest: string)
    requires j.Null? || j.Bool?
    ensures ReadValue(Text(j) + rest) == Some(Read(j, rest))
  {
    hide ReadString, ReadItems, ReadFields, ReadNumber;
    var t := Text(j) + rest;
    assert t[|Text(j)|..] == rest && Text(j) <= t;
  }

  lemma ReadStr(s: string, rest: string)
    ensures ReadValue(Text(Str(s)) + rest) == Some(Read(Str(s), rest))
  {
    hide ReadString, Escape, ReadItems, ReadFields, ReadNumber;
    var t := Text(Str(s)) + rest;
    assert t[0] == '"' && t[1..] == Escape(s) + "\"" + rest;
    ReadQuoted(s, rest);
  }

  lemma Bracketed(left: string, body: string, right: string, rest: string)
    requires |left| == |right| == 1
    ensures var t := left + body + right + rest;
            && t[0] == left[0] && t[1..] == body + right + rest
            && (if body == "" then t[1] == right[0] && t[2..] == rest else t[1] == body[0])
  {
  }

  lemma ReadArr(items: seq<Json>, rest: string)
    requires items != [] ==> TextOfItems(items) != "" && TextOfItems(items)[0] != ']'
    requires items != [] ==> ReadItems(TextOfItems(items) + "]" + rest) == Some(Read(items, rest))
    ensures ReadValue(Text(Arr(items)) + rest) == Some(Read(Arr(items), rest))
  {
    Bracketed("[", TextOfItems(items), "]", rest);
    assert items == [] ==> TextOfItems(items) == "";
    hide ReadString, ReadItems, ReadFields, ReadNumber, TextOfItems;
  }

  lemma ReadObj(fields: seq<Field>, rest: string)
    requires fields != [] ==> TextOfFields(fields) != "" && TextOfFields(fields)[0] != '}'
    requires fields != [] ==> ReadFields(TextOfFields(fields) + "}" + rest) == Some(Read(fields, rest))
    ensures ReadValue(Text(Obj(fields)) + rest) == Some(Read(Obj(fields), rest))
  {
    Bracketed("{", TextOfFields(fields), "}", rest);
    assert fields == [] ==> TextOfFields(fields) == "";
    hide ReadString, ReadItems, ReadFields, ReadNumber, TextOfFields;
  }

  lemma {:induction false} RoundTrip(j: Json, rest: string)
    requires WellFormed(j) && Ends(rest)
    ensures ReadValue(Text(j) + rest) == Some(Read(j, rest))
    decreases j, 0
  {
    hide ReadValue, ReadItems, ReadFields, TextOfItems, TextOfFields, IsLiteral, Ends;
    match j {
      case Null => ReadWord(j, rest);
      case Bool(_) => ReadWord(j, rest);
      case Num(literal) => ReadLiteral(literal, rest);
      case Str(s) => ReadStr(s, rest);
      case Arr(items) =>
        if items != [] { ItemsRoundTrip(items, rest); }
        ReadArr(items, rest);
      case Obj(fields) =>
        if fields != [] { FieldsRoundTrip(fields, rest); }
        ReadObj(fields, rest);
    }
  }

  lemma ItemsSplit(items: seq<Json>)
    requires |items| > 1
    ensures TextOfItems(items) == Text(items[0]) + "," + TextOfItems(items[1..])
    ensures items == [items[0]] + items[1..]
  {
  }

  lemma {:induction false} ItemsRoundTrip(items: seq<Json>, rest: string)
    requires items != [] && forall i :: 0 <= i < |items| ==> WellFormed(items[i])
    ensures ReadItems(TextOfItems(items) + "]" + rest) == Some(Read(items, rest))
    ensures TextOfItems(items) != "" && TextOfItems(items)[0] != ']'
    decreases items, 0
  {
    hide ReadValue, Text, WellFormed, ReadFields, ReadString, Escape;
    var t := TextOfItems(items) + "]" + rest;
    StartsValue(items[0]);
    if |items| == 1 {
      RoundTrip(items[0], "]" + rest);
      assert t == Text(items[0]) + ("]" + rest);
      assert ("]" + rest)[1..] == rest;
      assert items == [items[0]];
    } else {
      var tail := TextOfItems(items[1..]) + "]" + rest;
      RoundTrip(items[0], "," + tail);
      ItemsRoundTrip(items[1..], rest);
      ItemsSplit(items);
      assert t == Text(items[0]) + ("," + tail);
      assert ("," + tail)[1..] == tail;
    }
  }

  lemma {:induction false} FieldRoundTrip(f: Field, rest: string)
    requires WellFormed(f.value) && Ends(rest)
    ensures ReadField(TextOfField(f) + rest) == Some(Read(f, rest))
    ensures TextOfField(f)[0] == '"'
    decreases f, 0
  {
    hide ReadValue, Text, ReadString, Escape, WellFormed;
    var t := TextOfField(f) + rest;
    var tail := ":" + Text(f.value) + rest;
    assert t[1..] == Escape(f.key) + "\"" + tail;
    ReadQuoted(f.key, tail);
    assert tail[1..] == Text(f.value) + rest;
    RoundTrip(f.value, rest);
  }

  lemma {:induction false} FieldsRoundTrip(fields: seq<Field>, rest: string)
    requires fields != [] && forall i :: 0 <= i < |fields| ==> WellFormed(fields[i].value)
    ensures ReadFields(TextOfFields(fields) + "}" + rest) == Some(Read(fields, rest))
    ensures TextOfFields(fields) != "" && TextOfFields(fields)[0] == '"'
    decreases fields, 0
  {
    hide ReadField, TextOfField, WellFormed;
    var t := TextOfFields(fields) + "}" + rest;
    if |fields| == 1 {
      FieldRoundTrip(fields[0], "}" + rest);
      assert t == TextOfField(fields[0]) + ("}" + rest);
      assert ("}" + rest)[1..] == rest;
      assert fields == [fields[0]];
    } else {
      var tail := TextOfFields(fields[1..]) + "}" + rest;
      FieldRoundTrip(fields[0], "," + tail);
      FieldsRoundTrip(fields[1..], rest);
      assert t == TextOfField(fields[0]) + ("," + tail);
      assert ("," + tail)[1..] == tail;
      assert fields == [fields[0]] + fields[1..];
    }
  }

  /** Main result: the text of a document reads back as that document. */
  lemma ParseUndoesText(j: Json)
    requires WellFormed(j)
    ensures Parse(Text(j)) == Some(j)
  {
    RoundTrip(j, "");
    assert Text(j) + "" == Text(j);
  }
}
