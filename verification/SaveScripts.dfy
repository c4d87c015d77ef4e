/**
 The two Lua scripts that write a room. The first rewrites the version inside
 the room's text with a pattern substitution; the second compares versions.
 Lua numbers are doubles and are printed with fourteen significant digits.
 */
module SaveScripts {
  import opened Wrappers
  import opened Decks
  import opened RoomModel
  import opened JsonText
  import opened RoomCodec
  import RoomProtocol

  // ---- Lua numbers ---------------------------------------------------------------

  const TWO_53: nat := 0x20_0000_0000_0000
  const TEN_14: nat := 100_000_000_000_000

  function RoundHalfEven(n: nat, unit: nat): (q: nat)
    requires unit > 0
    ensures q >= n / unit
  {
    var q, r := n / unit, n % unit;
    if 2 * r < unit || (2 * r == unit && q % 2 == 0) then q else q + 1
  }

  function Scale(n: nat): (s: nat)
    ensures s > 0
  {
    if n < TWO_53 then 1 else 2 * Scale(n / 2)
  }

  /** The double nearest to a natural number. */
  function Double(n: nat): nat {
    RoundHalfEven(n, Scale(n)) * Scale(n)
  }

  function StripZeros(s: string): string {
    if s == "" || s[|s| - 1] != '0' then s else StripZeros(s[..|s| - 1])
  }

  function Pow10(k: nat): (p: nat)
    ensures p > 0
  {
    if k == 0 then 1 else 10 * Pow10(k - 1)
  }

  /** `%.14g` of a natural number of at least fifteen digits. */
  function Scientific(n: nat): string {
    var digits := |Decimal(n)|;
    var m := RoundHalfEven(n, Pow10(if digits > 14 then digits - 14 else 0));
    var exponent := if m == TEN_14 then digits else digits - 1;
    var mantissa := StripZeros(Decimal(m));
    (if |mantissa| <= 1 then mantissa else [mantissa[0]] + "." + mantissa[1..]) + "e+" + Decimal(exponent)
  }

  /** The text Lua gives a natural number when it is concatenated to a string. */
  function LuaText(n: nat): string {
    if n < TEN_14 then Decimal(n) else Scientific(n)
  }

  lemma {:induction false} ScaleBounds(n: nat)
    requires n >= TWO_53
    ensures Scale(n) >= 2 && 0x10_0000_0000_0000 * Scale(n) <= n
  {
    if n / 2 >= TWO_53 {
      ScaleBounds(n / 2);
    } else {
      assert Scale(n / 2) == 1;
    }
  }

  lemma DoubleIsExactBelow(n: nat)
    requires n < TWO_53
    ensures Double(n) == n
  {
  }

  /** The first two numbers that are the same double. */
  lemma FirstCollision()
    ensures Double(TWO_53) == TWO_53 == Double(TWO_53 + 1)
  {
    assert Scale(TWO_53) == 2 * Scale(TWO_53 / 2) && Scale(TWO_53 + 1) == 2 * Scale(TWO_53 / 2);
    assert Scale(TWO_53 / 2) == 1;
  }

  lemma DoubleIsExactUpTo(n: nat)
    requires n <= TWO_53
    ensures Double(n) == n
  {
    hide Double;
    if n == TWO_53 { FirstCollision(); } else { DoubleIsExactBelow(n); }
  }

  /** No two numbers up to the bound are the same double. */
  ghost predicate Separates(bound: nat) {
    forall v: nat, w: nat :: v <= bound && w <= bound && Double(v) == Double(w) ==> v == w
  }

  /** Main result: 2^53 is exactly how far versions can be told apart. */
  lemma DoublesSeparateUpTo(bound: nat)
    ensures Separates(bound) <==> bound <= TWO_53
  {
    hide Double;
    if bound <= TWO_53 {
      forall v: nat, w: nat | v <= bound && w <= bound && Double(v) == Double(w)
        ensures v == w
      {
        DoubleIsExactUpTo(v);
        DoubleIsExactUpTo(w);
      }
    } else {
      FirstCollision();
    }
  }

  lemma Multiply(a: nat, b: nat, c: nat, d: nat)
    requires a <= b && c <= d
    ensures a * c <= b * d
  {
    assert a * c <= b * c <= b * d;
  }

  lemma QuotientAtLeast(n: nat, unit: nat, q: nat)
    requires unit > 0 && q * unit <= n
    ensures n / unit >= q
  {
    assert n < (n / unit + 1) * unit;
    if n / unit < q {
      Multiply(n / unit + 1, q, unit, unit);
    }
  }

  lemma DoubleStaysLarge(n: nat)
    requires n >= TWO_53
    ensures Double(n) >= TWO_53
  {
    ScaleBounds(n);
    QuotientAtLeast(n, Scale(n), 0x10_0000_0000_0000);
    Multiply(0x10_0000_0000_0000, RoundHalfEven(n, Scale(n)), 2, Scale(n));
  }

  // ---- the substitution --------------------------------------------------------------

  const TAG: string := "\"roomVersion\":"

  predicate IsDigit(c: char) {
    '0' <= c <= '9'
  }

  /** The pattern, the tag and at least one digit, matches at index `k`. */
  predicate MatchesAt(t: string, k: nat) {
    k + |TAG| < |t| && t[k..k + |TAG|] == TAG && IsDigit(t[k + |TAG|])
  }

  function DigitRun(t: string): (n: nat)
    ensures n <= |t|
  {
    if t == "" || !IsDigit(t[0]) then 0 else 1 + DigitRun(t[1..])
  }

  /** Every match is replaced, scanning from the left; a match takes all the digits it can. */
  function Gsub(t: string, replacement: string): string
    decreases |t|
  {
    if t == "" then ""
    else if MatchesAt(t, 0) then replacement + Gsub(t[|TAG| + DigitRun(t[|TAG|..])..], replacement)
    else [t[0]] + Gsub(t[1..], replacement)
  }

  /** No match starts inside `a` when `rest` follows it. */
  ghost predicate Clean(a: string, rest: string) {
    forall k :: 0 <= k < |a| ==> !MatchesAt(a + rest, k)
  }

  lemma MatchMoves(a: string, t: string, k: nat)
    ensures MatchesAt(a + t, |a| + k) <==> MatchesAt(t, k)
  {
    if k + |TAG| < |t| {
      assert (a + t)[|a| + k..|a| + k + |TAG|] == t[k..k + |TAG|];
    }
  }

  lemma CleanJoin(a: string, b: string, rest: string)
    requires Clean(a, b + rest) && Clean(b, rest)
    ensures Clean(a + b, rest)
  {
    hide MatchesAt;
    assert a + b + rest == a + (b + rest);
    forall k | 0 <= k < |a + b|
      ensures !MatchesAt(a + b + rest, k)
    {
      if k >= |a| { MatchMoves(a, b + rest, k - |a|); }
    }
  }

  lemma {:induction false} GsubSkips(a: string, rest: string, replacement: string)
    requires Clean(a, rest)
    ensures Gsub(a + rest, replacement) == a + Gsub(rest, replacement)
  {
    hide MatchesAt;
    if a == "" {
      assert a + rest == rest;
    } else {
      var b := a[1..];
      assert a + rest == [a[0]] + (b + rest);
      forall k | 0 <= k < |b|
        ensures !MatchesAt(b + rest, k)
      {
        MatchMoves([a[0]], b + rest, k);
        assert !MatchesAt(a + rest, k + 1);
      }
      GsubSkips(b, rest, replacement);
      assert !MatchesAt(a + rest, 0);
      assert (a + rest)[1..] == b + rest;
      assert [a[0]] + (b + Gsub(rest, replacement)) == a + Gsub(rest, replacement);
    }
  }

  lemma CleanWithoutQuotes(a: string, rest: string)
    requires '"' !in a
    ensures Clean(a, rest)
  {
    forall k | 0 <= k < |a|
      ensures !MatchesAt(a + rest, k)
    {
      assert (a + rest)[k] in a;
      if MatchesAt(a + rest, k) { MatchShape(a + rest, k); }
    }
  }

  // ---- where a match could start in printed JSON ----------------------------------------

  lemma {:induction false} InnerQuotesAreEscaped(s: string, k: nat)
    requires k < |Escape(s)| && Escape(s)[k] == '"'
    ensures k > 0 && Escape(s)[k - 1] == '\\'
  {
    var e, tail := EscapeChar(s[0]), Escape(s[1..]);
    if k < |e| {
      QuoteInEscape(s[0], k);
    } else {
      InnerQuotesAreEscaped(s[1..], k - |e|);
    }
  }

  lemma QuoteInEscape(c: char, k: nat)
    requires k < |EscapeChar(c)| && EscapeChar(c)[k] == '"'
    ensures k > 0 && EscapeChar(c)[k - 1] == '\\'
  {
    if |EscapeChar(c)| > 2 {
      hide HexDigit;
      forall d: nat | d < 16 ensures HexDigit(d) != '"' { HexDigitValue(d); }
    }
  }

  /** The text matched has quotes at both ends of the name and a letter before the second one. */
  lemma MatchShape(t: string, k: nat)
    requires MatchesAt(t, k)
    ensures k + 14 < |t|
    ensures t[k] == '"' && t[k + 1] == 'r' && t[k + 11] == 'n' && t[k + 12] == '"' && t[k + 13] == ':'
    ensures forall i :: k < i < k + 12 ==> t[i] != '"'
  {
    var m := t[k..k + |TAG|];
    assert forall i :: 0 <= i < |TAG| ==> m[i] == t[k + i];
    forall i | k < i < k + 12
      ensures t[i] != '"'
    {
      assert t[i] == TAG[i - k];
    }
  }

  lemma QuoteShape(s: string, rest: string)
    ensures var e, t := Escape(s), Quote(s) + rest;
            && |Quote(s)| == |e| + 2 && t[|e| + 1] == '"' && (rest != "" ==> t[|e| + 2] == rest[0])
            && forall i :: 0 <= i < |e| ==> t[i + 1] == e[i]
  {
    hide Escape;
  }

  lemma NoMatchInString(s: string, rest: string, k: nat)
    requires Ends(rest) && k < |Quote(s)|
    ensures !MatchesAt(Quote(s) + rest, k)
  {
    hide MatchesAt, Escape, Quote;
    var e := Escape(s);
    var t := Quote(s) + rest;
    QuoteShape(s, rest);
    if k + 11 < |e| {
      assert t[(k + 11) + 1] == e[k + 11] && t[(k + 10) + 1] == e[k + 10];
      if e[k + 11] == '"' { InnerQuotesAreEscaped(s, k + 11); }
    }
    if MatchesAt(t, k) { MatchShape(t, k); }
  }

  /** A string value, whatever it contains, holds no match: its inner quotes follow a backslash. */
  lemma CleanString(s: string, rest: string)
    requires Ends(rest)
    ensures Clean(Quote(s), rest)
  {
    forall k | 0 <= k < |Quote(s)|
      ensures !MatchesAt(Quote(s) + rest, k)
    {
      NoMatchInString(s, rest, k);
    }
  }

  predicate IsLetter(c: char) {
    'a' <= c <= 'z' || 'A' <= c <= 'Z'
  }

  /** A key of letters other than the version's. */
  predicate PlainKey(key: string) {
    key != "roomVersion" && forall c :: c in key ==> IsLetter(c)
  }

  lemma {:induction false} LettersAreNotEscaped(s: string)
    requires forall c :: c in s ==> IsLetter(c)
    ensures Escape(s) == s
  {
    if s != "" {
      assert IsLetter(s[0]);
      LettersAreNotEscaped(s[1..]);
    }
  }

  lemma CleanKey(key: string, rest: string)
    requires PlainKey(key)
    ensures Clean(Quote(key) + ":", rest)
  {
    LettersAreNotEscaped(key);
    var q := "\"" + key + "\":";
    assert Quote(key) + ":" == q;
    hide Escape, Quote;
    var t := q + rest;
    assert forall i :: 0 < i <= |key| ==> t[i] == key[i - 1] && IsLetter(key[i - 1]);
    assert t[|key| + 1] == '"' && t[|key| + 2] == ':';
    hide MatchesAt;
    forall k | 0 <= k < |q|
      ensures !MatchesAt(t, k)
    {
      if MatchesAt(t, k) {
        if k == 0 { KeyOfMatch(key, rest); } else { MatchShape(t, k); }
      }
    }
  }

  lemma KeyOfMatch(key: string, rest: string)
    requires forall c :: c in key ==> IsLetter(c)
    requires MatchesAt("\"" + key + "\":" + rest, 0)
    ensures key == "roomVersion"
  {
    var t := "\"" + key + "\":" + rest;
    assert t[|key| + 1] == '"' && (|key| > 11 ==> t[12] == key[11] && IsLetter(key[11]));
    if |key| == 11 {
      assert key == t[..|TAG|][1..12] == TAG[1..12];
      assert TAG[1..12] == "roomVersion";
    }
    MatchShape(t, 0);
  }

  /** No object inside the value has a key the pattern could match. */
  predicate Tame(j: Json) {
    match j
    case Num(literal) => IsLiteral(literal)
    case Arr(items) => forall i :: 0 <= i < |items| ==> Tame(items[i])
    case Obj(fields) => forall i :: 0 <= i < |fields| ==> PlainKey(fields[i].key) && Tame(fields[i].value)
    case _ => true
  }

  lemma {:induction false} CleanValue(j: Json, rest: string)
    requires Tame(j) && Ends(rest)
    ensures Clean(Text(j), rest)
    decreases j, 0
  {
    hide Clean, PlainKey;
    match j {
      case Null => CleanWithoutQuotes("null", rest);
      case Bool(b) => CleanWithoutQuotes(if b then "true" else "false", rest);
      case Num(literal) => CleanWithoutQuotes(literal, rest);
      case Str(s) => CleanString(s, rest);
      case Arr(items) =>
        CleanWithoutQuotes("[", TextOfItems(items) + ("]" + rest));
        CleanItems(items, "]" + rest);
        CleanWithoutQuotes("]", rest);
        CleanJoin("[", TextOfItems(items), "]" + rest);
        CleanJoin("[" + TextOfItems(items), "]", rest);
      case Obj(fields) =>
        CleanWithoutQuotes("{", TextOfFields(fields) + ("}" + rest));
        CleanFields(fields, "}" + rest);
        CleanWithoutQuotes("}", rest);
        CleanJoin("{", TextOfFields(fields), "}" + rest);
        CleanJoin("{" + TextOfFields(fields), "}", rest);
    }
  }

  lemma CleanNothing(rest: string)
    ensures Clean("", rest)
  {
  }

  lemma {:induction false} CleanItems(items: seq<Json>, rest: string)
    requires (forall i :: 0 <= i < |items| ==> Tame(items[i])) && Ends(rest)
    ensures Clean(TextOfItems(items), rest)
    decreases items, 0
  {
    hide Clean, Text, Tame;
    if items == [] {
      CleanNothing(rest);
    } else if |items| == 1 {
      CleanValue(items[0], rest);
    } else {
      var tail := TextOfItems(items[1..]);
      CleanItems(items[1..], rest);
      CleanWithoutQuotes(",", tail + rest);
      CleanJoin(",", tail, rest);
      assert "," + (tail + rest) == ("," + tail) + rest;
      CleanValue(items[0], ("," + tail) + rest);
      CleanJoin(Text(items[0]), "," + tail, rest);
      assert Text(items[0]) + "," + tail == Text(items[0]) + ("," + tail);
    }
  }

  lemma {:induction false} CleanField(f: Field, rest: string)
    requires PlainKey(f.key) && Tame(f.value) && Ends(rest)
    ensures Clean(TextOfField(f), rest)
    decreases f, 0
  {
    hide Clean, Text, Tame, PlainKey, Quote;
    CleanKey(f.key, Text(f.value) + rest);
    CleanValue(f.value, rest);
    CleanJoin(Quote(f.key) + ":", Text(f.value), rest);
  }

  lemma {:induction false} CleanFields(fields: seq<Field>, rest: string)
    requires (forall i :: 0 <= i < |fields| ==> PlainKey(fields[i].key) && Tame(fields[i].value)) && Ends(rest)
    ensures Clean(TextOfFields(fields), rest)
    decreases fields, 0
  {
    hide Clean, TextOfField, Tame, PlainKey;
    if fields == [] {
      CleanNothing(rest);
    } else if |fields| == 1 {
      CleanField(fields[0], rest);
    } else {
      var tail := TextOfFields(fields[1..]);
      CleanFields(fields[1..], rest);
      CleanWithoutQuotes(",", tail + rest);
      CleanJoin(",", tail, rest);
      assert "," + (tail + rest) == ("," + tail) + rest;
      CleanField(fields[0], ("," + tail) + rest);
      CleanJoin(TextOfField(fields[0]), "," + tail, rest);
      assert TextOfField(fields[0]) + "," + tail == TextOfField(fields[0]) + ("," + tail);
    }
  }

  // ---- the stored room ------------------------------------------------------------------

  ghost predicate TameValues(keys: seq<string>, values: seq<Option<Json>>)
    requires |keys| == |values|
  {
    && (forall i :: 0 <= i < |keys| ==> PlainKey(keys[i]))
    && (forall i :: 0 <= i < |values| && values[i].Some? ==> Tame(values[i].value))
  }

  lemma {:induction false} TameFields(keys: seq<string>, values: seq<Option<Json>>)
    requires |keys| == |values| && TameValues(keys, values)
    ensures Tame(Obj(Fields(keys, values)))
  {
    hide PlainKey;
    if keys != [] {
      var last := |keys| - 1;
      var init := Fields(keys[..last], values[..last]);
      TameFields(keys[..last], values[..last]);
      assert Tame(Obj(init));
    }
  }

  const LAST: nat := 17

  lemma MemberKeysArePlain()
    ensures forall i :: 0 <= i < |CLIENT_KEYS| ==> PlainKey(CLIENT_KEYS[i])
    ensures forall i :: 0 <= i < |STORY_KEYS| ==> PlainKey(STORY_KEYS[i])
  {
  }

  lemma RoomKeysArePlain()
    ensures |ROOM_KEYS| == LAST + 1 && ROOM_KEYS[LAST] == "roomVersion"
    ensures forall i :: 0 <= i < LAST ==> PlainKey(ROOM_KEYS[i])
  {
  }

  lemma ClientIsTame(x: Scalars, c: ClientView)
    ensures Tame(ClientJson(x, c))
  {
    hide PlainKey;
    MemberKeysArePlain();
    TameFields(CLIENT_KEYS, ClientValues(x, c));
  }

  lemma StoryIsTame(x: Scalars, s: Story)
    requires RealSurvives(x, s.result)
    ensures Tame(StoryJson(x, s))
  {
    hide IsLiteral, PlainKey;
    MemberKeysArePlain();
    assert Tame(VotesJson(s.mostAppearing));
    TameFields(STORY_KEYS, StoryValues(x, s));
  }

  /** The fields before the version. */
  function Others(x: Scalars, r: RoomView): seq<Field> {
    Fields(ROOM_KEYS[..LAST], RoomValues(x, r)[..LAST])
  }

  lemma OthersAreTame(x: Scalars, r: RoomView)
    requires ScalarsSurvive(x, r)
    ensures Tame(Obj(Others(x, r)))
  {
    hide ClientJson, StoryJson, IntText, IsLiteral, PlainKey;
    RoomKeysArePlain();
    forall i | 0 <= i < |r.clients| ensures Tame(ClientsJson(x, r.clients)[i]) {
      ClientIsTame(x, r.clients[i]);
    }
    forall i | 0 <= i < |r.stories| ensures Tame(StoriesJson(x, r.stories)[i]) {
      StoryIsTame(x, r.stories[i]);
    }
    forall i: int ensures IsLiteral(IntText(i)) {
      IntReads(i);
    }
    assert Tame(VotesJson(r.summary.mostAppearing));
    assert Tame(Arr(ClientsJson(x, r.clients))) && Tame(Arr(StoriesJson(x, r.stories)));
    assert forall i: int :: Tame(IntJson(i));
    TameFields(ROOM_KEYS[..LAST], RoomValues(x, r)[..LAST]);
  }

  lemma {:induction false} SomeField(keys: seq<string>, values: seq<Option<Json>>, i: nat)
    requires i < |keys| == |values| && values[i].Some?
    ensures Fields(keys, values) != []
  {
    if i < |keys| - 1 {
      SomeField(keys[..|keys| - 1], values[..|keys| - 1], i);
    }
  }

  lemma {:induction false} TextOfLastField(fields: seq<Field>, f: Field)
    requires fields != []
    ensures TextOfFields(fields + [f]) == TextOfFields(fields) + "," + TextOfField(f)
  {
    hide TextOfField;
    if |fields| == 1 {
      assert (fields + [f])[1..] == [f];
    } else {
      assert (fields + [f])[1..] == fields[1..] + [f];
      TextOfLastField(fields[1..], f);
    }
  }

  /** The text of a room up to its version. */
  function Head(x: Scalars, r: RoomView): string {
    "{" + TextOfFields(Others(x, r)) + ","
  }

  function VersionField(version: nat): Field {
    Field("roomVersion", IntJson(version))
  }

  lemma VersionComesLast(x: Scalars, r: RoomView)
    ensures RoomJson(x, r) == Obj(Others(x, r) + [VersionField(r.version)])
    ensures Others(x, r) != []
  {
    hide IntJson;
    assert |ROOM_KEYS| == LAST + 1 && ROOM_KEYS[LAST] == "roomVersion";
    assert RoomValues(x, r)[LAST] == Some(IntJson(r.version));
    assert RoomValues(x, r)[..LAST][0] == Some(Str(r.id));
    SomeField(ROOM_KEYS[..LAST], RoomValues(x, r)[..LAST], 0);
  }

  /** The version is the last thing in the text, and nothing before depends on it. */
  lemma TextEndsWithVersion(x: Scalars, r: RoomView)
    ensures SerializeRoom(x, r) == Head(x, r) + TAG + Decimal(r.version) + "}"
    ensures forall version: nat, events :: Head(x, r.(version := version, events := events)) == Head(x, r)
  {
    hide Text, TextOfFields, TextOfField, Decimal, RoomJson, Others, VersionField;
    var others, version := Others(x, r), VersionField(r.version);
    VersionComesLast(x, r);
    TextOfLastField(others, version);
    TextOfVersion(r.version);
    ObjectText(others + [version]);
    forall version: nat, events
      ensures Head(x, r.(version := version, events := events)) == Head(x, r)
    {
      SameOthers(x, r, version, events);
    }
  }

  lemma SameOthers(x: Scalars, r: RoomView, version: nat, events: seq<Event>)
    ensures Others(x, r.(version := version, events := events)) == Others(x, r)
  {
    assert RoomValues(x, r.(version := version, events := events))[..LAST] == RoomValues(x, r)[..LAST];
  }

  lemma ObjectText(fields: seq<Field>)
    ensures Text(Obj(fields)) == "{" + TextOfFields(fields) + "}"
  {
  }

  lemma TextOfVersion(version: nat)
    ensures TextOfField(VersionField(version)) == TAG + Decimal(version)
  {
    hide Escape, Decimal;
    LettersAreNotEscaped("roomVersion");
    assert Quote("roomVersion") + ":" == TAG;
  }

  lemma {:induction false} DigitRunOf(digits: string, rest: string)
    requires (forall c :: c in digits ==> IsDigit(c)) && (rest == "" || !IsDigit(rest[0]))
    ensures DigitRun(digits + rest) == |digits|
  {
    if digits == "" {
      assert digits + rest == rest;
    } else {
      assert (digits + rest)[1..] == digits[1..] + rest;
      DigitRunOf(digits[1..], rest);
    }
  }

  lemma GsubOfVersion(version: nat, replacement: string)
    ensures Gsub(TAG + Decimal(version) + "}", replacement) == replacement + "}"
  {
    var digits := Decimal(version);
    var t := TAG + digits + "}";
    DecimalReads(version);
    assert digits[0] in digits;
    assert t[0..|TAG|] == TAG && t[|TAG|] == digits[0];
    DigitRunOf(digits, "}");
    assert t[|TAG|..] == digits + "}";
    assert t[|TAG| + |digits|..] == "}";
    assert Gsub("}", replacement) == "}" by {
      assert "}"[1..] == "";
    }
  }

  /** Main result: whatever the names and stories contain, the substitution rewrites the version and nothing else. */
  lemma GsubRewritesOnlyTheVersion(x: Scalars, r: RoomView, text: string)
    requires ScalarsSurvive(x, r)
    ensures Gsub(SerializeRoom(x, r), TAG + text) == Head(x, r) + TAG + text + "}"
  {
    hide Gsub, Clean, SerializeRoom, MatchesAt, ScalarsSurvive, TextOfFields;
    var rest := TAG + Decimal(r.version) + "}";
    var others := TextOfFields(Others(x, r));
    TextEndsWithVersion(x, r);
    OthersAreTame(x, r);
    CleanWithoutQuotes("{", others + ("," + rest));
    CleanFields(Others(x, r), "," + rest);
    CleanJoin("{", others, "," + rest);
    CleanWithoutQuotes(",", rest);
    CleanJoin("{" + others, ",", rest);
    GsubSkips(Head(x, r), rest, TAG + text);
    GsubOfVersion(r.version, TAG + text);
    Reassociate(Head(x, r), TAG, Decimal(r.version), "}");
    Reassociate(Head(x, r), TAG, text, "}");
  }

  lemma Reassociate(a: string, b: string, c: string, d: string)
    ensures a + b + c + d == a + (b + c + d)
  {
  }

  // ---- the scripts ------------------------------------------------------------------------

  /** `cjson.decode(stored).roomVersion` */
  function StoredVersion(stored: string): Option<nat> {
    match Parse(stored)
    case Some(Obj(fields)) =>
      (match Lookup(fields, "roomVersion")
       case Some(Num(literal)) => (match Digits(literal, 0) case Some(n) => Some(Double(n)) case None => None)
       case _ => None)
    case _ => None
  }

  datatype Saved = Saved(text: string, next: nat)

  /** `saveRoomScript`: nothing when the stored text has no version, which makes the script fail. */
  function SaveScript(stored: Option<string>, data: string): Option<Saved> {
    var version := if stored.Some? then StoredVersion(stored.value) else Some(0);
    match version
    case None => None
    case Some(v) =>
      var next := Double(v + 1);
      Some(Saved(Gsub(data, TAG + LuaText(next)), next))
  }

  /** `compareAndSaveRoomScript` */
  datatype Compared = Missing | Differs(version: nat) | Replaced(text: string)

  function CompareAndSaveScript(stored: Option<string>, expected: nat, data: string): Option<Compared> {
    match stored
    case None => Some(Missing)
    case Some(text) =>
      match StoredVersion(text)
      case None => None
      case Some(version) => Some(if version != Double(expected) then Differs(version) else Replaced(data))
  }

  /** `saveRoomConditionally`: the new stored text, or nothing when the version is stale. */
  function SaveConditionally(x: Scalars, stored: Option<string>, r: RoomView, expected: Option<nat>): Option<string> {
    match expected
    case None => None
    case Some(e) =>
      match CompareAndSaveScript(stored, e, SerializeRoom(x, r.(version := e + 1)))
      case Some(Replaced(text)) => Some(text)
      case _ => None
  }

  lemma VersionIsRead(x: Scalars, r: RoomView)
    requires ScalarsSurvive(x, r)
    ensures StoredVersion(SerializeRoom(x, r)) == Some(Double(r.version))
  {
    hide Text, Parse, WellFormed, Lookup, Fields, ScalarsSurvive, Double, Digits, Decimal;
    RoomIsWellFormed(x, r);
    ParseUndoesText(RoomJson(x, r));
    RoomFields(x, r);
    DecimalReads(r.version);
    assert Lookup(Fields(ROOM_KEYS, RoomValues(x, r)), ROOM_KEYS[LAST]) == Some(IntJson(r.version));
  }

  lemma ScientificIsNotDecimal(n: nat, m: nat)
    ensures Scientific(n) != Decimal(m)
  {
    hide StripZeros, RoundHalfEven, Pow10;
    DecimalReads(m);
    assert 'e' in Scientific(n) by {
      var t := Scientific(n);
      var suffix := Decimal(if RoundHalfEven(n, Pow10(if |Decimal(n)| > 14 then |Decimal(n)| - 14 else 0)) == TEN_14
                            then |Decimal(n)| else |Decimal(n)| - 1);
      assert t[|t| - |suffix| - 2] == 'e';
    }
  }

  function TextOf(x: Scalars, stored: Option<RoomView>): Option<string> {
    if stored.Some? then Some(SerializeRoom(x, stored.value)) else None
  }

  /**
   Main result: the first script stores the given room under the next version exactly while that version
   has at most fourteen digits; from 10^14 on it writes a literal in scientific notation instead.
   */
  lemma SaveScriptWritesNextVersion(x: Scalars, stored: Option<RoomView>, r: RoomView)
    requires ScalarsSurvive(x, r) && (stored.Some? ==> ScalarsSurvive(x, stored.value))
    ensures var saved := SaveScript(TextOf(x, stored), SerializeRoom(x, r));
            var next := RoomProtocol.NextOf(stored);
            && saved.Some?
            && (saved.value.text == SerializeRoom(x, RoomProtocol.Written(r, next)) <==> next < TEN_14)
            && (next < TEN_14 ==> saved.value.next == next)
  {
    hide Gsub, SerializeRoom, Double, Scientific, Decimal, StoredVersion, Head, ScalarsSurvive;
    var next := RoomProtocol.NextOf(stored);
    if stored.Some? { VersionIsRead(x, stored.value); }
    DoubleIsExactBelow(0);
    NextAsDouble(next - 1);
    var n := Double(Double(next - 1) + 1);
    GsubRewritesOnlyTheVersion(x, r, LuaText(n));
    TextEndsWithVersion(x, r);
    TextEndsWithVersion(x, RoomProtocol.Written(r, next));
    if next < TEN_14 {
      assert LuaText(n) == Decimal(next);
    } else {
      assert LuaText(n) == Scientific(n);
      ScientificIsNotDecimal(n, next);
      Framed(Head(x, r) + TAG, Scientific(n), Decimal(next), "}");
    }
  }

  lemma Framed(a: string, b: string, b': string, c: string)
    requires b != b'
    ensures a + b + c != a + b' + c
  {
    assert (a + b + c)[|a|..|a| + |b|] == b && (a + b' + c)[|a|..|a| + |b'|] == b';
  }

  lemma NextAsDouble(version: nat)
    ensures version + 1 < TEN_14 ==> Double(Double(version) + 1) == version + 1
    ensures version + 1 >= TEN_14 ==> Double(Double(version) + 1) >= TEN_14
  {
    hide Double;
    if version < TWO_53 { DoubleIsExactBelow(version); } else { DoubleStaysLarge(version); }
    var next := Double(version) + 1;
    if next < TWO_53 { DoubleIsExactBelow(next); } else { DoubleStaysLarge(next); }
  }

  /** The second script, for all versions: it replaces the room exactly when the two versions are the same double. */
  lemma ConditionalSaveComparesDoubles(x: Scalars, stored: Option<RoomView>, r: RoomView, expected: Option<nat>)
    requires stored.Some? ==> ScalarsSurvive(x, stored.value)
    ensures var saved := SaveConditionally(x, TextOf(x, stored), r, expected);
            && (saved.Some? <==>
                  stored.Some? && expected.Some? && Double(stored.value.version) == Double(expected.value))
            && (saved.Some? ==> saved.value == SerializeRoom(x, RoomProtocol.Written(r, expected.value + 1)))
  {
    hide SerializeRoom, Double, StoredVersion, ScalarsSurvive, Decimal, Head;
    if stored.Some? && expected.Some? {
      VersionIsRead(x, stored.value);
      TextEndsWithVersion(x, r.(version := expected.value + 1));
      TextEndsWithVersion(x, RoomProtocol.Written(r, expected.value + 1));
    }
  }

  /** What the guard should do: replace the room exactly when the stored version is the expected one. */
  ghost predicate GuardIsRight(x: Scalars, stored: Option<RoomView>, r: RoomView, expected: Option<nat>) {
    SaveConditionally(x, TextOf(x, stored), r, expected)
    == match RoomProtocol.NextVersion(stored, RoomProtocol.IfVersion(expected))
       case None => None
       case Some(next) => Some(SerializeRoom(x, RoomProtocol.Written(r, next)))
  }

  /** Main result, the exact condition: the guard is right unless two different versions are the same double. */
  lemma GuardIsRightIff(x: Scalars, stored: Option<RoomView>, r: RoomView, expected: Option<nat>)
    requires stored.Some? ==> ScalarsSurvive(x, stored.value)
    ensures GuardIsRight(x, stored, r, expected)
       <==> (stored.Some? && expected.Some? && stored.value.version != expected.value
             ==> Double(stored.value.version) != Double(expected.value))
  {
    hide SaveConditionally, SerializeRoom, Double, ScalarsSurvive;
    ConditionalSaveComparesDoubles(x, stored, r, expected);
  }

  /** So up to 2^53 the second script replaces the room exactly when the versions agree. */
  lemma ConditionalSaveComparesVersions(x: Scalars, stored: Option<RoomView>, r: RoomView, expected: Option<nat>)
    requires stored.Some? ==> ScalarsSurvive(x, stored.value)
    requires (stored.Some? ==> stored.value.version <= TWO_53) && (expected.Some? ==> expected.value <= TWO_53)
    ensures SaveConditionally(x, TextOf(x, stored), r, expected)
         == match RoomProtocol.NextVersion(stored, RoomProtocol.IfVersion(expected))
            case None => None
            case Some(next) => Some(SerializeRoom(x, RoomProtocol.Written(r, next)))
  {
    hide SaveConditionally, SerializeRoom, Double, ScalarsSurvive;
    GuardIsRightIff(x, stored, r, expected);
    if stored.Some? && expected.Some? {
      DoubleIsExactUpTo(stored.value.version);
      DoubleIsExactUpTo(expected.value);
    }
  }

  /** One further the script takes the wrong version: a room at 2^53 is replaced for a caller that expects 2^53 + 1. */
  lemma WrongVersionIsAccepted(x: Scalars, stored: RoomView, r: RoomView)
    requires ScalarsSurvive(x, stored) && stored.version == TWO_53
    ensures SaveConditionally(x, Some(SerializeRoom(x, stored)), r, Some(TWO_53 + 1))
         == Some(SerializeRoom(x, RoomProtocol.Written(r, TWO_53 + 2)))
  {
    hide SaveConditionally, SerializeRoom, Double, ScalarsSurvive;
    FirstCollision();
    ConditionalSaveComparesDoubles(x, Some(stored), r, Some(TWO_53 + 1));
  }

  /** What a load returns after an unconditional save: the room saved, under the next version. */
  lemma SavedRoomLoads(x: Scalars, stored: Option<RoomView>, r: RoomView)
    requires ScalarsSurvive(x, r) && (stored.Some? ==> ScalarsSurvive(x, stored.value))
    requires StoriesHaveIds(r.stories) && RoomProtocol.NextOf(stored) < TEN_14
    ensures var saved := SaveScript(TextOf(x, stored), SerializeRoom(x, r));
            var next := RoomProtocol.NextOf(stored);
            saved.Some? && DeserializeRoom(x, saved.value.text) == Ok(Stored(RoomProtocol.Written(r, next)))
  {
    hide SerializeRoom, DeserializeRoom, SaveScript;
    SaveScriptWritesNextVersion(x, stored, r);
    DeserializeUndoesSerialize(x, RoomProtocol.Written(r, RoomProtocol.NextOf(stored)));
  }

  // ---- what numbers become -------------------------------------------------------------------

  ghost predicate IsPowerOfTwo(n: nat)
    decreases n
  {
    n == 1 || (n > 1 && n % 2 == 0 && IsPowerOfTwo(n / 2))
  }

  /** The distance between neighbouring doubles: 1 below 2^53, else the power of two that leaves 53 digits. */
  lemma {:induction false} ScaleIsExact(n: nat)
    ensures IsPowerOfTwo(Scale(n))
    ensures if n < TWO_53 then Scale(n) == 1
            else 0x10_0000_0000_0000 * Scale(n) <= n < TWO_53 * Scale(n)
  {
    if n >= TWO_53 {
      ScaleIsExact(n / 2);
      if n / 2 < TWO_53 {
        assert Scale(n) == 2;
      }
    }
  }

  lemma RoundsToNearest(n: nat, unit: nat)
    requires unit > 0
    ensures var q := RoundHalfEven(n, unit);
            && 2 * n - unit <= 2 * (q * unit) <= 2 * n + unit
            && (2 * (q * unit) == 2 * n - unit || 2 * (q * unit) == 2 * n + unit ==> q % 2 == 0)
  {
    var q, r := n / unit, n % unit;
    assert n == q * unit + r;
    assert (q + 1) * unit == q * unit + unit;
  }

  /** The double of a number is the nearest multiple of that distance, and of two the one with an even quotient. */
  lemma DoubleIsNearest(n: nat)
    ensures var s, d := Scale(n), Double(n);
            && 2 * n - s <= 2 * d <= 2 * n + s
            && exists q: nat :: d == q * s && (2 * d == 2 * n - s || 2 * d == 2 * n + s ==> q % 2 == 0)
  {
    RoundsToNearest(n, Scale(n));
    var q := RoundHalfEven(n, Scale(n));
    assert Double(n) == q * Scale(n);
    hide Scale, RoundHalfEven;
  }

  /** Versions of up to fourteen digits are printed as they are. */
  lemma SmallNumbersArePrinted(n: nat)
    requires n < TEN_14
    ensures Digits(LuaText(n), 0) == Some(n) && forall c :: c in LuaText(n) ==> IsDigit(c)
  {
    DecimalReads(n);
  }

  function Zeros(k: nat): string {
    if k == 0 then "" else Zeros(k - 1) + "0"
  }

  lemma {:induction false} PowersOfTen(k: nat)
    ensures Decimal(Pow10(k)) == "1" + Zeros(k) && |Zeros(k)| == k
  {
    if k > 0 {
      PowersOfTen(k - 1);
      assert Pow10(k) / 10 == Pow10(k - 1) && Pow10(k) % 10 == 0 && Pow10(k) >= 10;
      assert "1" + Zeros(k) == "1" + Zeros(k - 1) + "0";
    }
  }

  lemma {:induction false} ZerosAreStripped(k: nat)
    ensures StripZeros("1" + Zeros(k)) == "1"
  {
    if k > 0 {
      ZerosAreStripped(k - 1);
      var t := "1" + Zeros(k);
      assert t[|t| - 1] == '0' && t[..|t| - 1] == "1" + Zeros(k - 1);
    }
  }

  lemma {:induction false} PowersAre(k: nat)
    ensures k == 13 ==> Pow10(k) == 10_000_000_000_000
    ensures k == 14 ==> Pow10(k) == TEN_14
  {
    assert Pow10(4) == 10_000;
    assert Pow10(8) == 100_000_000;
    assert Pow10(13) == 10_000_000_000_000;
  }

  lemma TenTo14Rounds()
    ensures Pow10(1) == 10 && RoundHalfEven(TEN_14, 10) == 10_000_000_000_000
  {
    assert TEN_14 / 10 == 10_000_000_000_000 && TEN_14 % 10 == 0;
  }

  lemma TenTo14Digits()
    ensures |Decimal(TEN_14)| == 15 && StripZeros(Decimal(10_000_000_000_000)) == "1" && Decimal(14) == "14"
  {
    hide Decimal, StripZeros, Zeros, Pow10;
    PowersAre(13);
    PowersAre(14);
    PowersOfTen(13);
    PowersOfTen(14);
    ZerosAreStripped(13);
    Fourteen();
  }

  lemma Fourteen()
    ensures Decimal(14) == "14"
  {
    var one := Decimal(1);
    assert one == ["0123456789"[1]] && Decimal(14) == one + ["0123456789"[4]];
  }

  /** The first version that is printed in another form, and what it becomes. */
  lemma FirstScientificVersion()
    ensures LuaText(TEN_14) == "1e+14"
  {
    TenTo14Rounds();
    TenTo14Digits();
    hide Decimal, StripZeros, RoundHalfEven, Pow10;
    assert LuaText(TEN_14) == "1" + "e+" + "14";
  }

  // ---- the scripts on any text -----------------------------------------------------------------

  /** One match after the other is replaced, each with all its digits. */
  lemma GsubReplacesEveryMatch(version: nat, rest: string, replacement: string)
    requires rest == "" || !IsDigit(rest[0])
    ensures Gsub(TAG + Decimal(version) + rest, replacement) == replacement + Gsub(rest, replacement)
  {
    var digits := Decimal(version);
    var t := TAG + digits + rest;
    DecimalReads(version);
    DigitRunOf(digits, rest);
    assert t[..|TAG|] == TAG && t[|TAG|..] == digits + rest && t[|TAG|] == digits[0];
    assert t[|TAG| + |digits|..] == rest;
    hide Decimal, DigitRun;
  }

  /** A stored text that is no document, or has no version, makes the first script fail. */
  lemma UnversionedTextFails(stored: string, data: string)
    requires match Parse(stored)
             case Some(Obj(fields)) => Lookup(fields, "roomVersion") in {None, Some(Null)}
             case Some(_) => true
             case None => true
    ensures SaveScript(Some(stored), data) == None
  {
    hide Parse, Lookup;
  }

  /** The answers of the second script. */
  lemma CompareAnswers(x: Scalars, stored: RoomView, expected: nat, data: string)
    requires ScalarsSurvive(x, stored)
    ensures CompareAndSaveScript(None, expected, data) == Some(Missing)
    ensures CompareAndSaveScript(Some(SerializeRoom(x, stored)), expected, data)
         == Some(if Double(stored.version) == Double(expected) then Replaced(data) else Differs(Double(stored.version)))
  {
    hide SerializeRoom, Double, StoredVersion, ScalarsSurvive;
    VersionIsRead(x, stored);
  }
}
