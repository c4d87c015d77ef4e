/**
 The stored text of a room as another program would describe it: JSON with these keys, in these forms, present or left
 out under these conditions.
 */
module StoredForm {
  import opened Wrappers
  import opened Decks
  import opened Summaries
  import opened RoomModel
  import opened JsonText
  import opened RoomCodec

  // ---- JSON text ------------------------------------------------------------------------

  /** The parts with commas between them. */
  function Joined(parts: seq<string>): string {
    if parts == [] then ""
    else if |parts| == 1 then parts[0]
    else parts[0] + "," + Joined(parts[1..])
  }

  function Texts(items: seq<Json>): (parts: seq<string>)
    ensures |parts| == |items|
  {
    seq(|items|, i requires 0 <= i < |items| => Text(items[i]))
  }

  /** `"key":value` */
  function Members(fields: seq<Field>): (parts: seq<string>)
    ensures |parts| == |fields|
  {
    seq(|fields|, i requires 0 <= i < |fields| =>
      "\"" + Escape(fields[i].key) + "\":" + Text(fields[i].value))
  }

  lemma {:induction false} ItemsAreJoined(items: seq<Json>)
    ensures TextOfItems(items) == Joined(Texts(items))
  {
    hide Text;
    if |items| > 1 {
      ItemsAreJoined(items[1..]);
      assert Texts(items)[1..] == Texts(items[1..]);
    }
  }

  lemma {:induction false} FieldsAreJoined(fields: seq<Field>)
    ensures TextOfFields(fields) == Joined(Members(fields))
  {
    hide Text, Escape;
    forall i | 0 <= i < |fields| ensures TextOfField(fields[i]) == Members(fields)[i] {
      MemberText(fields[i]);
    }
    hide TextOfField;
    if |fields| > 1 {
      FieldsAreJoined(fields[1..]);
      assert Members(fields)[1..] == Members(fields[1..]);
    }
  }

  lemma MemberText(f: Field)
    ensures TextOfField(f) == "\"" + Escape(f.key) + "\":" + Text(f.value)
  {
    hide Text, Escape;
    assert Quote(f.key) + ":" == "\"" + Escape(f.key) + "\":";
  }

  /** JSON as it is written everywhere: words, quoted strings, brackets and braces. */
  lemma TextIsJson(j: Json)
    ensures match j
            case Null => Text(j) == "null"
            case Bool(b) => Text(j) == if b then "true" else "false"
            case Num(literal) => Text(j) == literal
            case Str(s) => Text(j) == "\"" + Escape(s) + "\""
            case Arr(items) => Text(j) == "[" + Joined(Texts(items)) + "]"
            case Obj(fields) => Text(j) == "{" + Joined(Members(fields)) + "}"
  {
    hide Escape, Joined, Texts, Members;
    match j {
      case Arr(items) => ItemsAreJoined(items);
      case Obj(fields) => FieldsAreJoined(fields);
      case _ =>
    }
  }

  /** Characters that keep their form in a string. */
  predicate IsPlain(c: char) {
    ' ' <= c && c !in "\"\\<>&" && c != '\U{2028}' && c != '\U{2029}'
  }

  const HEX: string := "0123456789abcdef"

  /** Characters with an escape of their own. */
  predicate HasShortEscape(c: char) {
    c in "\"\\\n\r\t" || c == '\U{0008}' || c == '\U{000c}'
  }

  /** Every character of a string by itself: as it is, by its short escape, or as four hexadecimal digits. */
  lemma EscapesAreStandard(c: char)
    ensures IsPlain(c) ==> EscapeChar(c) == [c]
    ensures !IsPlain(c) && !HasShortEscape(c) ==>
              var n := c as int;
              n < 0x1_0000
              && EscapeChar(c) == ['\\', 'u', HEX[n / 4096], HEX[n / 256 % 16], HEX[n / 16 % 16], HEX[n % 16]]
  {
    hide Hex4;
    if !IsPlain(c) && !HasShortEscape(c) {
      HexDigits(c as int);
    }
  }

  lemma HexDigits(n: nat)
    requires n < 0x1_0000
    ensures Hex4(n) == [HEX[n / 4096], HEX[n / 256 % 16], HEX[n / 16 % 16], HEX[n % 16]]
  {
    assert n / 16 / 16 / 16 == n / 4096 && n / 16 / 16 == n / 256;
  }

  lemma ShortEscapes()
    ensures EscapeChar('"') == ['\\', '"'] && EscapeChar('\\') == ['\\', '\\']
    ensures EscapeChar('\n') == ['\\', 'n'] && EscapeChar('\r') == ['\\', 'r'] && EscapeChar('\t') == ['\\', 't']
    ensures EscapeChar('\U{0008}') == ['\\', 'b'] && EscapeChar('\U{000c}') == ['\\', 'f']
  {
    hide Hex4;
  }

  lemma EscapeOneByOne(c: char, s: string)
    ensures Escape("") == ""
    ensures Escape([c] + s) == EscapeChar(c) + Escape(s)
  {
    assert ([c] + s)[1..] == s;
  }

  // ---- documents --------------------------------------------------------------------------

  predicate IsInt(j: Option<Json>, i: int) {
    j.Some? && j.value.Num? && Atoi(j.value.literal) == Some(i)
  }

  /** A list of strings; an empty one is written as null. */
  predicate IsStrings(j: Option<Json>, xs: seq<string>) {
    && j.Some?
    && if xs == [] then j.value == Null
       else j.value.Arr? && |j.value.items| == |xs|
            && forall i :: 0 <= i < |xs| ==> j.value.items[i] == Str(xs[i])
  }

  predicate IsOptionalString(j: Option<Json>, s: Option<string>) {
    match s
    case None => j == None
    case Some(text) => j == Some(Str(text))
  }

  predicate IsOptionalInt(j: Option<Json>, i: Option<int>) {
    match i
    case None => j == None
    case Some(n) => IsInt(j, n)
  }

  /** A time that is not the zero instant, in the host's format. */
  predicate IsTime(x: Scalars, j: Option<Json>, t: Option<Time>) {
    if t == None || t == Some(0) then j == None else j == Some(Str(x.timeText(t.value)))
  }

  predicate IsReal(x: Scalars, j: Option<Json>, r: Option<real>) {
    match r
    case None => j == None
    case Some(value) => j == Some(Num(x.realText(value)))
  }

  predicate IsClient(x: Scalars, j: Json, c: ClientView) {
    && j.Obj?
    && Lookup(j.fields, "id") == Some(Str(c.id))
    && Lookup(j.fields, "name") == Some(Str(c.name))
    && IsOptionalString(Lookup(j.fields, "currentVote"), c.vote)
    && Lookup(j.fields, "hasVoted") == Some(Bool(c.hasVoted))
    && IsTime(x, Lookup(j.fields, "votedAt"), c.votedAt)
    && Lookup(j.fields, "isSpectator") == Some(Bool(c.spectator))
    && Lookup(j.fields, "isOwner") == Some(Bool(c.owner))
  }

  predicate IsStory(x: Scalars, j: Json, s: Story) {
    && j.Obj?
    && IsOptionalString(Lookup(j.fields, "id"), if s.id == "" then None else Some(s.id))
    && Lookup(j.fields, "name") == Some(Str(s.name))
    && IsReal(x, Lookup(j.fields, "result"), s.result)
    && IsStrings(Lookup(j.fields, "mostAppearingVotes"), s.mostAppearing)
    && Lookup(j.fields, "voted") == Some(Bool(s.voted))
  }

  lemma FieldsRead(keys: seq<string>, values: seq<Option<Json>>)
    requires |keys| == |values| && Distinct(keys)
    ensures forall i :: 0 <= i < |keys| ==> Lookup(Fields(keys, values), keys[i]) == values[i]
  {
    hide Fields, Lookup, Distinct;
    forall i | 0 <= i < |keys| ensures Lookup(Fields(keys, values), keys[i]) == values[i] {
      LookupField(keys, values, i);
    }
  }

  lemma ClientDocument(x: Scalars, c: ClientView)
    ensures IsClient(x, ClientJson(x, c), c)
  {
    hide Lookup;
    ClientFieldsRead(x, c);
    hide Fields;
  }

  lemma StoryDocument(x: Scalars, s: Story)
    ensures IsStory(x, StoryJson(x, s), s)
  {
    hide Lookup, Fields, Distinct;
    KeysAreDistinct();
    var values := StoryValues(x, s);
    FieldsRead(STORY_KEYS, values);
    var fields := Fields(STORY_KEYS, values);
    assert Lookup(fields, STORY_KEYS[0]) == values[0] && Lookup(fields, STORY_KEYS[1]) == values[1];
    assert Lookup(fields, STORY_KEYS[2]) == values[2] && Lookup(fields, STORY_KEYS[3]) == values[3];
    assert Lookup(fields, STORY_KEYS[4]) == values[4];
  }

  /** The word a consensus is stored as, if any. */
  predicate IsConsensus(j: Option<Json>, c: Consensus) {
    match c
    case Unset => j == None
    case Unavailable => j == Some(Str("Unavailable"))
    case Low => j == Some(Str("Low"))
    case Medium => j == Some(Str("Medium"))
    case High => j == Some(Str("High"))
  }

  predicate IsClients(x: Scalars, j: Option<Json>, clients: seq<ClientView>) {
    && j.Some? && j.value.Arr? && |j.value.items| == |clients|
    && forall i :: 0 <= i < |clients| ==> IsClient(x, j.value.items[i], clients[i])
  }

  /** An empty backlog is left out. */
  predicate IsStories(x: Scalars, j: Option<Json>, stories: seq<Story>) {
    if stories == [] then j == None
    else
      && j.Some? && j.value.Arr? && |j.value.items| == |stories|
      && forall i :: 0 <= i < |stories| ==> IsStory(x, j.value.items[i], stories[i])
  }

  predicate IsRoomState(x: Scalars, fields: seq<Field>, r: RoomView) {
    && Lookup(fields, "id") == Some(Str(r.id))
    && IsTime(x, Lookup(fields, "startedAt"), Some(r.startedAt))
    && IsClients(x, Lookup(fields, "clients"), r.clients)
    && IsOptionalString(Lookup(fields, "deckType"), if r.deckType == "" then None else Some(r.deckType))
    && Lookup(fields, "currentStory") == Some(Str(r.currentStory))
    && Lookup(fields, "reveal") == Some(Bool(r.revealed))
  }

  predicate IsSummary(x: Scalars, fields: seq<Field>, s: Summary) {
    && IsReal(x, Lookup(fields, "result"), s.result)
    && IsStrings(Lookup(fields, "mostAppearingVotes"), s.mostAppearing)
    && IsConsensus(Lookup(fields, "consensus"), s.consensus)
    && IsOptionalString(Lookup(fields, "lowestVote"), s.lowest)
    && IsOptionalString(Lookup(fields, "highestVote"), s.highest)
    && IsOptionalInt(Lookup(fields, "voteRange"), s.range)
    && IsOptionalInt(Lookup(fields, "voteSpread"), s.spread)
    && IsOptionalInt(Lookup(fields, "specialVoteCount"), if s.special == 0 then None else Some(s.special))
  }

  predicate IsBacklog(x: Scalars, fields: seq<Field>, r: RoomView) {
    && Lookup(fields, "backlogMode") == Some(Bool(r.backlog))
    && IsStories(x, Lookup(fields, "stories"), r.stories)
    && IsInt(Lookup(fields, "currentStoryIndex"), r.index)
    && IsInt(Lookup(fields, "roomVersion"), r.version)
  }

  lemma ClientsDocument(x: Scalars, clients: seq<ClientView>)
    ensures IsClients(x, Some(Arr(ClientsJson(x, clients))), clients)
  {
    hide IsClient, ClientJson;
    forall i | 0 <= i < |clients| ensures IsClient(x, ClientsJson(x, clients)[i], clients[i]) {
      ClientDocument(x, clients[i]);
    }
  }

  lemma StoriesDocument(x: Scalars, stories: seq<Story>)
    ensures IsStories(x, if stories == [] then None else Some(Arr(StoriesJson(x, stories))), stories)
  {
    hide IsStory, StoryJson;
    forall i | 0 <= i < |stories| ensures IsStory(x, StoriesJson(x, stories)[i], stories[i]) {
      StoryDocument(x, stories[i]);
    }
  }

  lemma RoomLookups(x: Scalars, r: RoomView)
    ensures var fields, values := Fields(ROOM_KEYS, RoomValues(x, r)), RoomValues(x, r);
            forall i :: 0 <= i < |ROOM_KEYS| ==> Lookup(fields, ROOM_KEYS[i]) == values[i]
  {
    hide Lookup, Fields, Distinct;
    KeysAreDistinct();
    FieldsRead(ROOM_KEYS, RoomValues(x, r));
  }

  lemma RoomStateDocument(x: Scalars, r: RoomView)
    ensures IsRoomState(x, Fields(ROOM_KEYS, RoomValues(x, r)), r)
  {
    hide Lookup, Fields, IsClients, ClientsJson, StoriesJson, IntText;
    RoomLookups(x, r);
    ClientsDocument(x, r.clients);
    var fields, values := Fields(ROOM_KEYS, RoomValues(x, r)), RoomValues(x, r);
    assert Lookup(fields, ROOM_KEYS[0]) == values[0] && Lookup(fields, ROOM_KEYS[1]) == values[1];
    assert Lookup(fields, ROOM_KEYS[2]) == values[2] && Lookup(fields, ROOM_KEYS[3]) == values[3];
    assert Lookup(fields, ROOM_KEYS[4]) == values[4] && Lookup(fields, ROOM_KEYS[5]) == values[5];
  }

  lemma OptionalIntDocument(i: Option<int>)
    ensures IsOptionalInt(OptionalIntJson(i), i)
  {
    if i.Some? { IntReads(i.value); }
  }

  lemma SummaryDocument(x: Scalars, r: RoomView)
    ensures IsSummary(x, Fields(ROOM_KEYS, RoomValues(x, r)), r.summary)
  {
    var s := r.summary;
    OptionalIntDocument(s.range);
    OptionalIntDocument(s.spread);
    IntReads(s.special);
    RoomLookups(x, r);
    hide Lookup, Fields, ClientsJson, StoriesJson, IntText, Atoi, OptionalIntJson;
    var fields, values := Fields(ROOM_KEYS, RoomValues(x, r)), RoomValues(x, r);
    assert Lookup(fields, ROOM_KEYS[6]) == values[6] && Lookup(fields, ROOM_KEYS[7]) == values[7];
    assert Lookup(fields, ROOM_KEYS[8]) == values[8] && Lookup(fields, ROOM_KEYS[9]) == values[9];
    assert Lookup(fields, ROOM_KEYS[10]) == values[10] && Lookup(fields, ROOM_KEYS[11]) == values[11];
    assert Lookup(fields, ROOM_KEYS[12]) == values[12] && Lookup(fields, ROOM_KEYS[13]) == values[13];
  }

  lemma BacklogDocument(x: Scalars, r: RoomView)
    ensures IsBacklog(x, Fields(ROOM_KEYS, RoomValues(x, r)), r)
  {
    IntReads(r.index);
    IntReads(r.version);
    StoriesDocument(x, r.stories);
    RoomLookups(x, r);
    hide Lookup, Fields, ClientsJson, StoriesJson, IntText, Atoi, IsStories;
    var fields, values := Fields(ROOM_KEYS, RoomValues(x, r)), RoomValues(x, r);
    assert Lookup(fields, ROOM_KEYS[14]) == values[14] && Lookup(fields, ROOM_KEYS[15]) == values[15];
    assert Lookup(fields, ROOM_KEYS[16]) == values[16] && Lookup(fields, ROOM_KEYS[17]) == values[17];
  }

  /** Main result: the stored text of a room parses to an object with every field of the room under its key. */
  lemma RoomDocument(x: Scalars, r: RoomView)
    requires ScalarsSurvive(x, r)
    ensures var document := Parse(SerializeRoom(x, r));
            && document.Some? && document.value.Obj?
            && IsRoomState(x, document.value.fields, r)
            && IsSummary(x, document.value.fields, r.summary)
            && IsBacklog(x, document.value.fields, r)
  {
    hide Parse, Text, ScalarsSurvive, Fields, IsRoomState, IsSummary, IsBacklog, RoomValues;
    RoomIsWellFormed(x, r);
    ParseUndoesText(RoomJson(x, r));
    RoomStateDocument(x, r);
    SummaryDocument(x, r);
    BacklogDocument(x, r);
  }

  // ---- reading any document ------------------------------------------------------------------

  /** An absent field and a null leave the zero value. */
  predicate IsAbsent(j: Option<Json>) {
    j == None || j == Some(Null)
  }

  predicate FitsString(j: Option<Json>) {
    IsAbsent(j) || j.value.Str?
  }

  predicate FitsBool(j: Option<Json>) {
    IsAbsent(j) || j.value.Bool?
  }

  predicate FitsInt(j: Option<Json>) {
    IsAbsent(j) || (j.value.Num? && Atoi(j.value.literal).Some?)
  }

  predicate FitsReal(x: Scalars, j: Option<Json>) {
    IsAbsent(j) || (j.value.Num? && x.readReal(j.value.literal).Some?)
  }

  predicate FitsTime(x: Scalars, j: Option<Json>) {
    IsAbsent(j) || (j.value.Str? && x.readTime(j.value.s).Some?)
  }

  predicate FitsStrings(j: Option<Json>) {
    IsAbsent(j)
    || (j.value.Arr? && forall item :: item in j.value.items ==> item.Str? || item.Null?)
  }

  function StringAt(j: Option<Json>): Option<string> {
    if j.Some? && j.value.Str? then Some(j.value.s) else None
  }

  function BoolAt(j: Option<Json>): bool {
    j == Some(Bool(true))
  }

  function IntAt(j: Option<Json>): Option<int> {
    if j.Some? && j.value.Num? then Atoi(j.value.literal) else None
  }

  function RealAt(x: Scalars, j: Option<Json>): Option<real> {
    if j.Some? && j.value.Num? then x.readReal(j.value.literal) else None
  }

  /** The zero instant counts as no instant. */
  function TimeAt(x: Scalars, j: Option<Json>): Option<Time> {
    if j.Some? && j.value.Str? && x.readTime(j.value.s) != Some(0) then x.readTime(j.value.s) else None
  }

  function ItemsAt(j: Option<Json>): seq<Json> {
    if j.Some? && j.value.Arr? then j.value.items else []
  }

  /** A null among strings is the empty string. */
  predicate AreStrings(items: seq<Json>, xs: seq<string>) {
    |xs| == |items| && forall i :: 0 <= i < |items| ==> xs[i] == if items[i].Str? then items[i].s else ""
  }

  lemma {:induction false} StringsAreDecoded(items: seq<Json>)
    ensures ReadStrings(items).Ok? <==> forall item :: item in items ==> item.Str? || item.Null?
    ensures ReadStrings(items).Ok? ==> AreStrings(items, ReadStrings(items).value)
  {
    if items != [] {
      StringsAreDecoded(items[1..]);
      assert items == [items[0]] + items[1..];
    }
  }

  lemma StringsAreGot(fields: seq<Field>)
    ensures forall key :: GetString(fields, key).Ok? <==> FitsString(Lookup(fields, key))
    ensures forall key :: GetString(fields, key).Ok? ==> GetString(fields, key).value == StringAt(Lookup(fields, key))
    ensures forall key :: GetBool(fields, key).Ok? <==> FitsBool(Lookup(fields, key))
    ensures forall key :: GetBool(fields, key).Ok? ==> GetBool(fields, key).value == BoolAt(Lookup(fields, key))
  {
    hide Lookup;
  }

  lemma NumbersAreGot(x: Scalars, fields: seq<Field>)
    ensures forall key :: GetInt(fields, key).Ok? ==> GetInt(fields, key).value == IntAt(Lookup(fields, key))
    ensures forall key :: GetReal(x, fields, key).Ok? <==> FitsReal(x, Lookup(fields, key))
    ensures forall key :: GetReal(x, fields, key).Ok? ==>
                            GetReal(x, fields, key).value == RealAt(x, Lookup(fields, key))
  {
    hide Lookup, Atoi;
  }

  lemma TimesAreGot(x: Scalars, fields: seq<Field>)
    ensures forall key :: GetTime(x, fields, key).Ok? <==> FitsTime(x, Lookup(fields, key))
    ensures forall key :: GetTime(x, fields, key).Ok? ==>
                            GetTime(x, fields, key).value == TimeAt(x, Lookup(fields, key))
  {
    hide Lookup;
  }

  lemma ItemsAreGot(fields: seq<Field>)
    ensures forall key :: GetItems(fields, key).Ok? ==> GetItems(fields, key).value == ItemsAt(Lookup(fields, key))
  {
    hide Lookup;
  }

  lemma VotesAreGot(fields: seq<Field>, key: string)
    ensures GetVotes(fields, key).Ok? <==> FitsStrings(Lookup(fields, key))
    ensures GetVotes(fields, key).Ok? ==> AreStrings(ItemsAt(Lookup(fields, key)), GetVotes(fields, key).value)
  {
    StringsAreDecoded(ItemsAt(Lookup(fields, key)));
    hide Lookup, ReadStrings, AreStrings;
  }

  /** The fields of an object; a null has none. */
  function FieldsOf(j: Json): Option<seq<Field>> {
    match j
    case Obj(fields) => Some(fields)
    case Null => Some([])
    case _ => None
  }

  /** Any document of a client: refused exactly for a field of the wrong type, else read field by field. */
  lemma ClientIsDecoded(x: Scalars, j: Json)
    ensures ReadClient(x, j).Ok? <==>
              && FieldsOf(j).Some?
              && var fields := FieldsOf(j).value;
                 && FitsString(Lookup(fields, "id")) && FitsString(Lookup(fields, "name"))
                 && FitsString(Lookup(fields, "currentVote")) && FitsBool(Lookup(fields, "hasVoted"))
                 && FitsTime(x, Lookup(fields, "votedAt")) && FitsBool(Lookup(fields, "isSpectator"))
                 && FitsBool(Lookup(fields, "isOwner"))
    ensures ReadClient(x, j).Ok? ==>
              var fields, c := FieldsOf(j).value, ReadClient(x, j).value;
              && c.id == OrElse(StringAt(Lookup(fields, "id")), "")
              && c.name == OrElse(StringAt(Lookup(fields, "name")), "")
              && c.vote == StringAt(Lookup(fields, "currentVote"))
              && c.hasVoted == BoolAt(Lookup(fields, "hasVoted"))
              && c.votedAt == TimeAt(x, Lookup(fields, "votedAt"))
              && c.spectator == BoolAt(Lookup(fields, "isSpectator"))
              && c.owner == BoolAt(Lookup(fields, "isOwner"))
  {
    hide Lookup, GetString, GetBool, GetTime, FitsString, FitsBool, FitsTime, StringAt, BoolAt, TimeAt;
    if FieldsOf(j).Some? {
      StringsAreGot(FieldsOf(j).value);
      TimesAreGot(x, FieldsOf(j).value);
    }
  }

  function OrElse<T>(o: Option<T>, default: T): T {
    if o.Some? then o.value else default
  }

  lemma StoryIsDecoded(x: Scalars, j: Json)
    ensures ReadStory(x, j).Ok? <==>
              && FieldsOf(j).Some?
              && var fields := FieldsOf(j).value;
                 && FitsString(Lookup(fields, "id")) && FitsString(Lookup(fields, "name"))
                 && FitsReal(x, Lookup(fields, "result")) && FitsStrings(Lookup(fields, "mostAppearingVotes"))
                 && FitsBool(Lookup(fields, "voted"))
    ensures ReadStory(x, j).Ok? ==>
              var fields, s := FieldsOf(j).value, ReadStory(x, j).value;
              && s.id == OrElse(StringAt(Lookup(fields, "id")), "")
              && s.name == OrElse(StringAt(Lookup(fields, "name")), "")
              && s.result == RealAt(x, Lookup(fields, "result"))
              && AreStrings(ItemsAt(Lookup(fields, "mostAppearingVotes")), s.mostAppearing)
              && s.voted == BoolAt(Lookup(fields, "voted"))
  {
    hide Lookup, GetString, GetBool, GetReal, GetVotes, FitsString, FitsBool, FitsReal, FitsStrings, StringAt, BoolAt,
         RealAt, AreStrings, ItemsAt;
    if FieldsOf(j).Some? {
      StringsAreGot(FieldsOf(j).value);
      NumbersAreGot(x, FieldsOf(j).value);
      VotesAreGot(FieldsOf(j).value, "mostAppearingVotes");
    }
  }

  lemma {:induction false} ClientsAreDecoded(x: Scalars, items: seq<Json>)
    ensures ReadClients(x, items).Ok? <==> forall item :: item in items ==> ReadClient(x, item).Ok?
    ensures ReadClients(x, items).Ok? ==>
              && |ReadClients(x, items).value| == |items|
              && forall i :: 0 <= i < |items| ==> ReadClient(x, items[i]) == Ok(ReadClients(x, items).value[i])
  {
    hide ReadClient;
    if items != [] {
      ClientsAreDecoded(x, items[1..]);
      assert items == [items[0]] + items[1..];
    }
  }

  lemma {:induction false} StoriesAreDecoded(x: Scalars, items: seq<Json>)
    ensures ReadStories(x, items).Ok? <==> forall item :: item in items ==> ReadStory(x, item).Ok?
    ensures ReadStories(x, items).Ok? ==>
              && |ReadStories(x, items).value| == |items|
              && forall i :: 0 <= i < |items| ==> ReadStory(x, items[i]) == Ok(ReadStories(x, items).value[i])
  {
    hide ReadStory;
    if items != [] {
      StoriesAreDecoded(x, items[1..]);
      assert items == [items[0]] + items[1..];
    }
  }

  predicate IsDecodedState(x: Scalars, fields: seq<Field>, r: RoomView) {
    && r.id == OrElse(StringAt(Lookup(fields, "id")), "")
    && r.startedAt == OrElse(TimeAt(x, Lookup(fields, "startedAt")), 0)
    && r.deckType == OrElse(StringAt(Lookup(fields, "deckType")), "")
    && r.currentStory == OrElse(StringAt(Lookup(fields, "currentStory")), "")
    && r.revealed == BoolAt(Lookup(fields, "reveal")) && r.backlog == BoolAt(Lookup(fields, "backlogMode"))
    && r.index == OrElse(IntAt(Lookup(fields, "currentStoryIndex")), 0)
    && r.version == OrElse(IntAt(Lookup(fields, "roomVersion")), 0) && r.events == []
  }

  predicate IsDecodedRoom(x: Scalars, fields: seq<Field>, r: RoomView) {
    && IsDecodedState(x, fields, r)
    && ReadClients(x, ItemsAt(Lookup(fields, "clients"))) == Ok(r.clients)
    && ReadStories(x, ItemsAt(Lookup(fields, "stories"))) == Ok(r.stories)
    && IsDecodedSummary(x, fields, r.summary)
  }

  /** Any document of a room that is read: every field is what stands under its key, or its zero value. */
  lemma RoomIsDecoded(x: Scalars, j: Json)
    requires DecodeRoom(x, j).Ok?
    ensures FieldsOf(j).Some? && IsDecodedRoom(x, FieldsOf(j).value, DecodeRoom(x, j).value)
  {
    StateIsDecoded(x, j);
    PartsAreDecoded(x, j);
    hide DecodeRoom, IsDecodedState, IsDecodedSummary, Lookup;
  }

  lemma StateIsDecoded(x: Scalars, j: Json)
    requires DecodeRoom(x, j).Ok?
    ensures FieldsOf(j).Some? && IsDecodedState(x, FieldsOf(j).value, DecodeRoom(x, j).value)
  {
    hide Lookup, ReadClients, ReadStories, ReadSummary, GetString, GetBool, GetInt, GetTime, GetItems,
         StringAt, BoolAt, IntAt, TimeAt, FitsString, FitsBool, FitsReal, FitsTime;
    var fields := FieldsOf(j).value;
    StringsAreGot(fields);
    NumbersAreGot(x, fields);
    TimesAreGot(x, fields);
  }

  lemma PartsAreDecoded(x: Scalars, j: Json)
    requires DecodeRoom(x, j).Ok?
    ensures FieldsOf(j).Some?
    ensures var fields, r := FieldsOf(j).value, DecodeRoom(x, j).value;
            && ReadClients(x, ItemsAt(Lookup(fields, "clients"))) == Ok(r.clients)
            && ReadStories(x, ItemsAt(Lookup(fields, "stories"))) == Ok(r.stories)
            && IsDecodedSummary(x, fields, r.summary)
  {
    hide Lookup, ReadClients, ReadStories, ReadSummary, IsDecodedSummary, GetString, GetBool, GetInt, GetTime,
         GetItems, ItemsAt;
    ItemsAreGot(FieldsOf(j).value);
    SummaryIsDecoded(x, FieldsOf(j).value);
  }

  predicate IsDecodedSummary(x: Scalars, fields: seq<Field>, s: Summary) {
    && s.result == RealAt(x, Lookup(fields, "result"))
    && AreStrings(ItemsAt(Lookup(fields, "mostAppearingVotes")), s.mostAppearing)
    && IsConsensus(if OrElse(StringAt(Lookup(fields, "consensus")), "") == "" then None
                   else Lookup(fields, "consensus"), s.consensus)
    && s.lowest == StringAt(Lookup(fields, "lowestVote")) && s.highest == StringAt(Lookup(fields, "highestVote"))
    && s.range == IntAt(Lookup(fields, "voteRange")) && s.spread == IntAt(Lookup(fields, "voteSpread"))
    && s.special == OrElse(IntAt(Lookup(fields, "specialVoteCount")), 0)
  }

  lemma SummaryIsDecoded(x: Scalars, fields: seq<Field>)
    ensures ReadSummary(x, fields).Ok? ==> IsDecodedSummary(x, fields, ReadSummary(x, fields).value)
  {
    StringsAreDecoded(ItemsAt(Lookup(fields, "mostAppearingVotes")));
    hide Lookup, ReadStrings, AreStrings;
  }

  // ---- reading string escapes ----------------------------------------------------------------

  function HexNumber(c: char): (n: Option<nat>)
    ensures n.Some? ==> n.value < 16
  {
    if '0' <= c <= '9' then Some(c as int - 48)
    else if 'a' <= c <= 'f' then Some(c as int - 87)
    else if 'A' <= c <= 'F' then Some(c as int - 55)
    else None
  }

  function FourHex(a: char, b: char, c: char, d: char): (n: Option<nat>)
    ensures n.Some? ==> n.value < 0x1_0000
  {
    var w, x, y, z := HexNumber(a), HexNumber(b), HexNumber(c), HexNumber(d);
    if w.Some? && x.Some? && y.Some? && z.Some?
    then Some(4096 * w.value + 256 * x.value + 16 * y.value + z.value) else None
  }

  /** What a reader makes of a backslash: eight short escapes, four hexadecimal digits, or nothing. */
  lemma EscapesAreRead(c: char, rest: string)
    ensures var r := ReadChar(['\\', c] + rest);
            && (c in "\"\\/bfnrt" ==> r.Some? && r.value.rest == rest)
            && (c !in "\"\\/bfnrtu" ==> r == None)
            && (c in "\"\\/" ==> r.value.value == c)
            && (c == 'b' ==> r.value.value == '\U{0008}') && (c == 'f' ==> r.value.value == '\U{000c}')
            && (c == 'n' ==> r.value.value == '\n') && (c == 'r' ==> r.value.value == '\r')
            && (c == 't' ==> r.value.value == '\t')
  {
    assert (['\\', c] + rest)[2..] == rest;
    hide Unhex4;
  }

  /** Half of a surrogate pair is replaced. */
  lemma HexEscapesAreRead(a: char, b: char, c: char, d: char, rest: string)
    ensures var r := ReadChar(['\\', 'u', a, b, c, d] + rest);
            var n := FourHex(a, b, c, d);
            if n.None? then r == None
            else
              && r.Some? && r.value.rest == rest
              && r.value.value == if 0xd800 <= n.value <= 0xdfff then '\U{fffd}' else n.value as char
  {
    var t := ['\\', 'u', a, b, c, d] + rest;
    assert t[2..6] == [a, b, c, d] && t[6..] == rest;
    FourHexDigits(a, b, c, d);
    hide Unhex4, FourHex;
  }

  lemma FourHexDigits(a: char, b: char, c: char, d: char)
    ensures Unhex4([a, b, c, d]) == FourHex(a, b, c, d)
  {
    SameHexDigit(a);
    SameHexDigit(b);
    SameHexDigit(c);
    SameHexDigit(d);
    hide HexValue, HexNumber;
  }

  lemma SameHexDigit(c: char)
    ensures HexValue(c) == HexNumber(c)
  {
  }
}
