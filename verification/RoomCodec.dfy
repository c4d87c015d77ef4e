/** The stored form of a room: its JSON document, and the room read back from one. */
module RoomCodec {
  import opened Wrappers
  import opened Decks
  import opened Summaries
  import opened RoomModel
  import opened JsonText

  /** The host library's texts for floating-point numbers and instants, and its readers for them. */
  datatype Scalars = Scalars(
    realText: real -> string,
    readReal: string -> Option<real>,
    timeText: Time -> string,
    readTime: string -> Option<Time>)

  datatype DecodeError = Malformed | WrongType | StoryWithoutId

  // ---- objects with omitted fields ------------------------------------------------

  /** The fields of an object in declaration order; a value of `None` is omitted. */
  function Fields(keys: seq<string>, values: seq<Option<Json>>): seq<Field>
    requires |keys| == |values|
  {
    if keys == [] then []
    else
      var last := |keys| - 1;
      Fields(keys[..last], values[..last]) + if values[last].Some? then [Field(keys[last], values[last].value)] else []
  }

  function Lookup(fields: seq<Field>, key: string): Option<Json> {
    if fields == [] then None
    else
      var last := fields[|fields| - 1];
      if last.key == key then Some(last.value) else Lookup(fields[..|fields| - 1], key)
  }

  lemma LookupLast(init: seq<Field>, key: string, value: Option<Json>, sought: string)
    ensures var fields := init + if value.Some? then [Field(key, value.value)] else [];
            Lookup(fields, sought) == if value.Some? && key == sought then value else Lookup(init, sought)
  {
    if value.Some? {
      assert (init + [Field(key, value.value)])[..|init|] == init;
    } else {
      assert init + [] == init;
    }
  }

  lemma {:induction false} LookupAbsent(keys: seq<string>, values: seq<Option<Json>>, key: string)
    requires |keys| == |values| && key !in keys
    ensures Lookup(Fields(keys, values), key) == None
  {
    if keys != [] {
      var last := |keys| - 1;
      assert keys[last] in keys && forall k :: k in keys[..last] ==> k in keys;
      LookupAbsent(keys[..last], values[..last], key);
      LookupLast(Fields(keys[..last], values[..last]), keys[last], values[last], key);
    }
  }

  /** An object's field is found again under its key, and an omitted one is not found. */
  lemma {:induction false} LookupField(keys: seq<string>, values: seq<Option<Json>>, i: nat)
    requires |keys| == |values| && Distinct(keys) && i < |keys|
    ensures Lookup(Fields(keys, values), keys[i]) == values[i]
  {
    var last := |keys| - 1;
    LookupLast(Fields(keys[..last], values[..last]), keys[last], values[last], keys[i]);
    if i == last {
      assert keys[last] !in keys[..last];
      LookupAbsent(keys[..last], values[..last], keys[last]);
    } else {
      LookupField(keys[..last], values[..last], i);
    }
  }

  // ---- decimal literals --------------------------------------------------------------

  function Decimal(n: nat): (s: string)
    ensures s != ""
  {
    if n < 10 then ["0123456789"[n]] else Decimal(n / 10) + ["0123456789"[n % 10]]
  }

  function IntText(i: int): string {
    if i < 0 then "-" + Decimal(-i) else Decimal(i)
  }

  lemma {:induction false} DigitsAppend(s: string, c: char, acc: nat)
    requires Digit(c).Some? && Digits(s, acc).Some?
    ensures Digits(s + [c], acc) == Some(10 * Digits(s, acc).value + Digit(c).value)
  {
    if s == "" {
      assert s + [c] == [c] && Digits([c][1..], 10 * acc + Digit(c).value) == Some(10 * acc + Digit(c).value);
    } else {
      assert (s + [c])[1..] == s[1..] + [c];
      DigitsAppend(s[1..], c, 10 * acc + Digit(s[0]).value);
    }
  }

  lemma {:induction false} DecimalReads(n: nat)
    ensures Digits(Decimal(n), 0) == Some(n)
    ensures forall c :: c in Decimal(n) ==> '0' <= c <= '9'
  {
    if n < 10 {
      assert Digits(Decimal(n)[1..], n) == Some(n);
    } else {
      DecimalReads(n / 10);
      DigitsAppend(Decimal(n / 10), "0123456789"[n % 10], 0);
    }
  }

  lemma IntReads(i: int)
    ensures IsLiteral(IntText(i)) && Atoi(IntText(i)) == Some(i)
  {
    var n: nat := if i < 0 then -i else i;
    DecimalReads(n);
    var t := IntText(i);
    if i < 0 {
      assert t[1..] == Decimal(n);
    } else {
      assert t[0] in t;
    }
  }

  // ---- writing --------------------------------------------------------------------------

  function Strings(xs: seq<string>): (items: seq<Json>)
    ensures |items| == |xs| && forall i :: 0 <= i < |items| ==> items[i] == Str(xs[i])
  {
    seq(|xs|, i requires 0 <= i < |xs| => Str(xs[i]))
  }

  /** A nil slice is written as null. */
  function VotesJson(votes: seq<string>): Json {
    if votes == [] then Null else Arr(Strings(votes))
  }

  function StringJson(s: Option<string>): Option<Json> {
    if s.Some? then Some(Str(s.value)) else None
  }

  function NonEmptyJson(s: string): Option<Json> {
    if s == "" then None else Some(Str(s))
  }

  function IntJson(i: int): Json {
    Num(IntText(i))
  }

  function OptionalIntJson(i: Option<int>): Option<Json> {
    if i.Some? then Some(IntJson(i.value)) else None
  }

  function RealJson(x: Scalars, r: Option<real>): Option<Json> {
    if r.Some? then Some(Num(x.realText(r.value))) else None
  }

  function TimeJson(x: Scalars, t: Option<Time>): Option<Json> {
    if t.Some? && t.value != ZERO_TIME then Some(Str(x.timeText(t.value))) else None
  }

  function ConsensusLabel(c: Consensus): string {
    match c
    case Unset => ""
    case Unavailable => "Unavailable"
    case Low => "Low"
    case Medium => "Medium"
    case High => "High"
  }

  const CLIENT_KEYS: seq<string> := ["id", "name", "currentVote", "hasVoted", "votedAt", "isSpectator", "isOwner"]

  const STORY_KEYS: seq<string> := ["id", "name", "result", "mostAppearingVotes", "voted"]

  const ROOM_KEYS: seq<string> := [
    "id", "startedAt", "clients", "deckType", "currentStory", "reveal", "result", "mostAppearingVotes", "consensus",
    "lowestVote", "highestVote", "voteRange", "voteSpread", "specialVoteCount", "backlogMode", "stories",
    "currentStoryIndex", "roomVersion"]

  function ClientValues(x: Scalars, c: ClientView): (values: seq<Option<Json>>)
    ensures |values| == |CLIENT_KEYS|
  {
    [Some(Str(c.id)), Some(Str(c.name)), StringJson(c.vote), Some(Bool(c.hasVoted)), TimeJson(x, c.votedAt),
     Some(Bool(c.spectator)), Some(Bool(c.owner))]
  }

  function ClientJson(x: Scalars, c: ClientView): Json {
    Obj(Fields(CLIENT_KEYS, ClientValues(x, c)))
  }

  function StoryValues(x: Scalars, s: Story): (values: seq<Option<Json>>)
    ensures |values| == |STORY_KEYS|
  {
    [NonEmptyJson(s.id), Some(Str(s.name)), RealJson(x, s.result), Some(VotesJson(s.mostAppearing)),
        Some(Bool(s.voted))]
  }

  function StoryJson(x: Scalars, s: Story): Json {
    Obj(Fields(STORY_KEYS, StoryValues(x, s)))
  }

  function ClientsJson(x: Scalars, clients: seq<ClientView>): (items: seq<Json>)
    ensures |items| == |clients| && forall i :: 0 <= i < |items| ==> items[i] == ClientJson(x, clients[i])
  {
    seq(|clients|, i requires 0 <= i < |clients| => ClientJson(x, clients[i]))
  }

  function StoriesJson(x: Scalars, stories: seq<Story>): (items: seq<Json>)
    ensures |items| == |stories| && forall i :: 0 <= i < |items| ==> items[i] == StoryJson(x, stories[i])
  {
    seq(|stories|, i requires 0 <= i < |stories| => StoryJson(x, stories[i]))
  }

  function RoomValues(x: Scalars, r: RoomView): (values: seq<Option<Json>>)
    ensures |values| == |ROOM_KEYS|
  {
    [Some(Str(r.id)), TimeJson(x, Some(r.startedAt)), Some(Arr(ClientsJson(x, r.clients))), NonEmptyJson(r.deckType),
     Some(Str(r.currentStory)), Some(Bool(r.revealed)), RealJson(x, r.summary.result),
     Some(VotesJson(r.summary.mostAppearing)), NonEmptyJson(ConsensusLabel(r.summary.consensus)),
     StringJson(r.summary.lowest), StringJson(r.summary.highest),
     OptionalIntJson(r.summary.range), OptionalIntJson(r.summary.spread),
     if r.summary.special == 0 then None else Some(IntJson(r.summary.special)),
     Some(Bool(r.backlog)), if r.stories == [] then None else Some(Arr(StoriesJson(x, r.stories))),
     Some(IntJson(r.index)), Some(IntJson(r.version))]
  }

  function RoomJson(x: Scalars, r: RoomView): Json {
    Obj(Fields(ROOM_KEYS, RoomValues(x, r)))
  }

  function SerializeRoom(x: Scalars, r: RoomView): string {
    Text(RoomJson(x, r))
  }

  // ---- reading -----------------------------------------------------------------------------

  type Decoded<T> = Result<T, DecodeError>

  /** An absent field and a null leave the zero value. */
  function GetString(fields: seq<Field>, key: string): Decoded<Option<string>> {
    match Lookup(fields, key)
    case None => Ok(None)
    case Some(Null) => Ok(None)
    case Some(Str(s)) => Ok(Some(s))
    case Some(_) => Err(WrongType)
  }

  function OrEmpty(s: Option<string>): string {
    if s.Some? then s.value else ""
  }

  function GetBool(fields: seq<Field>, key: string): Decoded<bool> {
    match Lookup(fields, key)
    case None => Ok(false)
    case Some(Null) => Ok(false)
    case Some(Bool(b)) => Ok(b)
    case Some(_) => Err(WrongType)
  }

  function GetInt(fields: seq<Field>, key: string): Decoded<Option<int>> {
    match Lookup(fields, key)
    case None => Ok(None)
    case Some(Null) => Ok(None)
    case Some(Num(literal)) =>
      (match Atoi(literal)
       case None => Err(WrongType)
       case Some(i) => Ok(Some(i)))
    case Some(_) => Err(WrongType)
  }

  function OrZero(i: Option<int>): int {
    if i.Some? then i.value else 0
  }

  function GetReal(x: Scalars, fields: seq<Field>, key: string): Decoded<Option<real>> {
    match Lookup(fields, key)
    case None => Ok(None)
    case Some(Null) => Ok(None)
    case Some(Num(literal)) =>
      (match x.readReal(literal)
       case None => Err(WrongType)
       case Some(r) => Ok(Some(r)))
    case Some(_) => Err(WrongType)
  }

  /** The zero instant counts as no instant. */
  function GetTime(x: Scalars, fields: seq<Field>, key: string): Decoded<Option<Time>> {
    match Lookup(fields, key)
    case None => Ok(None)
    case Some(Null) => Ok(None)
    case Some(Str(s)) =>
      (match x.readTime(s)
       case None => Err(WrongType)
       case Some(t) => Ok(if t == ZERO_TIME then None else Some(t)))
    case Some(_) => Err(WrongType)
  }

  function GetItems(fields: seq<Field>, key: string): Decoded<seq<Json>> {
    match Lookup(fields, key)
    case None => Ok([])
    case Some(Null) => Ok([])
    case Some(Arr(items)) => Ok(items)
    case Some(_) => Err(WrongType)
  }

  function AsObject(j: Json): Decoded<seq<Field>> {
    match j
    case Obj(fields) => Ok(fields)
    case Null => Ok([])
    case _ => Err(WrongType)
  }

  function ReadStrings(items: seq<Json>): Decoded<seq<string>> {
    if items == [] then Ok([])
    else
      var s :- (match items[0] case Str(s) => Ok(s) case Null => Ok("") case _ => Err(WrongType));
      var rest :- ReadStrings(items[1..]);
      Ok([s] + rest)
  }

  function GetVotes(fields: seq<Field>, key: string): Decoded<seq<string>> {
    var items :- GetItems(fields, key);
    ReadStrings(items)
  }

  function ReadConsensus(word: string): Decoded<Consensus> {
    if word == "" then Ok(Unset)
    else if word == "Unavailable" then Ok(Unavailable)
    else if word == "Low" then Ok(Low)
    else if word == "Medium" then Ok(Medium)
    else if word == "High" then Ok(High)
    else Err(WrongType)
  }

  function ReadClient(x: Scalars, j: Json): Decoded<ClientView> {
    var fields :- AsObject(j);
    var id :- GetString(fields, "id");
    var name :- GetString(fields, "name");
    var vote :- GetString(fields, "currentVote");
    var hasVoted :- GetBool(fields, "hasVoted");
    var votedAt :- GetTime(x, fields, "votedAt");
    var spectator :- GetBool(fields, "isSpectator");
    var owner :- GetBool(fields, "isOwner");
    Ok(ClientView(OrEmpty(id), OrEmpty(name), vote, hasVoted, votedAt, spectator, owner))
  }

  function ReadStory(x: Scalars, j: Json): Decoded<Story> {
    var fields :- AsObject(j);
    var id :- GetString(fields, "id");
    var name :- GetString(fields, "name");
    var result :- GetReal(x, fields, "result");
    var votes :- GetVotes(fields, "mostAppearingVotes");
    var voted :- GetBool(fields, "voted");
    Ok(Story(OrEmpty(id), OrEmpty(name), result, votes, voted))
  }

  function ReadClients(x: Scalars, items: seq<Json>): Decoded<seq<ClientView>> {
    if items == [] then Ok([])
    else
      var c :- ReadClient(x, items[0]);
      var rest :- ReadClients(x, items[1..]);
      Ok([c] + rest)
  }

  function ReadStories(x: Scalars, items: seq<Json>): Decoded<seq<Story>> {
    if items == [] then Ok([])
    else
      var s :- ReadStory(x, items[0]);
      var rest :- ReadStories(x, items[1..]);
      Ok([s] + rest)
  }

  function ReadSummary(x: Scalars, fields: seq<Field>): Decoded<Summary> {
    var result :- GetReal(x, fields, "result");
    var votes :- GetVotes(fields, "mostAppearingVotes");
    var word :- GetString(fields, "consensus");
    var consensus :- ReadConsensus(OrEmpty(word));
    var lowest :- GetString(fields, "lowestVote");
    var highest :- GetString(fields, "highestVote");
    var range :- GetInt(fields, "voteRange");
    var spread :- GetInt(fields, "voteSpread");
    var special :- GetInt(fields, "specialVoteCount");
    if OrZero(special) < 0 then Err(WrongType)
    else Ok(Summary(result, votes, consensus, lowest, highest, range, spread, OrZero(special)))
  }

  /** The document's fields, before the stories' IDs are checked. */
  function DecodeRoom(x: Scalars, j: Json): Decoded<RoomView> {
    var fields :- AsObject(j);
    var id :- GetString(fields, "id");
    var startedAt :- GetTime(x, fields, "startedAt");
    var clientItems :- GetItems(fields, "clients");
    var clients :- ReadClients(x, clientItems);
    var deckType :- GetString(fields, "deckType");
    var currentStory :- GetString(fields, "currentStory");
    var revealed :- GetBool(fields, "reveal");
    var summary :- ReadSummary(x, fields);
    var backlog :- GetBool(fields, "backlogMode");
    var storyItems :- GetItems(fields, "stories");
    var stories :- ReadStories(x, storyItems);
    var index :- GetInt(fields, "currentStoryIndex");
    var version :- GetInt(fields, "roomVersion");
    if OrZero(version) < 0 then Err(WrongType)
    else
      Ok(RoomView(OrEmpty(id), if startedAt.Some? then startedAt.value else ZERO_TIME, clients, OrEmpty(deckType),
                  OrEmpty(currentStory), revealed, summary, backlog, stories, OrZero(index), OrZero(version), []))
  }

  function ReadRoom(x: Scalars, j: Json): Decoded<RoomView> {
    var r :- DecodeRoom(x, j);
    if StoriesHaveIds(r.stories) then Ok(r) else Err(StoryWithoutId)
  }

  function DeserializeRoom(x: Scalars, text: string): Decoded<RoomView> {
    match Parse(text)
    case None => Err(Malformed)
    case Some(j) => ReadRoom(x, j)
  }

  // ---- reading undoes writing -----------------------------------------------------------

  /** Telling the keys apart by length and two letters. */
  function Signature(key: string): (int, char, char) {
    if |key| < 2 then (0, ' ', ' ') else if |key| == 2 then (2, key[0], ' ') else (|key|, key[0], key[2])
  }

  lemma DistinctBySignature(keys: seq<string>)
    requires forall i, j :: 0 <= i < j < |keys| ==> Signature(keys[i]) != Signature(keys[j])
    ensures Distinct(keys)
  {
  }

  lemma KeysAreDistinct()
    ensures Distinct(CLIENT_KEYS) && Distinct(STORY_KEYS) && Distinct(ROOM_KEYS)
  {
    DistinctBySignature(CLIENT_KEYS);
    DistinctBySignature(STORY_KEYS);
    DistinctBySignature(ROOM_KEYS);
  }

  // ---- documents are well-formed ----------------------------------------------------------

  ghost predicate AllOk(values: seq<Option<Json>>) {
    forall i :: 0 <= i < |values| && values[i].Some? ==> WellFormed(values[i].value)
  }

  lemma {:induction false} FieldsAreWellFormed(keys: seq<string>, values: seq<Option<Json>>)
    requires |keys| == |values| && AllOk(values)
    ensures WellFormed(Obj(Fields(keys, values)))
  {
    if keys != [] {
      var last := |keys| - 1;
      var init := Fields(keys[..last], values[..last]);
      FieldsAreWellFormed(keys[..last], values[..last]);
      assert WellFormed(Obj(init));
    }
  }

  ghost predicate RealSurvives(x: Scalars, r: Option<real>) {
    r.Some? ==> IsLiteral(x.realText(r.value)) && x.readReal(x.realText(r.value)) == Some(r.value)
  }

  ghost predicate TimeSurvives(x: Scalars, t: Option<Time>) {
    t.Some? && t.value != ZERO_TIME ==> x.readTime(x.timeText(t.value)) == Some(t.value)
  }

  /** The host library reads back the numbers and instants of this room. */
  ghost predicate ScalarsSurvive(x: Scalars, r: RoomView) {
    && RealSurvives(x, r.summary.result)
    && TimeSurvives(x, Some(r.startedAt))
    && (forall i :: 0 <= i < |r.clients| ==> TimeSurvives(x, r.clients[i].votedAt))
    && (forall i :: 0 <= i < |r.stories| ==> RealSurvives(x, r.stories[i].result))
  }

  lemma ClientIsWellFormed(x: Scalars, c: ClientView)
    ensures WellFormed(ClientJson(x, c))
  {
    FieldsAreWellFormed(CLIENT_KEYS, ClientValues(x, c));
  }

  lemma StoryIsWellFormed(x: Scalars, s: Story)
    requires RealSurvives(x, s.result)
    ensures WellFormed(StoryJson(x, s))
  {
    hide IsLiteral;
    FieldsAreWellFormed(STORY_KEYS, StoryValues(x, s));
  }

  lemma VotesAreWellFormed(votes: seq<string>)
    ensures WellFormed(VotesJson(votes))
  {
  }

  lemma RoomIsWellFormed(x: Scalars, r: RoomView)
    requires ScalarsSurvive(x, r)
    ensures WellFormed(RoomJson(x, r))
  {
    hide ClientJson, StoryJson, IntText, IsLiteral;
    forall i | 0 <= i < |r.clients| ensures WellFormed(ClientsJson(x, r.clients)[i]) {
      ClientIsWellFormed(x, r.clients[i]);
    }
    forall i | 0 <= i < |r.stories| ensures WellFormed(StoriesJson(x, r.stories)[i]) {
      StoryIsWellFormed(x, r.stories[i]);
    }
    forall i: int ensures IsLiteral(IntText(i)) {
      IntReads(i);
    }
    VotesAreWellFormed(r.summary.mostAppearing);
    assert WellFormed(Arr(ClientsJson(x, r.clients))) && WellFormed(Arr(StoriesJson(x, r.stories)));
    assert forall i: int :: WellFormed(IntJson(i));
    assert AllOk(RoomValues(x, r));
    FieldsAreWellFormed(ROOM_KEYS, RoomValues(x, r));
  }

  // ---- parts read back --------------------------------------------------------------------

  lemma ClientFieldsRead(x: Scalars, c: ClientView)
    ensures var fields := Fields(CLIENT_KEYS, ClientValues(x, c));
            && Lookup(fields, CLIENT_KEYS[0]) == Some(Str(c.id))
            && Lookup(fields, CLIENT_KEYS[1]) == Some(Str(c.name))
            && Lookup(fields, CLIENT_KEYS[2]) == StringJson(c.vote)
            && Lookup(fields, CLIENT_KEYS[3]) == Some(Bool(c.hasVoted))
            && Lookup(fields, CLIENT_KEYS[4]) == TimeJson(x, c.votedAt)
            && Lookup(fields, CLIENT_KEYS[5]) == Some(Bool(c.spectator))
            && Lookup(fields, CLIENT_KEYS[6]) == Some(Bool(c.owner))
  {
    hide Fields, Lookup, Distinct;
    KeysAreDistinct();
    forall i | 0 <= i < |CLIENT_KEYS|
      ensures Lookup(Fields(CLIENT_KEYS, ClientValues(x, c)), CLIENT_KEYS[i]) == ClientValues(x, c)[i]
    {
      LookupField(CLIENT_KEYS, ClientValues(x, c), i);
    }
  }

  lemma ClientReads(x: Scalars, c: ClientView)
    requires TimeSurvives(x, c.votedAt)
    ensures ReadClient(x, ClientJson(x, c)) == Ok(StoredClient(c))
  {
    ClientFieldsRead(x, c);
    hide Fields, Lookup;
  }

  lemma {:induction false} StringsRead(xs: seq<string>)
    ensures ReadStrings(Strings(xs)) == Ok(xs)
  {
    if xs != [] {
      assert Strings(xs)[1..] == Strings(xs[1..]);
      StringsRead(xs[1..]);
      assert [xs[0]] + xs[1..] == xs;
    }
  }

  lemma StoryReads(x: Scalars, s: Story)
    requires RealSurvives(x, s.result)
    ensures ReadStory(x, StoryJson(x, s)) == Ok(s)
  {
    hide Fields, Lookup, Distinct, IsLiteral, ReadStrings;
    KeysAreDistinct();
    StringsRead(s.mostAppearing);
    StringsRead([]);
    var fields := Fields(STORY_KEYS, StoryValues(x, s));
    forall i | 0 <= i < |STORY_KEYS|
      ensures Lookup(fields, STORY_KEYS[i]) == StoryValues(x, s)[i]
    {
      LookupField(STORY_KEYS, StoryValues(x, s), i);
    }
    assert Strings([]) == [];
    assert Lookup(fields, STORY_KEYS[0]) == NonEmptyJson(s.id);
    assert Lookup(fields, STORY_KEYS[1]) == Some(Str(s.name));
    assert Lookup(fields, STORY_KEYS[2]) == RealJson(x, s.result);
    assert Lookup(fields, STORY_KEYS[3]) == Some(VotesJson(s.mostAppearing));
    assert Lookup(fields, STORY_KEYS[4]) == Some(Bool(s.voted));
  }

  lemma {:induction false} ClientsRead(x: Scalars, clients: seq<ClientView>)
    requires forall i :: 0 <= i < |clients| ==> TimeSurvives(x, clients[i].votedAt)
    ensures ReadClients(x, ClientsJson(x, clients)) == Ok(StoredClients(clients))
  {
    hide ReadClient, ClientJson, TimeSurvives;
    if clients != [] {
      assert ClientsJson(x, clients)[1..] == ClientsJson(x, clients[1..]);
      ClientReads(x, clients[0]);
      ClientsRead(x, clients[1..]);
      assert [StoredClient(clients[0])] + StoredClients(clients[1..]) == StoredClients(clients);
    }
  }

  lemma {:induction false} StoriesRead(x: Scalars, stories: seq<Story>)
    requires forall i :: 0 <= i < |stories| ==> RealSurvives(x, stories[i].result)
    ensures ReadStories(x, StoriesJson(x, stories)) == Ok(stories)
  {
    hide ReadStory, StoryJson, RealSurvives;
    if stories != [] {
      assert StoriesJson(x, stories)[1..] == StoriesJson(x, stories[1..]);
      StoryReads(x, stories[0]);
      StoriesRead(x, stories[1..]);
      assert [stories[0]] + stories[1..] == stories;
    }
  }

  ghost predicate HoldsFields(fields: seq<Field>, keys: seq<string>, values: seq<Option<Json>>)
    requires |keys| == |values|
  {
    forall i :: 0 <= i < |keys| ==> Lookup(fields, keys[i]) == values[i]
  }

  lemma RoomFields(x: Scalars, r: RoomView)
    ensures HoldsFields(Fields(ROOM_KEYS, RoomValues(x, r)), ROOM_KEYS, RoomValues(x, r))
  {
    hide Fields, Lookup, Distinct, RoomValues;
    KeysAreDistinct();
    forall i | 0 <= i < |ROOM_KEYS|
      ensures Lookup(Fields(ROOM_KEYS, RoomValues(x, r)), ROOM_KEYS[i]) == RoomValues(x, r)[i]
    {
      LookupField(ROOM_KEYS, RoomValues(x, r), i);
    }
  }

  lemma StringGot(fields: seq<Field>, key: string, s: Option<string>)
    requires Lookup(fields, key) == StringJson(s)
    ensures GetString(fields, key) == Ok(s)
  {
  }

  lemma WordGot(fields: seq<Field>, key: string, s: string)
    requires Lookup(fields, key) == NonEmptyJson(s) || Lookup(fields, key) == Some(Str(s))
    ensures GetString(fields, key).Ok? && OrEmpty(GetString(fields, key).value) == s
  {
  }

  lemma IntGot(fields: seq<Field>, key: string, i: Option<int>)
    requires Lookup(fields, key) == OptionalIntJson(i)
    ensures GetInt(fields, key) == Ok(i)
  {
    if i.Some? { IntReads(i.value); }
  }

  lemma VotesGot(fields: seq<Field>, key: string, votes: seq<string>)
    requires Lookup(fields, key) == Some(VotesJson(votes))
    ensures GetVotes(fields, key) == Ok(votes)
  {
    StringsRead(votes);
  }

  lemma RealGot(x: Scalars, fields: seq<Field>, key: string, r: Option<real>)
    requires RealSurvives(x, r) && Lookup(fields, key) == RealJson(x, r)
    ensures GetReal(x, fields, key) == Ok(r)
  {
  }

  lemma ConsensusRead(c: Consensus)
    ensures ReadConsensus(ConsensusLabel(c)) == Ok(c)
  {
  }

  lemma SummaryReads(x: Scalars, r: RoomView, fields: seq<Field>)
    requires RealSurvives(x, r.summary.result)
    requires HoldsFields(fields, ROOM_KEYS, RoomValues(x, r))
    ensures ReadSummary(x, fields) == Ok(r.summary)
  {
    hide Lookup, RealSurvives, Strings, IntText, ClientsJson, StoriesJson, ConsensusLabel, ReadConsensus,
         VotesJson, RealJson, GetString, GetInt, GetReal, GetVotes, OrEmpty, StringJson, TimeJson;
    var s, special := r.summary, if r.summary.special == 0 then None else Some(r.summary.special as int);
    assert Lookup(fields, ROOM_KEYS[6]) == RealJson(x, s.result);
    assert Lookup(fields, ROOM_KEYS[7]) == Some(VotesJson(s.mostAppearing));
    assert Lookup(fields, ROOM_KEYS[8]) == NonEmptyJson(ConsensusLabel(s.consensus));
    assert Lookup(fields, ROOM_KEYS[9]) == StringJson(s.lowest);
    assert Lookup(fields, ROOM_KEYS[10]) == StringJson(s.highest);
    assert Lookup(fields, ROOM_KEYS[11]) == OptionalIntJson(s.range);
    assert Lookup(fields, ROOM_KEYS[12]) == OptionalIntJson(s.spread);
    assert Lookup(fields, ROOM_KEYS[13]) == OptionalIntJson(special);
    RealGot(x, fields, ROOM_KEYS[6], s.result);
    VotesGot(fields, ROOM_KEYS[7], s.mostAppearing);
    WordGot(fields, ROOM_KEYS[8], ConsensusLabel(s.consensus));
    ConsensusRead(s.consensus);
    StringGot(fields, ROOM_KEYS[9], s.lowest);
    StringGot(fields, ROOM_KEYS[10], s.highest);
    IntGot(fields, ROOM_KEYS[11], s.range);
    IntGot(fields, ROOM_KEYS[12], s.spread);
    IntGot(fields, ROOM_KEYS[13], special);
  }

  lemma ItemsGot(fields: seq<Field>, key: string, items: seq<Json>)
    requires Lookup(fields, key) == Some(Arr(items)) || (items == [] && Lookup(fields, key) == None)
    ensures GetItems(fields, key) == Ok(items)
  {
  }

  lemma TimeGot(x: Scalars, fields: seq<Field>, key: string, t: Time)
    requires TimeSurvives(x, Some(t)) && Lookup(fields, key) == TimeJson(x, Some(t))
    ensures GetTime(x, fields, key) == Ok(StoredTime(Some(t)))
  {
  }

  lemma BoolGot(fields: seq<Field>, key: string, b: bool)
    requires Lookup(fields, key) == Some(Bool(b))
    ensures GetBool(fields, key) == Ok(b)
  {
  }

  lemma RoomReads(x: Scalars, r: RoomView)
    requires ScalarsSurvive(x, r)
    ensures ReadRoom(x, RoomJson(x, r)) == if StoriesHaveIds(r.stories) then Ok(Stored(r)) else Err(StoryWithoutId)
  {
    hide Lookup, Fields, IntText, ClientsJson, StoriesJson, ReadSummary, ReadClients, ReadStories, StoriesHaveIds,
           StoredClients,
         VotesJson, StringJson, RealJson, ConsensusLabel, TimeJson, GetString, GetInt, GetBool, GetTime, GetItems,
             OrEmpty,
         TimeSurvives, RealSurvives;
    var fields, stories := Fields(ROOM_KEYS, RoomValues(x, r)), StoriesJson(x, r.stories);
    RoomFields(x, r);
    SummaryReads(x, r, fields);
    ClientsRead(x, r.clients);
    StoriesRead(x, r.stories);
    assert Lookup(fields, ROOM_KEYS[0]) == Some(Str(r.id));
    assert Lookup(fields, ROOM_KEYS[1]) == TimeJson(x, Some(r.startedAt));
    assert Lookup(fields, ROOM_KEYS[2]) == Some(Arr(ClientsJson(x, r.clients)));
    assert Lookup(fields, ROOM_KEYS[3]) == NonEmptyJson(r.deckType);
    assert Lookup(fields, ROOM_KEYS[4]) == Some(Str(r.currentStory));
    assert Lookup(fields, ROOM_KEYS[5]) == Some(Bool(r.revealed));
    assert Lookup(fields, ROOM_KEYS[14]) == Some(Bool(r.backlog));
    assert Lookup(fields, ROOM_KEYS[15]) == if r.stories == [] then None else Some(Arr(stories));
    assert Lookup(fields, ROOM_KEYS[16]) == OptionalIntJson(Some(r.index));
    assert Lookup(fields, ROOM_KEYS[17]) == OptionalIntJson(Some(r.version));
    WordGot(fields, ROOM_KEYS[0], r.id);
    TimeGot(x, fields, ROOM_KEYS[1], r.startedAt);
    ItemsGot(fields, ROOM_KEYS[2], ClientsJson(x, r.clients));
    WordGot(fields, ROOM_KEYS[3], r.deckType);
    WordGot(fields, ROOM_KEYS[4], r.currentStory);
    BoolGot(fields, ROOM_KEYS[5], r.revealed);
    BoolGot(fields, ROOM_KEYS[14], r.backlog);
    ItemsGot(fields, ROOM_KEYS[15], stories);
    IntGot(fields, ROOM_KEYS[16], Some(r.index));
    IntGot(fields, ROOM_KEYS[17], Some(r.version));
  }

  /** Main result: reading a stored room gives the room that was written, exactly when its stories have IDs. */
  lemma DeserializeUndoesSerialize(x: Scalars, r: RoomView)
    requires ScalarsSurvive(x, r)
    ensures DeserializeRoom(x, SerializeRoom(x, r)) == if StoriesHaveIds(r.stories) then Ok(Stored(r))
        else Err(StoryWithoutId)
  {
    hide ReadRoom, RoomJson, WellFormed, ScalarsSurvive;
    RoomIsWellFormed(x, r);
    ParseUndoesText(RoomJson(x, r));
    RoomReads(x, r);
  }

  /** The store loses nothing but the buffered events, unless a vote is dated at the zero instant. */
  lemma NothingElseIsLost(r: RoomView)
    ensures Stored(r) == r.(events := []) <==> forall c :: c in r.clients ==> c.votedAt != Some(ZERO_TIME)
  {
    if forall c :: c in r.clients ==> c.votedAt != Some(ZERO_TIME) {
      assert StoredClients(r.clients) == r.clients;
    } else {
      var c :| c in r.clients && c.votedAt == Some(ZERO_TIME);
      var i :| 0 <= i < |r.clients| && r.clients[i] == c;
      assert Stored(r).clients[i] != r.clients[i];
    }
  }
}
