/**
 The Redis hub's stored rooms as a class: rooms are loaded into fresh objects,
 changed by their own methods and written back through the scripts.
 */
module RedisStore {
  import opened Wrappers
  import opened Decks
  import opened Summaries
  import opened RoomModel
  import opened Rooms
  import opened JsonText
  import opened RoomCodec
  import opened SaveScripts
  import RoomInvariants
  import RoomProtocol

  // ---- serialization loops --------------------------------------------------------

  method SerializeClients(x: Scalars, members: ClientCollection) returns (items: seq<Json>)
    ensures items == ClientsJson(x, Views(members.clients))
  {
    items := [];
    for i := 0 to |members.clients|
      invariant |items| == i && forall j :: 0 <= j < i ==> items[j] == ClientJson(x, members.clients[j].View())
    {
      items := items + [ClientJson(x, members.clients[i].View())];
    }
  }

  method SerializeStories(x: Scalars, stories: seq<Story>) returns (items: seq<Json>)
    ensures items == StoriesJson(x, stories)
  {
    items := [];
    for i := 0 to |stories|
      invariant |items| == i && forall j :: 0 <= j < i ==> items[j] == StoryJson(x, stories[j])
    {
      items := items + [StoryJson(x, stories[i])];
    }
  }

  method Serialize(x: Scalars, room: Room, version: nat) returns (text: string)
    ensures text == SerializeRoom(x, room.View().(version := version))
  {
    var clients := SerializeClients(x, room.members);
    var stories := SerializeStories(x, room.stories);
    var values := [
      Some(Str(room.id)), TimeJson(x, Some(room.startedAt)), Some(Arr(clients)), NonEmptyJson(room.deckType),
      Some(Str(room.currentStory)), Some(Bool(room.revealed)), RealJson(x, room.result),
      Some(VotesJson(room.mostAppearing)), NonEmptyJson(ConsensusLabel(room.consensus)),
      StringJson(room.lowest), StringJson(room.highest), OptionalIntJson(room.range), OptionalIntJson(room.spread),
      if room.special == 0 then None else Some(IntJson(room.special)),
      Some(Bool(room.backlog)), if room.stories == [] then None else Some(Arr(stories)),
      Some(IntJson(room.index)), Some(IntJson(version))];
    assert values == RoomValues(x, room.View().(version := version));
    hide Fields, Text;
    text := Text(Obj(Fields(ROOM_KEYS, values)));
  }

  /** The check that stops at the first story without an ID. */
  method CheckStoryIds(stories: seq<Story>) returns (ok: bool)
    ensures ok <==> StoriesHaveIds(stories)
  {
    for i := 0 to |stories|
      invariant forall j :: 0 <= j < i ==> stories[j].id != ""
    {
      if stories[i].id == "" {
        return false;
      }
    }
    return true;
  }

  method FillClient(view: ClientView) returns (c: Client)
    ensures fresh(c) && c.View() == view
  {
    c := new Client(view.id);
    c.name := view.name;
    c.vote := view.vote;
    c.hasVoted := view.hasVoted;
    c.votedAt := view.votedAt;
    c.spectator := view.spectator;
    c.owner := view.owner;
  }

  method FillClients(views: seq<ClientView>, members: ClientCollection)
    requires members.clients == []
    modifies members
    ensures fresh(members.clients) && Different(members.clients) && Views(members.clients) == views
  {
    for i := 0 to |views|
      invariant fresh(members.clients) && Different(members.clients) && |members.clients| == i
      invariant forall j :: 0 <= j < i ==> members.clients[j].View() == views[j]
    {
      var c := FillClient(views[i]);
      members.Add(c);
    }
  }

  method FillSummary(summary: Summary, room: Room)
    modifies room`result, room`mostAppearing, room`consensus, room`lowest, room`highest, room`range, room`spread,
        room`special
    ensures room.SummaryView() == summary
  {
    room.result := summary.result;
    room.mostAppearing := summary.mostAppearing;
    room.consensus := summary.consensus;
    room.lowest := summary.lowest;
    room.highest := summary.highest;
    room.range := summary.range;
    room.spread := summary.spread;
    room.special := summary.special;
  }

  method FillFields(view: RoomView, room: Room)
    modifies room
    ensures room.deckType == view.deckType && room.currentStory == view.currentStory && room.revealed == view.revealed
    ensures room.SummaryView() == view.summary
    ensures room.backlog == view.backlog && room.stories == view.stories && room.index == view.index
    ensures room.version == view.version && room.events == old(room.events)
  {
    room.deckType := view.deckType;
    room.currentStory := view.currentStory;
    room.revealed := view.revealed;
    FillSummary(view.summary, room);
    room.backlog := view.backlog;
    room.stories := view.stories;
    room.index := view.index;
    room.version := view.version;
  }

  /** A new room object with every field of the value but its events. */
  method FillRoom(view: RoomView) returns (room: Room)
    ensures fresh(room) && fresh(room.Footprint()) && room.Valid() && room.id == view.id
    ensures room.View() == view.(events := [])
  {
    var members := new ClientCollection();
    room := new Room(view.id, members, view.startedAt, FIBONACCI.id);
    FillFields(view, room);
    FillClients(view.clients, members);
  }

  // ---- the store ------------------------------------------------------------------------

  /** What a use case reports. */
  datatype Answer = Succeeded | Refused(error: Error) | NoRoom | Unreadable | Stale | Failed

  /** A room the store gives back unchanged. */
  ghost predicate Storable(x: Scalars, r: RoomView) {
    && ScalarsSurvive(x, r)
    && StoriesHaveIds(r.stories)
    && (forall c :: c in r.clients ==> c.votedAt != Some(ZERO_TIME))
  }

  class RedisStore {
    const x: Scalars
    /** Room ID to text. */
    var texts: map<string, string>

    constructor (x: Scalars)
      ensures this.x == x && texts == map[]
    {
      this.x, texts := x, map[];
    }

    function Text(id: string): Option<string>
      reads this
    {
      if id in texts then Some(texts[id]) else None
    }

    /** The store holds this room, with no events, under its ID. */
    ghost predicate Holds(r: RoomView)
      reads this
    {
      Storable(x, r) && r.events == [] && Text(r.id) == Some(SerializeRoom(x, r))
    }

    /** A new room is stored at once, and from then on the store holds it. */
    method NewRoom(roomId: string, deckType: string, now: RoomModel.Time) returns (room: Room)
      modifies this
      ensures fresh(room) && room.Valid() && room.View() == RoomModel.NewRoom(roomId, deckType, now)
      ensures texts == old(texts)[roomId := SerializeRoom(x, room.View())]
      ensures ScalarsSurvive(x, room.View()) ==> Holds(room.View())
    {
      hide SerializeRoom, ScalarsSurvive;
      var members := new ClientCollection();
      room := new Room(roomId, members, now, deckType);
      SaveInitialRoom(room);
    }

    method SaveInitialRoom(room: Room)
      modifies this
      ensures texts == old(texts)[room.id := SerializeRoom(x, room.View())]
    {
      var text := Serialize(x, room, room.version);
      texts := texts[room.id := text];
    }

    method SaveRoom(room: Room) returns (ok: bool)
      modifies this, room`version
      ensures match SaveScript(old(Text(room.id)), SerializeRoom(x, old(room.View())))
              case None => !ok && texts == old(texts) && room.View() == old(room.View())
              case Some(s) =>
                && ok && texts == old(texts)[room.id := s.text]
                && room.View() == old(room.View()).(version := s.next)
    {
      hide SaveScript, SerializeRoom;
      var data := Serialize(x, room, room.version);
      var script := SaveScript(Text(room.id), data);
      ok := script.Some?;
      if ok {
        texts := texts[room.id := script.value.text];
        room.version := script.value.next;
      }
    }

    method SaveRoomIfVersion(room: Room, expected: Option<nat>) returns (ok: bool)
      modifies this, room`version
      ensures match SaveConditionally(x, old(Text(room.id)), old(room.View()), expected)
              case None => !ok && texts == old(texts) && room.View() == old(room.View())
              case Some(text) => ok && texts == old(texts)[room.id := text]
                                 && room.View() == old(room.View()).(version := expected.value + 1)
    {
      hide SerializeRoom, StoredVersion;
      if expected.None? {
        return false;
      }
      var data := Serialize(x, room, expected.value + 1);
      var compared := CompareAndSaveScript(Text(room.id), expected.value, data);
      ok := compared.Some? && compared.value.Replaced?;
      if ok {
        texts := texts[room.id := compared.value.text];
        room.version := expected.value + 1;
      }
    }

    method RemoveRoom(id: string)
      modifies this
      ensures texts == old(texts) - {id}
    {
      texts := texts - {id};
    }

    method LoadRoom(id: string) returns (room: Room?, answer: Answer)
      ensures match Text(id)
              case None => room == null && answer == NoRoom
              case Some(text) =>
                match DeserializeRoom(x, text)
                case Err(_) => room == null && answer == Unreadable
                case Ok(r) => room != null && fresh(room) && fresh(room.Footprint()) && room.Valid()
                              && room.View() == r.(events := [])
    {
      hide Parse, DecodeRoom, StoriesHaveIds;
      if id !in texts {
        return null, NoRoom;
      }
      var document := Parse(texts[id]);
      if document.None? {
        return null, Unreadable;
      }
      var r := DecodeRoom(x, document.value);
      if r.Err? {
        return null, Unreadable;
      }
      var ok := CheckStoryIds(r.value.stories);
      if !ok {
        return null, Unreadable;
      }
      room := FillRoom(r.value);
      answer := Succeeded;
    }

    /** A room the store holds comes back as it is. */
    lemma HeldRoomLoads(r: RoomView)
      requires Holds(r)
      ensures DeserializeRoom(x, texts[r.id]) == Ok(r)
    {
      hide DeserializeRoom, SerializeRoom, Stored, ScalarsSurvive, StoriesHaveIds;
      DeserializeUndoesSerialize(x, r);
      NothingElseIsLost(r);
    }

    /** Load, change and save whatever is stored, with nobody else writing in between. */
    method Unguarded(ghost r: RoomView, roomId: string, command: Command, now: RoomModel.Time) returns (answer: Answer)
      requires Holds(r) && r.id == roomId && r.version + 1 < TEN_14
      modifies this
      ensures var out := Apply(r, command, now);
              if out.error.Some? then answer == Refused(out.error.value) && texts == old(texts)
              else
                answer == Succeeded &&
                (ScalarsSurvive(x, out.room) ==>
                   var c := RoomProtocol.Commit(RoomProtocol.Job(command, RoomProtocol.Always), r, now);
                   texts == old(texts)[roomId := SerializeRoom(x, RoomProtocol.Committed(r, c))])
    {
      hide DeserializeRoom, SerializeRoom, SaveScript, Apply, ScalarsSurvive, StoriesHaveIds, Room.View, Room.Valid,
             Room.Footprint;
      HeldRoomLoads(r);
      var room, loaded := LoadRoom(roomId);
      var e := room.Do(command, now);
      if e.Some? {
        return Refused(e.value);
      }
      ghost var out := room.View();
      RoomInvariants.CommandsKeepIdentity(r, command, now);
      RoomId(room);
      var ok := SaveRoom(room);
      ScriptSaves(r, out);
      answer := if ok then Succeeded else Failed;
    }

    lemma RoomId(room: Room)
      ensures room.id == room.View().id
    {
    }

    lemma ScriptSaves(r: RoomView, out: RoomView)
      requires ScalarsSurvive(x, r) && r.version + 1 < TEN_14
      ensures var saved := SaveScript(Some(SerializeRoom(x, r)), SerializeRoom(x, out));
              saved.Some?
              && (ScalarsSurvive(x, out) ==>
                    saved.value.text == SerializeRoom(x, RoomProtocol.Written(out, r.version + 1)))
    {
      hide SerializeRoom, ScalarsSurvive, Gsub, LuaText, StoredVersion;
      VersionIsRead(x, r);
      if ScalarsSurvive(x, out) {
        SaveScriptWritesNextVersion(x, Some(r), out);
      }
    }

    /** Load, change and save if the stored version is the one the caller expects. */
    method Guarded(ghost r: RoomView, roomId: string, command: Command, expected: Option<nat>, now: RoomModel.Time)
      returns (answer: Answer)
      requires Holds(r) && r.id == roomId
      modifies this
      ensures var out := Apply(r, command, now);
              if out.error.Some? then answer == Refused(out.error.value) && texts == old(texts)
              else if expected.None? || Double(expected.value) != Double(r.version)
              then answer == Stale && texts == old(texts)
              else
                answer == Succeeded &&
                texts == old(texts)[roomId := SerializeRoom(x, RoomProtocol.Written(out.room, expected.value + 1))]
      ensures r.version <= TWO_53 && (expected.Some? ==> expected.value <= TWO_53) ==>
                var c := RoomProtocol.Commit(RoomProtocol.Job(command, RoomProtocol.IfVersion(expected)), r, now);
                (answer == Succeeded <==> Apply(r, command, now).error.None? && expected == Some(r.version))
                && texts == if answer == Succeeded
                            then old(texts)[roomId := SerializeRoom(x, RoomProtocol.Committed(r, c))] else old(texts)
    {
      hide DeserializeRoom, SerializeRoom, SaveConditionally, Apply, ScalarsSurvive, StoriesHaveIds, Double,
           Room.View, Room.Valid, Room.Footprint;
      if r.version <= TWO_53 && (expected.Some? ==> expected.value <= TWO_53) {
        SmallVersionsDiffer(r.version, expected);
      }
      HeldRoomLoads(r);
      var room, loaded := LoadRoom(roomId);
      var e := room.Do(command, now);
      if e.Some? {
        return Refused(e.value);
      }
      ghost var out := room.View();
      RoomInvariants.CommandsKeepIdentity(r, command, now);
      RoomId(room);
      var ok := SaveRoomIfVersion(room, expected);
      ConditionalSaveComparesDoubles(x, Some(r), out, expected);
      answer := if ok then Succeeded else Stale;
    }

    /** Up to 2^53 two versions are the same number only if they are equal. */
    lemma SmallVersionsDiffer(version: nat, expected: Option<nat>)
      requires version <= TWO_53 && (expected.Some? ==> expected.value <= TWO_53)
      ensures expected.Some? && Double(expected.value) == Double(version) <==> expected == Some(version)
    {
      hide Double;
      DoubleIsExactUpTo(version);
      if expected.Some? {
        DoubleIsExactUpTo(expected.value);
      }
    }

    /** `hub.RemoveClient`: a room nobody is left in is deleted. */
    method RemoveClient(ghost r: RoomView, clientId: string, roomId: string,
        now: RoomModel.Time) returns (answer: Answer)
      requires Holds(r) && r.id == roomId && r.version + 1 < TEN_14
      modifies this
      ensures var out := Apply(r, Command.RemoveClient(clientId), now).room;
              answer == Succeeded &&
              if out.clients == [] then texts == old(texts) - {roomId}
              else
                ScalarsSurvive(x, out) ==>
                  texts == old(texts)[roomId := SerializeRoom(x, RoomProtocol.Written(out, r.version + 1))]
    {
      hide DeserializeRoom, SerializeRoom, SaveScript, DoRemoveClient, ScalarsSurvive, StoriesHaveIds, Room.View,
             Room.Valid, Room.Footprint;
      HeldRoomLoads(r);
      var room, loaded := LoadRoom(roomId);
      var e := room.Do(Command.RemoveClient(clientId), now);
      RoomInvariants.CommandsKeepIdentity(r, Command.RemoveClient(clientId), now);
      ghost var out := room.View();
      RoomId(room);
      EmptyView(room);
      if room.IsEmpty() {
        RemoveRoom(roomId);
        return Succeeded;
      }
      var ok := SaveRoom(room);
      ScriptSaves(r, out);
      answer := if ok then Succeeded else Failed;
    }

    lemma EmptyView(room: Room)
      ensures room.IsEmpty() <==> room.View().clients == []
    {
    }
  }
}
