/**
 The room aggregate as a value, and every room command as a function of that
 value. Class `Rooms.Room` is proved to change its fields exactly this way.
 */
module RoomModel {
  import opened Wrappers
  import opened Decks
  import opened Summaries

  type Time = int

  datatype ClientView = ClientView(
    id: string,
    name: string,
    vote: Option<string>,
    hasVoted: bool,
    votedAt: Option<Time>,
    spectator: bool,
    owner: bool)

  datatype Story = Story(
    id: string,
    name: string,
    result: Option<real>,
    mostAppearing: seq<string>,
    voted: bool)

  datatype Event =
    | VoteCast(client: string, vote: string, at: Time)
    | VotesRevealed(result: Option<real>, consensus: Consensus, at: Time)
    | StorySelected(story: string, at: Time)
    | StoryEstimated(story: string, result: Option<real>, at: Time)

  datatype RoomView = RoomView(
    id: string,
    startedAt: Time,
    clients: seq<ClientView>,
    deckType: string,
    currentStory: string,
    revealed: bool,
    summary: Summary,
    backlog: bool,
    stories: seq<Story>,
    index: int,
    version: nat,
    events: seq<Event>)

  datatype Error = NotFound | Forbidden | Validation | Conflict | LastOwner | ClientNotFound

  /** A command's effect: the room it leaves behind and the error it reports, if any. */
  datatype Outcome = Outcome(room: RoomView, error: Option<Error>)

  /** `freshId` is the identifier generated for a story the command creates. */
  datatype Command =
    | Join(client: string)
    | RemoveClient(client: string)
    | Vote(client: string, vote: Option<string>)
    | ToggleReveal(client: string)
    | ResetVoting(client: string)
    | ToggleSpectator(client: string, target: string)
    | ToggleOwner(client: string, target: string)
    | AdminToggleOwner(target: string)
    | UpdateClientName(client: string, name: string)
    | ToggleBacklogMode(client: string, freshId: string)
    | AddStory(client: string, name: string, freshId: string)
    | RemoveStory(client: string, story: string)
    | SelectStory(client: string, story: string)
    | ReorderStory(client: string, story: string, targetIndex: int)
    | AdvanceToNextStory(client: string)
    | PrevStory(client: string)
    | SetCurrentStory(client: string, name: string)

  predicate ChangesMembers(command: Command) {
    command.Join? || command.RemoveClient?
  }

  // ---- clients ------------------------------------------------------------

  function Ids(clients: seq<ClientView>): (ids: seq<string>)
    ensures |ids| == |clients| && forall i :: 0 <= i < |ids| ==> ids[i] == clients[i].id
  {
    seq(|clients|, i requires 0 <= i < |clients| => clients[i].id)
  }

  /** A stored story without an ID makes a room unreadable. */
  predicate StoriesHaveIds(stories: seq<Story>) {
    forall s :: s in stories ==> s.id != ""
  }

  function StoryIds(stories: seq<Story>): (ids: seq<string>)
    ensures |ids| == |stories| && forall i :: 0 <= i < |ids| ==> ids[i] == stories[i].id
  {
    seq(|stories|, i requires 0 <= i < |stories| => stories[i].id)
  }

  function FindClient(r: RoomView, id: string): (i: Option<nat>)
    ensures i.Some? ==> i.value < |r.clients| && r.clients[i.value].id == id
    ensures i.None? ==> forall c :: c in r.clients ==> c.id != id
  {
    IndexOf(Ids(r.clients), id)
  }

  function CountOwners(clients: seq<ClientView>): nat {
    if clients == [] then 0
    else CountOwners(clients[..|clients| - 1]) + (if clients[|clients| - 1].owner then 1 else 0)
  }

  function FirstOwner(clients: seq<ClientView>): Option<ClientView> {
    if clients == [] then None
    else if clients[0].owner then Some(clients[0])
    else FirstOwner(clients[1..])
  }

  function NewClient(id: string): ClientView {
    ClientView(id, "", None, false, None, false, false)
  }

  function Filled(vote: Option<string>): bool {
    vote.Some? && vote.value != ""
  }

  function ApplyVote(c: ClientView, vote: Option<string>, now: Time): ClientView {
    c.(vote := vote, hasVoted := Filled(vote), votedAt := if Filled(vote) then Some(now) else None)
  }

  /** What one client contributes to a reveal: its non-empty vote, unless it is a spectator. */
  function Ballot(c: ClientView): multiset<string> {
    if !c.spectator && Filled(c.vote) then multiset{c.vote.value} else multiset{}
  }

  /** The votes a reveal counts. */
  function Cast(clients: seq<ClientView>): multiset<string> {
    if clients == [] then multiset{}
    else Cast(clients[..|clients| - 1]) + Ballot(clients[|clients| - 1])
  }

  lemma CastOfNobody()
    ensures Cast([]) == multiset{}
  {
  }

  lemma CastUnfold(clients: seq<ClientView>, c: ClientView)
    ensures Cast(clients + [c]) == Cast(clients) + Ballot(c)
  {
    assert (clients + [c])[..|clients|] == clients;
  }

  predicate AllVoted(clients: seq<ClientView>) {
    forall c :: c in clients && !c.spectator ==> c.hasVoted
  }

  // ---- voting rounds --------------------------------------------------------

  function DeckOf(r: RoomView): Deck {
    DeckForType(r.deckType)
  }

  predicate HasCurrentStory(r: RoomView) {
    0 <= r.index < |r.stories|
  }

  function Estimate(s: Story, summary: Summary): Story {
    s.(result := summary.result, mostAppearing := summary.mostAppearing, voted := true)
  }

  /** The room with this summary shown, stored on the current story and announced. */
  function Opened(r: RoomView, summary: Summary, now: Time): RoomView {
    var event := VotesRevealed(summary.result, summary.consensus, now);
    var estimating := r.backlog && HasCurrentStory(r);
    var named := estimating && r.stories[r.index].id != "";
    r.(revealed := true,
       summary := summary,
       stories := if estimating then r.stories[r.index := Estimate(r.stories[r.index], summary)] else r.stories,
       events := r.events + [event]
               + if named then [StoryEstimated(r.stories[r.index].id, summary.result, now)] else [])
  }

  lemma OpenedAgain(r: RoomView, summary: Summary, now: Time)
    ensures Opened(r.(revealed := true, summary := summary), summary, now) == Opened(r, summary, now)
  {
  }

  /** `reveal(true)`: nothing when already revealed. */
  function Reveal(r: RoomView, now: Time): RoomView {
    if r.revealed then r else Opened(r, SummaryOf(DeckOf(r), Cast(r.clients)), now)
  }

  /** `reveal(false)` */
  function Hide(r: RoomView): RoomView {
    r.(revealed := false, summary := CLEARED)
  }

  function Unvoted(clients: seq<ClientView>): (cs: seq<ClientView>)
    ensures |cs| == |clients|
  {
    seq(|clients|, i requires 0 <= i < |clients| => ApplyVote(clients[i], None, 0))
  }

  /** A new round: hidden, cleared summary, no votes. */
  function NewRound(r: RoomView): RoomView {
    Hide(r).(clients := Unvoted(r.clients))
  }

  function CheckReveal(r: RoomView, now: Time): RoomView {
    if AllVoted(r.clients) then Reveal(r, now) else r
  }

  // ---- guards ----------------------------------------------------------------

  function Fail(r: RoomView, e: Error): Outcome {
    Outcome(r, Some(e))
  }

  function Done(r: RoomView): Outcome {
    Outcome(r, None)
  }

  function OwnerError(r: RoomView, client: string): Option<Error> {
    match FindClient(r, client)
    case None => Some(NotFound)
    case Some(i) => if r.clients[i].owner then None else Some(Forbidden)
  }

  // ---- commands -----------------------------------------------------------------

  function DoJoin(r: RoomView, client: string): Outcome {
    if FindClient(r, client).Some? then Done(r)
    else Done(r.(clients := r.clients + [NewClient(client).(owner := r.clients == [])]))
  }

  function Without(r: RoomView, client: string): seq<ClientView> {
    match FindClient(r, client)
    case None => r.clients
    case Some(i) => RemoveAt(r.clients, i)
  }

  /** With no owner left, whoever comes first becomes one. */
  function Promote(kept: seq<ClientView>): seq<ClientView> {
    if CountOwners(kept) == 0 && kept != [] then kept[0 := kept[0].(owner := true)] else kept
  }

  function DoRemoveClient(r: RoomView, client: string, now: Time): Outcome {
    Done(CheckReveal(r.(clients := Promote(Without(r, client))), now))
  }

  function RecordVote(r: RoomView, i: nat, vote: Option<string>, now: Time): RoomView
    requires i < |r.clients|
  {
    r.(clients := r.clients[i := ApplyVote(r.clients[i], vote, now)],
       events := if Filled(vote) then r.events + [VoteCast(r.clients[i].id, vote.value, now)] else r.events)
  }

  function DoVote(r: RoomView, client: string, vote: Option<string>, now: Time): Outcome {
    match FindClient(r, client)
    case None => Fail(r, NotFound)
    case Some(i) =>
      if Filled(vote) && !HasCard(DeckOf(r), vote.value) then Fail(r, Validation)
      else
        Done(CheckReveal(if r.revealed then r else RecordVote(r, i, vote, now), now))
  }

  function DoToggleReveal(r: RoomView, client: string, now: Time): Outcome {
    match OwnerError(r, client)
    case Some(e) => Fail(r, e)
    case None => Done(if r.revealed then Hide(r) else Reveal(r, now))
  }

  function DoResetVoting(r: RoomView, client: string): Outcome {
    match OwnerError(r, client)
    case Some(e) => Fail(r, e)
    case None => Done(NewRound(r))
  }

  function DoToggleSpectator(r: RoomView, client: string, target: string, now: Time): Outcome {
    match OwnerError(r, client)
    case Some(e) => Fail(r, e)
    case None =>
      match FindClient(r, target)
      case None => Fail(r, NotFound)
      case Some(i) =>
        var toggled := r.clients[i].(spectator := !r.clients[i].spectator);
        var c := if r.revealed then toggled else ApplyVote(toggled, None, now);
        Done(CheckReveal(r.(clients := r.clients[i := c]), now))
  }

  function FlipOwner(r: RoomView, target: string, missing: Error): Outcome {
    match FindClient(r, target)
    case None => Fail(r, missing)
    case Some(i) => Done(r.(clients := r.clients[i := r.clients[i].(owner := !r.clients[i].owner)]))
  }

  predicate IsLastOwner(r: RoomView, target: string) {
    CountOwners(r.clients) == 1 && FirstOwner(r.clients).Some? && FirstOwner(r.clients).value.id == target
  }

  function DoToggleOwner(r: RoomView, client: string, target: string): Outcome {
    match OwnerError(r, client)
    case Some(e) => Fail(r, e)
    case None => if IsLastOwner(r, target) then Done(r) else FlipOwner(r, target, NotFound)
  }

  function DoAdminToggleOwner(r: RoomView, target: string): Outcome {
    if IsLastOwner(r, target) then Fail(r, LastOwner) else FlipOwner(r, target, ClientNotFound)
  }

  function DoUpdateClientName(r: RoomView, client: string, name: string): Outcome {
    match FindClient(r, client)
    case None => Fail(r, NotFound)
    case Some(i) => Done(r.(clients := r.clients[i := r.clients[i].(name := name)]))
  }

  function PendingStory(id: string, name: string): Story {
    Story(id, name, None, [], false)
  }

  function CurrentStoryName(r: RoomView): string {
    if HasCurrentStory(r) then r.stories[r.index].name else ""
  }

  function DoToggleBacklogMode(r: RoomView, client: string, freshId: string): Outcome {
    match OwnerError(r, client)
    case Some(e) => Fail(r, e)
    case None =>
      if !r.backlog then
        if r.currentStory != "" then
          Done(r.(backlog := true, stories := [PendingStory(freshId, r.currentStory)], index := 0))
        else Done(r.(backlog := true))
      else
        Done(r.(backlog := false,
                currentStory := if CurrentStoryName(r) != "" then CurrentStoryName(r) else r.currentStory,
                stories := [], index := 0))
  }

  function DoAddStory(r: RoomView, client: string, name: string, freshId: string): Outcome {
    match OwnerError(r, client)
    case Some(e) => Fail(r, e)
    case None =>
      Done(r.(backlog := true,
              stories := r.stories + [PendingStory(freshId, name)],
              index := if r.stories == [] then 0 else r.index))
  }

  function DoRemoveStory(r: RoomView, client: string, story: string): Outcome {
    match OwnerError(r, client)
    case Some(e) => Fail(r, e)
    case None =>
      if story == "" then Fail(r, Validation)
      else
        match IndexOf(StoryIds(r.stories), story)
        case None => Fail(r, NotFound)
        case Some(i) =>
          var kept := r.(stories := RemoveAt(r.stories, i));
          if i == r.index then
            if |r.stories| == 1 then Done(NewRound(kept.(index := 0)))
            else if i == |r.stories| - 1 then Done(NewRound(kept.(index := r.index - 1)))
            else Done(NewRound(kept))
          else if i < r.index then Done(kept.(index := r.index - 1))
          else Done(kept)
  }

  function DoSelectStory(r: RoomView, client: string, story: string, now: Time): Outcome {
    match OwnerError(r, client)
    case Some(e) => Fail(r, e)
    case None =>
      if story == "" then Fail(r, Validation)
      else
        match IndexOf(StoryIds(r.stories), story)
        case None => Fail(r, NotFound)
        case Some(i) =>
          if i == r.index then Fail(r, Conflict)
          else if r.stories[i].voted then Fail(r, Conflict)
          else Done(NewRound(r.(index := i, events := r.events + [StorySelected(story, now)])))
  }

  function CurrentStoryId(r: RoomView): string {
    if HasCurrentStory(r) then r.stories[r.index].id else ""
  }

  function Move(stories: seq<Story>, from: nat, to: nat): (moved: seq<Story>)
    requires from < |stories| && to < |stories|
    ensures |moved| == |stories|
  {
    InsertAt(RemoveAt(stories, from), to, stories[from])
  }

  /** The index arithmetic used when the current story has no ID to search for. */
  function ShiftedIndex(index: int, from: int, to: int): int {
    if index == from then to
    else
      var afterRemoval := if from < index then index - 1 else index;
      if to <= afterRemoval then afterRemoval + 1 else afterRemoval
  }

  function MovedIndex(stories: seq<Story>, index: int, from: int, to: int, currentId: string): int {
    if currentId != "" then
      match IndexOf(StoryIds(stories), currentId)
      case None => -1
      case Some(i) => i
    else ShiftedIndex(index, from, to)
  }

  function DoReorderStory(r: RoomView, client: string, story: string, target: int): Outcome {
    match OwnerError(r, client)
    case Some(e) => Fail(r, e)
    case None =>
      if story == "" then Fail(r, Validation)
      else if target < 0 || target >= |r.stories| then Fail(r, Validation)
      else
        match IndexOf(StoryIds(r.stories), story)
        case None => Fail(r, NotFound)
        case Some(from) =>
          if from == target then Done(r)
          else
            var moved := Move(r.stories, from, target);
            Done(r.(stories := moved, index := MovedIndex(moved, r.index, from, target, CurrentStoryId(r))))
  }

  function DoAdvanceToNextStory(r: RoomView, client: string): Outcome {
    match OwnerError(r, client)
    case Some(e) => Fail(r, e)
    case None => Done(if r.index < |r.stories| - 1 then NewRound(r.(index := r.index + 1)) else r)
  }

  function DoPrevStory(r: RoomView, client: string): Outcome {
    match OwnerError(r, client)
    case Some(e) => Fail(r, e)
    case None => Done(if r.index > 0 then NewRound(r.(index := r.index - 1)) else r)
  }

  function DoSetCurrentStory(r: RoomView, client: string, name: string): Outcome {
    match OwnerError(r, client)
    case Some(e) => Fail(r, e)
    case None =>
      if r.backlog && HasCurrentStory(r)
      then Done(r.(stories := r.stories[r.index := r.stories[r.index].(name := name)]))
      else Done(r.(currentStory := name))
  }

  function Apply(r: RoomView, command: Command, now: Time): Outcome {
    match command
    case Join(c) => DoJoin(r, c)
    case RemoveClient(c) => DoRemoveClient(r, c, now)
    case Vote(c, v) => DoVote(r, c, v, now)
    case ToggleReveal(c) => DoToggleReveal(r, c, now)
    case ResetVoting(c) => DoResetVoting(r, c)
    case ToggleSpectator(c, t) => DoToggleSpectator(r, c, t, now)
    case ToggleOwner(c, t) => DoToggleOwner(r, c, t)
    case AdminToggleOwner(t) => DoAdminToggleOwner(r, t)
    case UpdateClientName(c, n) => DoUpdateClientName(r, c, n)
    case ToggleBacklogMode(c, f) => DoToggleBacklogMode(r, c, f)
    case AddStory(c, n, f) => DoAddStory(r, c, n, f)
    case RemoveStory(c, s) => DoRemoveStory(r, c, s)
    case SelectStory(c, s) => DoSelectStory(r, c, s, now)
    case ReorderStory(c, s, i) => DoReorderStory(r, c, s, i)
    case AdvanceToNextStory(c) => DoAdvanceToNextStory(r, c)
    case PrevStory(c) => DoPrevStory(r, c)
    case SetCurrentStory(c, n) => DoSetCurrentStory(r, c, n)
  }

  /** A room as created: no clients, backlog mode on, version 0. */
  function NewRoom(id: string, deckType: string, startedAt: Time): RoomView {
    RoomView(id, startedAt, [], deckType, "", false, CLEARED, true, [], 0, 0, [])
  }

  // ---- what copies and stored forms keep ------------------------------------------

  /** The zero instant, which neither a copy nor the stored form of a room keeps. */
  const ZERO_TIME: Time := 0

  function StoredTime(t: Option<Time>): Option<Time> {
    if t == Some(ZERO_TIME) then None else t
  }

  function StoredClient(c: ClientView): ClientView {
    c.(votedAt := StoredTime(c.votedAt))
  }

  function StoredClients(clients: seq<ClientView>): seq<ClientView> {
    seq(|clients|, i requires 0 <= i < |clients| => StoredClient(clients[i]))
  }

  /** What a copy or the store keeps of a room: everything but the buffered events and zero instants. */
  function Stored(r: RoomView): RoomView {
    r.(clients := StoredClients(r.clients), events := [])
  }
}
