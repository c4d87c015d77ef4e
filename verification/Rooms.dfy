/**
 The mutable room aggregate. Every method changes the fields exactly as the function of the same name in RoomModel
 says.
 */
module Rooms {
  import opened Wrappers
  import opened Decks
  import opened Summaries
  import opened Voting
  import opened RoomModel

  class Client {
    const id: string
    var name: string
    var vote: Option<string>
    var hasVoted: bool
    var votedAt: Option<Time>
    var spectator: bool
    var owner: bool

    constructor (id: string)
      ensures View() == NewClient(id)
    {
      this.id := id;
      name, vote, hasVoted, votedAt, spectator, owner := "", None, false, None, false, false;
    }

    function View(): ClientView
      reads this
    {
      ClientView(id, name, vote, hasVoted, votedAt, spectator, owner)
    }

    method CastVote(vote: Option<string>, now: Time)
      modifies this
      ensures View() == ApplyVote(old(View()), vote, now)
    {
      this.vote := vote;
      if vote.Some? && vote.value != "" {
        hasVoted := true;
        votedAt := Some(now);
      } else {
        hasVoted := false;
        votedAt := None;
      }
    }

    method UpdateName(name: string)
      modifies this`name
      ensures View() == old(View()).(name := name)
    {
      this.name := name;
    }
  }

  function Views(clients: seq<Client>): (vs: seq<ClientView>)
    reads clients
    ensures |vs| == |clients|
    ensures forall i :: 0 <= i < |vs| ==> vs[i] == clients[i].View()
  {
    seq(|clients|, i requires 0 <= i < |clients| reads clients => clients[i].View())
  }

  ghost predicate Different(clients: seq<Client>) {
    forall i, j :: 0 <= i < j < |clients| ==> clients[i] != clients[j]
  }

  /** The clients whose view satisfies `p`, in order. */
  function Matching(clients: seq<Client>, p: ClientView -> bool): seq<Client>
    reads clients
  {
    if clients == [] then []
    else Matching(clients[..|clients| - 1], p)
         + if p(clients[|clients| - 1].View()) then [clients[|clients| - 1]] else []
  }

  /** The first matching client, read off the views. */
  function FirstIndex(views: seq<ClientView>, p: ClientView -> bool): (i: Option<nat>)
    ensures i.Some? ==> i.value < |views| && p(views[i.value]) && forall j :: 0 <= j < i.value ==> !p(views[j])
    ensures i.None? ==> forall j :: 0 <= j < |views| ==> !p(views[j])
  {
    if views == [] then None
    else
      match FirstIndex(views[..|views| - 1], p)
      case Some(i) => Some(i)
      case None => if p(views[|views| - 1]) then Some(|views| - 1) else None
  }

  lemma {:induction false} FirstMatch(clients: seq<Client>, p: ClientView -> bool)
    ensures match FirstIndex(Views(clients), p)
      case None => Matching(clients, p) == []
      case Some(i) => Matching(clients, p) != [] && Matching(clients, p)[0] == clients[i]
  {
    if clients != [] {
      FirstMatch(clients[..|clients| - 1], p);
      assert Views(clients)[..|clients| - 1] == Views(clients[..|clients| - 1]);
    }
  }

  const IS_OWNER: ClientView -> bool := (c: ClientView) => c.owner

  lemma {:induction false} OwnersMatch(clients: seq<Client>)
    ensures |Matching(clients, IS_OWNER)| == CountOwners(Views(clients))
  {
    if clients != [] {
      OwnersMatch(clients[..|clients| - 1]);
      assert Views(clients)[..|clients| - 1] == Views(clients[..|clients| - 1]);
    }
  }

  class ClientCollection {
    var clients: seq<Client>

    constructor ()
      ensures clients == []
    {
      clients := [];
    }

    method Add(client: Client)
      modifies this
      ensures clients == old(clients) + [client]
    {
      clients := clients + [client];
    }

    method Remove(clientId: string)
      modifies this
      ensures match IndexOf(Ids(old(Views(clients))), clientId)
        case None => clients == old(clients)
        case Some(i) => clients == RemoveAt(old(clients), i)
    {
      for i := 0 to |clients|
        invariant clients == old(clients)
        invariant clientId !in Ids(Views(clients))[..i]
      {
        if clients[i].id == clientId {
          assert Ids(Views(clients))[i] == clientId;
          clients := clients[..i] + clients[i + 1..];
          return;
        }
        assert Ids(Views(clients))[..i + 1] == Ids(Views(clients))[..i] + [clients[i].id];
      }
      assert Ids(Views(clients))[..|clients|] == Ids(Views(clients));
    }

    method Count() returns (n: nat)
      ensures n == |clients|
    {
      n := |clients|;
    }

    method First() returns (c: Client?)
      ensures c == if clients == [] then null else clients[0]
    {
      c := if |clients| == 0 then null else clients[0];
    }

    method Values() returns (cs: seq<Client>)
      ensures cs == clients
    {
      cs := clients;
    }

    method Filter(p: ClientView -> bool) returns (filtered: ClientCollection)
      ensures fresh(filtered) && filtered.clients == Matching(clients, p)
    {
      filtered := new ClientCollection();
      for i := 0 to |clients|
        invariant fresh(filtered) && filtered.clients == Matching(clients[..i], p)
      {
        assert clients[..i + 1][..i] == clients[..i];
        if p(clients[i].View()) {
          filtered.Add(clients[i]);
        }
      }
      assert clients[..|clients|] == clients;
    }
  }

  function HasId(id: string): ClientView -> bool {
    (c: ClientView) => c.id == id
  }

  lemma FirstById(views: seq<ClientView>, id: string)
    ensures FirstIndex(views, HasId(id)) == IndexOf(Ids(views), id)
  {
    var i, j := FirstIndex(views, HasId(id)), IndexOf(Ids(views), id);
    if j.Some? {
      assert HasId(id)(views[j.value]);
      assert forall k :: 0 <= k < j.value ==> Ids(views)[..j.value][k] == views[k].id;
    }
    if i.Some? {
      assert Ids(views)[i.value] == id;
    }
  }

  lemma {:induction false} FirstOwnerIndex(views: seq<ClientView>)
    ensures FirstOwner(views) == match FirstIndex(views, IS_OWNER) case None => None case Some(i) => Some(views[i])
  {
    var i := FirstIndex(views, IS_OWNER);
    if views != [] {
      FirstOwnerIndex(views[1..]);
      var k := FirstIndex(views[1..], IS_OWNER);
      if k.Some? {
        assert views[k.value + 1].owner;
      } else {
        assert forall j :: 0 < j < |views| ==> !IS_OWNER(views[1..][j - 1]) && views[1..][j - 1] == views[j];
      }
    }
  }

  class Room {
    const id: string
    const startedAt: Time
    const members: ClientCollection
    var deckType: string
    var currentStory: string
    var revealed: bool
    var result: Option<real>
    var mostAppearing: seq<string>
    var consensus: Consensus
    var lowest: Option<string>
    var highest: Option<string>
    var range: Option<int>
    var spread: Option<int>
    var special: nat
    var backlog: bool
    var stories: seq<Story>
    var index: int
    var version: nat
    var events: seq<Event>

    /** Everything the room's methods may change. */
    ghost function Footprint(): set<object>
      reads members
    {
      {this, members} + set c: Client | c in members.clients :: c as object
    }

    lemma ClientsInFootprint()
      ensures forall c :: c in members.clients ==> c in Footprint()
      ensures forall i :: 0 <= i < |members.clients| ==> members.clients[i] in Footprint()
    {
      forall i | 0 <= i < |members.clients|
        ensures members.clients[i] in Footprint()
      {
        assert members.clients[i] in members.clients;
      }
    }

    ghost predicate Valid()
      reads members
    {
      Different(members.clients)
    }

    ghost function SummaryView(): Summary
      reads this
    {
      Summary(result, mostAppearing, consensus, lowest, highest, range, spread, special)
    }

    /** None of the room's objects has changed. */
    twostate predicate Untouched()
      reads *
    {
      unchanged(this) && unchanged(members) && forall c :: c in old(members.clients) ==> unchanged(c)
    }

    twostate lemma UntouchedView()
      requires Untouched()
      ensures View() == old(View()) && Footprint() == old(Footprint()) && Valid() == old(Valid())
    {
      forall i | 0 <= i < |members.clients|
        ensures members.clients[i].View() == old(members.clients[i].View())
      {
        assert members.clients[i] in members.clients;
      }
      assert Views(members.clients) == old(Views(members.clients));
    }

    /** The value the room stands for. */
    ghost function View(): RoomView
      reads this, members, members.clients
    {
      RoomView(id, startedAt, Views(members.clients), deckType, currentStory, revealed, SummaryView(),
               backlog, stories, index, version, events)
    }

    constructor (id: string, members: ClientCollection, startedAt: Time, deckType: string)
      requires members.clients == []
      ensures this.members == members && Valid() && View() == NewRoom(id, deckType, startedAt)
    {
      this.id, this.members, this.startedAt, this.deckType := id, members, startedAt, deckType;
      currentStory, revealed, backlog := "", false, true;
      result, mostAppearing, consensus, lowest, highest := None, [], Unset, None, None;
      range, spread, special := None, None, 0;
      stories, index, version, events := [], 0, 0, [];
    }

    predicate IsEmpty()
      reads members
    {
      |members.clients| == 0
    }

    method PullEvents() returns (pulled: seq<Event>)
      modifies this`events
      ensures pulled == old(events) && View() == old(View()).(events := [])
    {
      pulled := events;
      events := [];
    }

    method RecordEvent(event: Event)
      modifies this`events
      ensures View() == old(View()).(events := old(events) + [event])
    {
      events := events + [event];
    }

    method FindClient(clientId: string) returns (c: Client?)
      ensures match RoomModel.FindClient(View(), clientId)
        case None => c == null
        case Some(i) => c == members.clients[i]
    {
      var filtered := members.Filter(HasId(clientId));
      FirstMatch(members.clients, HasId(clientId));
      FirstById(Views(members.clients), clientId);
      c := filtered.First();
    }

    method CountOwners() returns (n: nat)
      ensures n == RoomModel.CountOwners(View().clients)
    {
      var owners := members.Filter(IS_OWNER);
      OwnersMatch(members.clients);
      n := owners.Count();
    }

    /** The guard shared by the owner commands. */
    method CheckOwner(clientId: string) returns (e: Option<Error>)
      ensures e == OwnerError(View(), clientId)
    {
      var c := FindClient(clientId);
      if c == null {
        return Some(NotFound);
      }
      if !c.owner {
        return Some(Forbidden);
      }
      return None;
    }

    method CollectVotes() returns (metrics: Metrics)
      ensures Tallies(DeckOf(View()), metrics, Cast(View().clients))
    {
      hide Tallies, Cast, DeckForType, Estimates, Distinct;
      CastOfNobody();
      var deck := DeckForType(deckType);
      DeckCardsAreDistinct(deckType);
      NothingTallied(deck);
      metrics := NO_METRICS;
      ghost var views := Views(members.clients);
      assert views[..0] == [];
      for i := 0 to |members.clients|
        invariant Tallies(deck, metrics, Cast(views[..i]))
      {
        var c := members.clients[i];
        assert views[..i + 1] == views[..i] + [c.View()];
        CastUnfold(views[..i], c.View());
        if !c.spectator && c.vote.Some? && c.vote.value != "" {
          metrics := CountVote(deck, metrics, c.vote.value, Cast(views[..i]));
        } else {
          assert Cast(views[..i]) + multiset{} == Cast(views[..i]);
        }
      }
      assert views[..|views|] == views;
    }

    method StoreSummary()
      modifies this`result, this`mostAppearing, this`consensus, this`lowest, this`highest, this`range, this`spread,
          this`special
      ensures SummaryView() == SummaryOf(DeckOf(old(View())), Cast(old(View()).clients))
    {
      hide SummaryOf, Tallies, Cast, DeckForType, Estimates, Distinct;
      var deck := DeckForType(deckType);
      DeckCardsAreDistinct(deckType);
      var metrics := CollectVotes();
      var modes, s := Summarize(deck, metrics, Cast(View().clients));
      hide Views, View;
      mostAppearing := modes;
      result := if metrics.count > 0.0 then Some(metrics.sum / metrics.count) else None;
      consensus, lowest, highest, range, spread := s.consensus, s.lowest, s.highest, s.range, s.spread;
      special := metrics.specialCount;
    }

    method ClearConsensus()
      modifies this`result, this`mostAppearing, this`consensus, this`lowest, this`highest, this`range, this`spread,
          this`special
      ensures SummaryView() == CLEARED
    {
      result, mostAppearing, consensus, lowest, highest := None, [], Unset, None, None;
      range, spread, special := None, None, 0;
    }

    method SetReveal(show: bool, now: Time)
      modifies this
      ensures View() == if show then Reveal(old(View()), now) else Hide(old(View()))
    {
      if show && revealed {
        return;
      }
      if !show {
        revealed := false;
        ClearConsensus();
        return;
      }
      hide View;
      OpenVotes(now);
    }

    /** The reveal itself. */
    method OpenVotes(now: Time)
      requires !revealed
      modifies this
      ensures View() == Reveal(old(View()), now)
    {
      hide SummaryOf, Cast, DeckForType, Opened;
      NotRevealed();
      hide View;
      ghost var r := View();
      Show();
      ShowSummary();
      OpenedAgain(r, View().summary, now);
      AnnounceVotes(now);
    }

    method ShowSummary()
      modifies this`result, this`mostAppearing, this`consensus, this`lowest, this`highest, this`range, this`spread,
          this`special
      ensures View() == old(View()).(summary := SummaryOf(DeckOf(old(View())), Cast(old(View()).clients)))
    {
      hide SummaryOf, Cast, DeckOf, Views, SummaryView;
      StoreSummary();
    }

    lemma NotRevealed()
      ensures View().revealed == revealed
    {
    }

    method Show()
      modifies this`revealed
      ensures revealed && View() == old(View()).(revealed := true)
    {
      revealed := true;
    }

    /** Stamps the current story with the summary just stored and records the events of the reveal. */
    method AnnounceVotes(now: Time)
      requires revealed
      modifies this`stories, this`events
      ensures View() == Opened(old(View()), old(View()).summary, now)
    {
      hide Views;
      var estimated := StampStory();
      RecordEvent(VotesRevealed(result, consensus, now));
      if estimated != "" {
        RecordEvent(StoryEstimated(estimated, result, now));
      }
    }

    /** Stores the result on the current story and returns its ID. */
    method StampStory() returns (estimated: string)
      modifies this`stories
      ensures stories == if backlog && 0 <= index < |old(stories)|
                         then old(stories)[index := Estimate(old(stories)[index], SummaryView())] else old(stories)
      ensures estimated == if backlog && 0 <= index < |stories| then old(stories)[index].id else ""
    {
      estimated := "";
      if backlog && 0 <= index < |stories| {
        stories := stories[index := stories[index].(result := result, mostAppearing := mostAppearing, voted := true)];
        estimated := stories[index].id;
      }
    }

    /** The loop that clears every vote after a round is hidden. */
    method ClearVotes()
      requires Valid() && !revealed
      modifies members.clients
      ensures View() == old(View()).(clients := Unvoted(old(View()).clients))
    {
      ghost var before := Views(members.clients);
      for i := 0 to |members.clients|
        invariant forall j :: 0 <= j < i ==> members.clients[j].View() == ApplyVote(before[j], None, 0)
        invariant forall j :: i <= j < |members.clients| ==> members.clients[j].View() == before[j]
      {
        if !revealed {
          members.clients[i].CastVote(None, 0);
        }
      }
      assert Views(members.clients) == Unvoted(before);
    }

    method StartRound(now: Time)
      requires Valid()
      modifies this, members.clients
      ensures View() == NewRound(old(View()))
    {
      SetReveal(false, now);
      ClearVotes();
    }

    method CheckReveal(now: Time)
      modifies this
      ensures View() == RoomModel.CheckReveal(old(View()), now)
    {
      hide Reveal, SummaryOf;
      var active := true;
      for i := 0 to |members.clients|
        invariant active <==> forall c :: c in Views(members.clients)[..i] && !c.spectator ==> c.hasVoted
      {
        var c := members.clients[i];
        assert Views(members.clients)[..i + 1] == Views(members.clients)[..i] + [c.View()];
        if !c.spectator && !c.hasVoted {
          active := false;
        }
      }
      assert Views(members.clients)[..|members.clients|] == Views(members.clients);
      if active {
        SetReveal(true, now);
      }
    }

    // ---- commands ------------------------------------------------------------

    method NewClient(clientId: string) returns (c: Client)
      requires Valid()
      modifies members
      ensures Valid() && fresh(c) && c.id == clientId && members.clients == old(members.clients) + [c]
      ensures var r := old(View());
              View() == r.(clients := r.clients + [RoomModel.NewClient(clientId).(owner := r.clients == [])])
      ensures Views(members.clients)[..|members.clients| - 1] == old(Views(members.clients))
    {
      ghost var before := Views(members.clients);
      c := new Client(clientId);
      members.Add(c);
      if |members.clients| == 1 {
        c.owner := true;
      }
      assert Views(members.clients) == before + [RoomModel.NewClient(clientId).(owner := before == [])];
    }

    method RemoveMember(clientId: string)
      requires Valid()
      modifies members
      ensures Valid() && View() == old(View()).(clients := Without(old(View()), clientId))
      ensures forall i :: 0 <= i < |members.clients| ==> members.clients[i] in old(members.clients)
    {
      hide IndexOf;
      ghost var before := View();
      members.Remove(clientId);
      assert Views(members.clients) == Without(before, clientId);
    }

    /** With no owner left, the first client becomes one. */
    method PromoteFirst()
      requires Valid()
      modifies members.clients
      ensures View() == old(View()).(clients := Promote(old(View()).clients))
    {
      hide RoomModel.CountOwners;
      ghost var before := Views(members.clients);
      var owners := CountOwners();
      var count := members.Count();
      if owners == 0 && count > 0 {
        var first := members.First();
        if first != null {
          first.owner := true;
          assert Views(members.clients) == before[0 := before[0].(owner := true)];
        }
      }
    }

    method RemoveClient(clientId: string, now: Time) returns (e: Option<Error>)
      requires Valid()
      modifies this, members, members.clients
      ensures Valid() && Outcome(View(), e) == DoRemoveClient(old(View()), clientId, now)
      ensures forall i :: 0 <= i < |members.clients| ==> members.clients[i] in old(members.clients)
    {
      hide Promote, Without, Views, RoomModel.CheckReveal;
      RemoveMember(clientId);
      PromoteFirst();
      CheckReveal(now);
      e := None;
    }

    method Vote(clientId: string, vote: Option<string>, now: Time) returns (e: Option<Error>)
      requires Valid()
      modifies this, members.clients
      ensures Outcome(View(), e) == DoVote(old(View()), clientId, vote, now)
    {
      hide SummaryOf, Cast, DeckForType, IndexOf, RoomModel.CheckReveal;
      ghost var before := View();
      var c := FindClient(clientId);
      if c == null {
        return Some(NotFound);
      }
      if Filled(vote) && !HasCard(DeckForType(deckType), vote.value) {
        return Some(Validation);
      }
      if !revealed {
        c.CastVote(vote, now);
        ghost var i := RoomModel.FindClient(before, clientId).value;
        assert Views(members.clients) == before.clients[i := ApplyVote(before.clients[i], vote, now)];
        if Filled(vote) {
          RecordEvent(VoteCast(clientId, vote.value, now));
        }
        assert View() == RecordVote(before, i, vote, now);
      }
      CheckReveal(now);
      e := None;
    }

    method ToggleReveal(clientId: string, now: Time) returns (e: Option<Error>)
      requires Valid()
      modifies this
      ensures Outcome(View(), e) == DoToggleReveal(old(View()), clientId, now)
    {
      hide Reveal, Hide, OwnerError, Views;
      e := CheckOwner(clientId);
      if e.None? {
        SetReveal(!revealed, now);
      }
    }

    method ResetVoting(clientId: string, now: Time) returns (e: Option<Error>)
      requires Valid()
      modifies this, members.clients
      ensures Outcome(View(), e) == DoResetVoting(old(View()), clientId)
    {
      hide NewRound, OwnerError, Views;
      e := CheckOwner(clientId);
      if e.None? {
        StartRound(now);
      }
    }

    method ToggleSpectator(clientId: string, targetId: string, now: Time) returns (e: Option<Error>)
      requires Valid()
      modifies this, members.clients
      ensures Outcome(View(), e) == DoToggleSpectator(old(View()), clientId, targetId, now)
    {
      hide SummaryOf, Cast, IndexOf, RoomModel.CheckReveal, OwnerError;
      ghost var before := View();
      e := CheckOwner(clientId);
      if e.Some? {
        return;
      }
      var target := FindClient(targetId);
      if target == null {
        return Some(NotFound);
      }
      target.spectator := !target.spectator;
      if !revealed {
        target.CastVote(None, now);
      }
      ghost var i := RoomModel.FindClient(before, targetId).value;
      assert Views(members.clients) == before.clients[i := target.View()];
      CheckReveal(now);
    }

    /** Whether the only owner is the given client. */
    method LastOwnerIs(targetId: string) returns (last: bool)
      ensures last == IsLastOwner(View(), targetId)
    {
      var owners := members.Filter(IS_OWNER);
      OwnersMatch(members.clients);
      FirstMatch(members.clients, IS_OWNER);
      FirstOwnerIndex(Views(members.clients));
      last := false;
      if |owners.clients| == 1 {
        var first := owners.First();
        last := first != null && first.id == targetId && first.owner;
      }
    }

    method FlipOwnerOf(targetId: string, missing: Error) returns (e: Option<Error>)
      requires Valid()
      modifies members.clients
      ensures Outcome(View(), e) == FlipOwner(old(View()), targetId, missing)
    {
      hide IndexOf;
      ghost var before := View();
      var target := FindClient(targetId);
      if target == null {
        return Some(missing);
      }
      target.owner := !target.owner;
      ghost var i := RoomModel.FindClient(before, targetId).value;
      assert Views(members.clients) == before.clients[i := target.View()];
      e := None;
    }

    method ToggleOwner(clientId: string, targetId: string) returns (e: Option<Error>)
      requires Valid()
      modifies members.clients
      ensures Outcome(View(), e) == DoToggleOwner(old(View()), clientId, targetId)
    {
      hide OwnerError, IsLastOwner, FlipOwner, Views;
      e := CheckOwner(clientId);
      if e.Some? {
        return;
      }
      var last := LastOwnerIs(targetId);
      if !last {
        e := FlipOwnerOf(targetId, NotFound);
      }
    }

    method AdminToggleOwner(targetId: string) returns (e: Option<Error>)
      requires Valid()
      modifies members.clients
      ensures Outcome(View(), e) == DoAdminToggleOwner(old(View()), targetId)
    {
      hide IsLastOwner, FlipOwner, Views;
      var last := LastOwnerIs(targetId);
      if last {
        return Some(LastOwner);
      }
      e := FlipOwnerOf(targetId, ClientNotFound);
    }

    method UpdateClientName(clientId: string, name: string) returns (e: Option<Error>)
      requires Valid()
      modifies members.clients
      ensures Outcome(View(), e) == DoUpdateClientName(old(View()), clientId, name)
    {
      hide IndexOf;
      ghost var before := View();
      var c := FindClient(clientId);
      if c == null {
        return Some(NotFound);
      }
      c.UpdateName(name);
      ghost var i := RoomModel.FindClient(before, clientId).value;
      assert Views(members.clients) == before.clients[i := c.View()];
      e := None;
    }

    method ToggleBacklogMode(clientId: string, freshId: string) returns (e: Option<Error>)
      requires Valid()
      modifies this`backlog, this`stories, this`index, this`currentStory
      ensures Outcome(View(), e) == DoToggleBacklogMode(old(View()), clientId, freshId)
    {
      hide OwnerError, Views;
      e := CheckOwner(clientId);
      if e.Some? {
        return;
      }
      if !backlog {
        backlog := true;
        if currentStory != "" {
          stories := [Story(freshId, currentStory, None, [], false)];
          index := 0;
        }
      } else {
        backlog := false;
        var name := if 0 <= index < |stories| then stories[index].name else "";
        if name != "" {
          currentStory := name;
        }
        stories := [];
        index := 0;
      }
    }

    method AddStory(clientId: string, name: string, freshId: string) returns (e: Option<Error>)
      requires Valid()
      modifies this`backlog, this`stories, this`index
      ensures Outcome(View(), e) == DoAddStory(old(View()), clientId, name, freshId)
    {
      hide OwnerError, Views;
      e := CheckOwner(clientId);
      if e.Some? {
        return;
      }
      if !backlog {
        backlog := true;
      }
      stories := stories + [Story(freshId, name, None, [], false)];
      if |stories| == 1 {
        index := 0;
      }
    }

    method StoryIndexById(storyId: string) returns (i: int)
      ensures i == match IndexOf(StoryIds(stories), storyId) case None => -1 case Some(k) => k
    {
      for k := 0 to |stories|
        invariant storyId !in StoryIds(stories)[..k]
      {
        if stories[k].id == storyId {
          assert StoryIds(stories)[k] == storyId;
          return k;
        }
        assert StoryIds(stories)[..k + 1] == StoryIds(stories)[..k] + [stories[k].id];
      }
      assert StoryIds(stories)[..|stories|] == StoryIds(stories);
      return -1;
    }

    method RemoveStory(clientId: string, storyId: string, now: Time) returns (e: Option<Error>)
      requires Valid()
      modifies this, members.clients
      ensures Outcome(View(), e) == DoRemoveStory(old(View()), clientId, storyId)
    {
      hide OwnerError, Views, IndexOf, Unvoted;
      e := CheckOwner(clientId);
      if e.Some? {
        return;
      }
      if storyId == "" {
        return Some(Validation);
      }
      var i := StoryIndexById(storyId);
      if i == -1 {
        return Some(NotFound);
      }
      hide RemoveAt, View;
      if i == index {
        RemoveCurrentStory(now);
      } else {
        RemoveOtherStory(i);
      }
    }

    /** The current story goes: its successor, or its predecessor if it was last, becomes current in a new round. */
    method RemoveCurrentStory(now: Time)
      requires Valid() && 0 <= index < |stories|
      modifies this, members.clients
      ensures var r := old(View());
              View() == NewRound(r.(stories := RemoveAt(r.stories, r.index),
                                    index := if |r.stories| == 1 then 0
                                             else if r.index == |r.stories| - 1 then r.index - 1 else r.index))
    {
      hide Views, Unvoted;
      var i := index;
      assert |stories| == 1 ==> RemoveAt(stories, i) == [];
      if |stories| == 1 {
        index := 0;
        stories := [];
        StartRound(now);
        return;
      }
      if i == |stories| - 1 {
        index := index - 1;
      }
      StartRound(now);
      stories := stories[..i] + stories[i + 1..];
    }

    /** Another story goes: the index follows the current one. */
    method RemoveOtherStory(i: nat)
      requires i < |stories| && i != index
      modifies this`index, this`stories
      ensures var r := old(View());
              View() == r.(stories := RemoveAt(r.stories, i), index := if i < r.index then r.index - 1 else r.index)
    {
      if i < index {
        index := index - 1;
      }
      stories := stories[..i] + stories[i + 1..];
    }

    method SelectStory(clientId: string, storyId: string, now: Time) returns (e: Option<Error>)
      requires Valid()
      modifies this, members.clients
      ensures Outcome(View(), e) == DoSelectStory(old(View()), clientId, storyId, now)
    {
      hide OwnerError, Views, IndexOf, Unvoted;
      e := CheckOwner(clientId);
      if e.Some? {
        return;
      }
      if storyId == "" {
        return Some(Validation);
      }
      var i := StoryIndexById(storyId);
      if i == -1 {
        return Some(NotFound);
      }
      if i == index {
        return Some(Conflict);
      }
      if stories[i].voted {
        return Some(Conflict);
      }
      index := i;
      StartRound(now);
      RecordEvent(StorySelected(storyId, now));
    }

    method ReorderStory(clientId: string, storyId: string, target: int) returns (e: Option<Error>)
      requires Valid()
      modifies this`stories, this`index
      ensures Outcome(View(), e) == DoReorderStory(old(View()), clientId, storyId, target)
    {
      hide OwnerError, Views, IndexOf;
      e := CheckOwner(clientId);
      if e.Some? {
        return;
      }
      if storyId == "" {
        return Some(Validation);
      }
      if target < 0 || target >= |stories| {
        return Some(Validation);
      }
      var from := StoryIndexById(storyId);
      if from == -1 {
        return Some(NotFound);
      }
      if from == target {
        return;
      }
      hide Move, MovedIndex;
      MoveStory(from, target);
    }

    method MoveStory(from: nat, target: nat)
      requires from < |stories| && target < |stories|
      modifies this`stories, this`index
      ensures stories == Move(old(stories), from, target)
      ensures index == MovedIndex(stories, old(index), from, target,
                                  if 0 <= old(index) < |old(stories)| then old(stories)[old(index)].id else "")
    {
      hide IndexOf, MovedIndex;
      var currentId := if 0 <= index < |stories| then stories[index].id else "";
      var story := stories[from];
      stories := stories[..from] + stories[from + 1..];
      stories := stories[..target] + [story] + stories[target..];
      UpdateCurrentStoryIndex(from, target, currentId);
    }

    method UpdateCurrentStoryIndex(from: int, target: int, currentId: string)
      modifies this`index
      ensures index == MovedIndex(stories, old(index), from, target, currentId)
    {
      hide IndexOf;
      if currentId != "" {
        index := StoryIndexById(currentId);
        return;
      }
      if index == from {
        index := target;
        return;
      }
      if from < index {
        index := index - 1;
      }
      if target <= index {
        index := index + 1;
      }
    }

    method AdvanceToNextStory(clientId: string, now: Time) returns (e: Option<Error>)
      requires Valid()
      modifies this, members.clients
      ensures Outcome(View(), e) == DoAdvanceToNextStory(old(View()), clientId)
    {
      hide OwnerError, Views, Unvoted;
      e := CheckOwner(clientId);
      if e.None? && index < |stories| - 1 {
        index := index + 1;
        StartRound(now);
      }
    }

    method PrevStory(clientId: string, now: Time) returns (e: Option<Error>)
      requires Valid()
      modifies this, members.clients
      ensures Outcome(View(), e) == DoPrevStory(old(View()), clientId)
    {
      hide OwnerError, Views, Unvoted;
      e := CheckOwner(clientId);
      if e.None? && index > 0 {
        index := index - 1;
        StartRound(now);
      }
    }

    method SetCurrentStory(clientId: string, name: string) returns (e: Option<Error>)
      requires Valid()
      modifies this`stories, this`currentStory
      ensures Outcome(View(), e) == DoSetCurrentStory(old(View()), clientId, name)
    {
      hide OwnerError, Views;
      e := CheckOwner(clientId);
      if e.Some? {
        return;
      }
      if backlog && 0 <= index < |stories| {
        stories := stories[index := stories[index].(name := name)];
      } else {
        currentStory := name;
      }
    }

    /** Joining: an existing client is found again, otherwise a new one is added. */
    method Join(clientId: string) returns (c: Client)
      requires Valid()
      modifies members
      ensures Valid() && Outcome(View(), None) == DoJoin(old(View()), clientId)
      ensures c in members.clients && c.id == clientId
      ensures members.clients == old(members.clients) || (fresh(c) && members.clients == old(members.clients) + [c])
    {
      hide IndexOf, RoomModel.NewClient;
      var existing := FindClient(clientId);
      if existing != null {
        return existing;
      }
      c := NewClient(clientId);
    }

    /** At most one client more, at the end. */
    predicate GrewByOne(before: seq<Client>, after: seq<Client>) {
      before <= after && |after| <= |before| + 1
    }

    /** Runs one command on the room. */
    method Do(command: Command, now: Time) returns (e: Option<Error>)
      requires Valid()
      modifies Footprint()
      ensures Valid() && fresh(Footprint() - old(Footprint()))
      ensures Outcome(View(), e) == Apply(old(View()), command, now)
      ensures !ChangesMembers(command) ==> Footprint() == old(Footprint())
      ensures command.Join? ==> GrewByOne(old(members.clients), members.clients)
      ensures command.RemoveClient? ==> forall c :: c in members.clients ==> c in old(members.clients)
    {
      hide DoJoin, DoRemoveClient, DoVote, DoToggleReveal, DoResetVoting, DoToggleSpectator, DoToggleOwner,
             DoAdminToggleOwner,
           DoUpdateClientName, DoToggleBacklogMode, DoAddStory, DoRemoveStory, DoSelectStory, DoReorderStory,
           DoAdvanceToNextStory, DoPrevStory, DoSetCurrentStory, View;
      ClientsInFootprint();
      match command {
        case Join(c) => var _ := Join(c); e := None;
        case RemoveClient(c) => e := RemoveClient(c, now);
        case Vote(c, v) => e := Vote(c, v, now);
        case ToggleReveal(c) => e := ToggleReveal(c, now);
        case ResetVoting(c) => e := ResetVoting(c, now);
        case ToggleSpectator(c, t) => e := ToggleSpectator(c, t, now);
        case ToggleOwner(c, t) => e := ToggleOwner(c, t);
        case AdminToggleOwner(t) => e := AdminToggleOwner(t);
        case UpdateClientName(c, n) => e := UpdateClientName(c, n);
        case ToggleBacklogMode(c, f) => e := ToggleBacklogMode(c, f);
        case AddStory(c, n, f) => e := AddStory(c, n, f);
        case RemoveStory(c, s) => e := RemoveStory(c, s, now);
        case SelectStory(c, s) => e := SelectStory(c, s, now);
        case ReorderStory(c, s, i) => e := ReorderStory(c, s, i);
        case AdvanceToNextStory(c) => e := AdvanceToNextStory(c, now);
        case PrevStory(c) => e := PrevStory(c, now);
        case SetCurrentStory(c, n) => e := SetCurrentStory(c, n);
      }
    }
  }
}
