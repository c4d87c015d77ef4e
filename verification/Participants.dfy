/** The participant list sent with every room state. Building it sorts the room's own client slice. */
module Participants {
  import opened Wrappers
  import opened RoomModel
  import opened Rooms

  /** Lexicographic comparison by code point. */
  predicate NameLeq(a: string, b: string) {
    if a == "" then true
    else if b == "" then false
    else if a[0] != b[0] then a[0] < b[0]
    else NameLeq(a[1..], b[1..])
  }

  lemma {:induction false} NameTotal(a: string, b: string)
    ensures NameLeq(a, b) || NameLeq(b, a)
  {
    if a != "" && b != "" && a[0] == b[0] {
      NameTotal(a[1..], b[1..]);
    }
  }

  lemma {:induction false} NameTransitive(a: string, b: string, c: string)
    requires NameLeq(a, b) && NameLeq(b, c)
    ensures NameLeq(a, c)
  {
    if a != "" && b != "" && c != "" && a[0] == b[0] == c[0] {
      NameTransitive(a[1..], b[1..], c[1..]);
    }
  }

  /** One is a prefix of the other, or the first characters that differ decide. */
  ghost predicate ComesFirst(a: string, b: string) {
    a <= b || exists i :: DifferAt(a, b, i) && a[i] < b[i]
  }

  predicate DifferAt(a: string, b: string, i: int) {
    0 <= i < |a| && i < |b| && a[..i] == b[..i] && a[i] != b[i]
  }

  lemma {:induction false} NameLeqIsLexicographic(a: string, b: string)
    ensures NameLeq(a, b) <==> ComesFirst(a, b)
  {
    if a != "" && b != "" {
      var a', b' := a[1..], b[1..];
      if a[0] != b[0] {
        assert DifferAt(a, b, 0);
        forall i | 0 < i <= |a| && i <= |b| ensures a[..i] != b[..i] {
          assert a[..i][0] == a[0] && b[..i][0] == b[0];
        }
      } else {
        NameLeqIsLexicographic(a', b');
        assert a == [a[0]] + a' && b == [b[0]] + b';
        forall i | DifferAt(a, b, i) ensures i > 0 && DifferAt(a', b', i - 1) {
          assert a'[..i - 1] == a[..i][1..] && b'[..i - 1] == b[..i][1..];
        }
        forall i | DifferAt(a', b', i) ensures DifferAt(a, b, i + 1) {
          assert a[..i + 1] == [a[0]] + a'[..i] && b[..i + 1] == [b[0]] + b'[..i];
        }
      }
    }
  }

  ghost predicate SortedByName(clients: seq<Client>)
    reads clients
  {
    forall i, j :: 0 <= i < j < |clients| ==> NameLeq(clients[i].name, clients[j].name)
  }

  /** Inserts a client before the first one with a greater name. */
  method InsertByName(clients: seq<Client>, c: Client) returns (r: seq<Client>)
    requires SortedByName(clients)
    ensures SortedByName(r) && multiset(r) == multiset(clients) + multiset{c}
  {
    var i := 0;
    while i < |clients| && NameLeq(clients[i].name, c.name)
      invariant 0 <= i <= |clients|
      invariant forall j :: 0 <= j < i ==> NameLeq(clients[j].name, c.name)
    {
      i := i + 1;
    }
    r := clients[..i] + [c] + clients[i..];
    assert clients == clients[..i] + clients[i..];
    forall j | i <= j < |clients|
      ensures NameLeq(c.name, clients[j].name)
    {
      NameTotal(c.name, clients[i].name);
      if i < j {
        NameTransitive(c.name, clients[i].name, clients[j].name);
      }
    }
  }

  lemma {:induction false} SameClientsSameViews(clients: seq<Client>, clients': seq<Client>)
    requires multiset(clients) == multiset(clients')
    ensures multiset(Views(clients)) == multiset(Views(clients'))
    decreases |clients'|
  {
    if clients' == [] {
      assert |multiset(clients)| == 0;
    } else {
      var init, c := clients'[..|clients'| - 1], clients'[|clients'| - 1];
      assert clients' == init + [c];
      assert c in multiset(clients');
      var i :| 0 <= i < |clients| && clients[i] == c;
      var rest := RemoveAt(clients, i);
      RemoveFromMultiset(clients, i);
      assert multiset(clients') == multiset(init) + multiset{c};
      CancelMultiset(multiset(rest), multiset(init), multiset{c});
      SameClientsSameViews(rest, init);
      assert Views(clients') == Views(init) + [c.View()];
      assert Views(rest) == RemoveAt(Views(clients), i);
      RemoveFromMultiset(Views(clients), i);
    }
  }

  lemma {:induction false} DifferentOnce(clients: seq<Client>, c: Client)
    requires Different(clients)
    ensures multiset(clients)[c] <= 1
  {
    if clients != [] {
      assert clients == [clients[0]] + clients[1..];
      DifferentOnce(clients[1..], c);
    }
  }

  lemma PermutationIsDifferent(clients: seq<Client>, clients': seq<Client>)
    requires Different(clients) && multiset(clients) == multiset(clients')
    ensures Different(clients')
  {
    forall i, j | 0 <= i < j < |clients'|
      ensures clients'[i] != clients'[j]
    {
      DifferentOnce(clients, clients'[i]);
      if clients'[i] == clients'[j] {
        CountTwice(clients', i, j);
      }
    }
  }

  /** Sorts the client slice in place and maps it. */
  method MapToParticipants(members: ClientCollection) returns (participants: seq<ClientView>)
    modifies members
    ensures multiset(members.clients) == multiset(old(members.clients))
    ensures SortedByName(members.clients)
    ensures participants == Views(members.clients)
    ensures multiset(participants) == multiset(old(Views(members.clients)))
  {
    ghost var before := members.clients;
    var sorted: seq<Client> := [];
    for i := 0 to |members.clients|
      invariant members.clients == before
      invariant SortedByName(sorted) && multiset(sorted) == multiset(before[..i])
    {
      assert before[..i + 1] == before[..i] + [before[i]];
      sorted := InsertByName(sorted, members.clients[i]);
    }
    assert before[..|before|] == before;
    SameClientsSameViews(before, sorted);
    members.clients := sorted;
    participants := Views(members.clients);
  }
}
