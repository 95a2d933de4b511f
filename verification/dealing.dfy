/** Decks of roles: what a team is dealt from its role definitions, and how often each role occurs in it. */
module Dealing {
  import opened Models
  import opened RoleConfig

  const PRESIDENT := Role("PRESIDENT", TeamBlue, false, true)
  const BOMBER := Role("BOMBER", TeamRed, false, true)
  const RED_SPY := Role("RED_SPY", TeamRed, true, false)
  const BLUE_SPY := Role("BLUE_SPY", TeamBlue, true, false)
  const RED_OPERATIVE := Role("RED_OPERATIVE", TeamRed, false, false)
  const BLUE_OPERATIVE := Role("BLUE_OPERATIVE", TeamBlue, false, false)

  function TeamOf(team: string): TeamColor {
    if team == RED then TeamRed else if team == BLUE then TeamBlue else if team == GREY then TeamGrey else NoTeam
  }

  function RoleFrom(d: RoleDef): Role {
    Role(d.id, TeamOf(d.team), d.kind == SPY, d.kind == LEADER)
  }

  // ----- which roles are in play -----

  /** The definitions with a positive selected count, each with that count; all of them without a selection. */
  function Chosen(roles: seq<RoleDef>, selected: map<string, int>): (r: seq<RoleDef>)
    ensures selected == map[] ==> r == roles
  {
    if selected == map[] then roles
    else if roles == [] then []
    else
      var last, rest := roles[|roles| - 1], Chosen(roles[..|roles| - 1], selected);
      if last.id in selected && selected[last.id] > 0 then rest + [last.(count := Fixed(selected[last.id]))] else rest
  }

  function Positive(n: int): nat {
    if n > 0 then n else 0
  }

  /** The sum of the counts; without an explicit selection, roles for larger games are left out of it. */
  function Total(defs: seq<RoleDef>, players: int, explicit: bool): int {
    if defs == [] then 0
    else
      var last := defs[|defs| - 1];
      Total(defs[..|defs| - 1], players, explicit)
      + if explicit || last.minPlayers <= players then last.count.Of(players) else 0
  }

  function OfTeam(defs: seq<RoleDef>, team: string): seq<RoleDef> {
    if defs == [] then []
    else
      var last, rest := defs[|defs| - 1], OfTeam(defs[..|defs| - 1], team);
      if last.team == team then rest + [last] else rest
  }

  lemma {:induction false} MembersOfTeam(defs: seq<RoleDef>, team: string)
    ensures forall d :: d in OfTeam(defs, team) <==> d in defs && d.team == team
  {
    if defs == [] {
    } else {
      var last, rest := defs[|defs| - 1], defs[..|defs| - 1];
      assert defs == rest + [last];
      MembersOfTeam(rest, team);
    }
  }

  predicate InPriorityOrder(defs: seq<RoleDef>) {
    forall i, j :: 0 <= i < j < |defs| ==> defs[i].priority <= defs[j].priority
  }

  /** The default role of a team: its operative with priority 99, or else a basic one. */
  function Filler(defs: seq<RoleDef>, team: string): (d: RoleDef)
    ensures d.team == team
  {
    if defs == [] then RoleDef(team + "_TEAM", "", team, OPERATIVE, Fixed(0), 0, 99)
    else if defs[0].team == team && defs[0].kind == OPERATIVE && defs[0].priority == 99 then defs[0]
    else Filler(defs[1..], team)
  }

  // ----- decks -----

  /** Every definition as many times as its count says, in order. */
  function Expand(defs: seq<RoleDef>, players: int): seq<Role> {
    if defs == [] then []
    else
      var last := defs[|defs| - 1];
      Expand(defs[..|defs| - 1], players) + seq(Positive(last.count.Of(players)), i => RoleFrom(last))
  }

  /** The cards a team of `size` players is dealt: what fits of the expanded definitions, then the filler. */
  function Deck(defs: seq<RoleDef>, players: int, size: nat, filler: RoleDef): (cards: seq<Role>)
    ensures |cards| == size
  {
    var cards := Expand(defs, players);
    if |cards| >= size then cards[..size] else cards + seq(size - |cards|, i => RoleFrom(filler))
  }

  function CountCards(cards: seq<Role>, id: string): nat {
    if cards == [] then 0 else CountCards(cards[..|cards| - 1], id) + if cards[|cards| - 1].id == id then 1 else 0
  }

  /** How many cards the definitions with this id stand for. */
  function Share(defs: seq<RoleDef>, players: int, id: string): nat {
    if defs == [] then 0
    else
      var last := defs[|defs| - 1];
      Share(defs[..|defs| - 1], players, id) + if last.id == id then Positive(last.count.Of(players)) else 0
  }

  function Cards(defs: seq<RoleDef>, players: int): nat {
    if defs == [] then 0 else Cards(defs[..|defs| - 1], players) + Positive(defs[|defs| - 1].count.Of(players))
  }

  lemma {:induction false} CountAppend(a: seq<Role>, b: seq<Role>, id: string)
    ensures CountCards(a + b, id) == CountCards(a, id) + CountCards(b, id)
    decreases |b|
  {
    if b == [] {
      assert a + b == a;
    } else {
      var n := |b| - 1;
      assert (a + b)[..|a + b| - 1] == a + b[..n];
      CountAppend(a, b[..n], id);
    }
  }

  lemma {:induction false} CountCopies(r: Role, n: nat, id: string)
    ensures CountCards(seq(n, i => r), id) == if r.id == id then n else 0
  {
    if n == 0 {
    } else {
      assert seq(n, i => r)[..n - 1] == seq(n - 1, i => r);
      CountCopies(r, n - 1, id);
    }
  }

  lemma {:induction false} ExpandCounts(defs: seq<RoleDef>, players: int, id: string)
    ensures |Expand(defs, players)| == Cards(defs, players)
    ensures CountCards(Expand(defs, players), id) == Share(defs, players, id)
  {
    if defs == [] {
    } else {
      var last, rest := defs[|defs| - 1], defs[..|defs| - 1];
      ExpandCounts(rest, players, id);
      var copies := seq(Positive(last.count.Of(players)), i => RoleFrom(last));
      CountAppend(Expand(rest, players), copies, id);
      CountCopies(RoleFrom(last), |copies|, id);
    }
  }

  lemma {:induction false} SharesSplit(a: seq<RoleDef>, b: seq<RoleDef>, players: int, id: string)
    ensures Share(a + b, players, id) == Share(a, players, id) + Share(b, players, id)
    ensures Cards(a + b, players) == Cards(a, players) + Cards(b, players)
    decreases |b|
  {
    if b == [] {
      assert a + b == a;
    } else {
      assert (a + b)[..|a + b| - 1] == a + b[..|b| - 1];
      SharesSplit(a, b[..|b| - 1], players, id);
    }
  }

  /** Sorting the definitions changes no share. */
  lemma {:induction false} SharesPermute(a: seq<RoleDef>, b: seq<RoleDef>, players: int, id: string)
    requires multiset(a) == multiset(b)
    ensures Share(a, players, id) == Share(b, players, id) && Cards(a, players) == Cards(b, players)
    decreases |a|
  {
    if a == [] {
      assert |b| == |multiset(b)| == 0;
    } else {
      var last, rest := a[|a| - 1], a[..|a| - 1];
      assert a == rest + [last];
      assert multiset(rest) == multiset(a) - multiset{last};
      var front, back := TakeOut(b, last);
      SharesPermute(rest, front + back, players, id);
      SharesSplit(front, back, players, id);
      SharesSplit(front + [last], back, players, id);
      SharesSplit(front, [last], players, id);
    }
  }

  lemma TakeOut<T>(s: seq<T>, x: T) returns (front: seq<T>, back: seq<T>)
    requires x in multiset(s)
    ensures s == front + [x] + back
    ensures multiset(front + back) == multiset(s) - multiset{x}
  {
    var k :| 0 <= k < |s| && s[k] == x;
    front, back := s[..k], s[k + 1..];
    assert s == front + [x] + back;
  }

  /** A deck large enough for all its definitions holds each of them exactly as often as it should, and the
      filler on every other card. */
  lemma DeckExact(defs: seq<RoleDef>, sorted: seq<RoleDef>, players: int, size: nat, filler: RoleDef, id: string)
    requires multiset(sorted) == multiset(defs) && Cards(defs, players) <= size
    ensures CountCards(Deck(sorted, players, size, filler), id)
            == Share(defs, players, id) + if filler.id == id then size - Cards(defs, players) else 0
  {
    SharesPermute(defs, sorted, players, id);
    ExpandCounts(sorted, players, id);
    var cards := Expand(sorted, players);
    if |cards| >= size {
      assert cards[..size] == cards;
    } else {
      CountAppend(cards, seq(size - |cards|, i => RoleFrom(filler)), id);
      CountCopies(RoleFrom(filler), size - |cards|, id);
    }
  }

  lemma {:induction false} ExpandOfTeam(defs: seq<RoleDef>, players: int, color: string)
    requires forall d :: d in defs ==> d.team == color
    ensures forall i :: 0 <= i < |Expand(defs, players)| ==> Expand(defs, players)[i].team == TeamOf(color)
  {
    if defs == [] {
    } else {
      assert defs == defs[..|defs| - 1] + [defs[|defs| - 1]];
      ExpandOfTeam(defs[..|defs| - 1], players, color);
    }
  }

  /** A team is dealt roles of its own colour only. */
  lemma DeckOfTeam(defs: seq<RoleDef>, sorted: seq<RoleDef>, players: int, size: nat, color: string)
    requires multiset(sorted) == multiset(OfTeam(defs, color))
    ensures forall i :: 0 <= i < size ==> Deck(sorted, players, size, Filler(defs, color))[i].team == TeamOf(color)
  {
    MembersOfTeam(defs, color);
    forall d | d in sorted ensures d.team == color {
      assert d in multiset(sorted);
    }
    ExpandOfTeam(sorted, players, color);
  }

  /** The role is one of the team's definitions, a spy or a leader as its type says; or, for a team without an operative of
      priority 99, the basic role. */
  ghost predicate AsDefined(defs: seq<RoleDef>, color: string, role: Option<Role>) {
    || (exists d :: d in defs && d.team == color
                    && role == Some(Role(d.id, TeamOf(color), d.kind == "spy", d.kind == "leader")))
    || ((forall d :: d in defs && d.team == color && d.kind == "operative" ==> d.priority != 99)
        && role == Some(Role(color + "_TEAM", TeamOf(color), false, false)))
  }

  lemma {:induction false} FillerAsDefined(defs: seq<RoleDef>, color: string)
    ensures AsDefined(defs, color, Some(RoleFrom(Filler(defs, color))))
    decreases |defs|
  {
    FillerIsFirst(defs, color);
    var d := Filler(defs, color);
    assert RoleFrom(d) == Role(d.id, TeamOf(color), d.kind == "spy", d.kind == "leader");
  }

  lemma {:induction false} FillerIsFirst(defs: seq<RoleDef>, color: string)
    ensures var d := Filler(defs, color);
      || d in defs
      || ((forall e :: e in defs && e.team == color && e.kind == "operative" ==> e.priority != 99)
          && d.id == color + "_TEAM" && d.kind == "operative")
    decreases |defs|
  {
    if defs == [] {
    } else {
      FillerIsFirst(defs[1..], color);
      assert defs == [defs[0]] + defs[1..];
    }
  }

  lemma {:induction false} ExpandAsDefined(all: seq<RoleDef>, defs: seq<RoleDef>, players: int, color: string)
    requires forall d :: d in defs ==> d in all && d.team == color
    ensures forall i :: 0 <= i < |Expand(defs, players)| ==> AsDefined(all, color, Some(Expand(defs, players)[i]))
  {
    if defs == [] {
    } else {
      var last, rest := defs[|defs| - 1], defs[..|defs| - 1];
      assert defs == rest + [last];
      ExpandAsDefined(all, rest, players, color);
      assert last in all && RoleFrom(last) == Role(last.id, TeamOf(color), last.kind == "spy", last.kind == "leader");
      assert AsDefined(all, color, Some(RoleFrom(last)));
    }
  }

  lemma DeckAsDefined(defs: seq<RoleDef>, sorted: seq<RoleDef>, players: int, size: nat, color: string)
    requires multiset(sorted) == multiset(OfTeam(defs, color))
    ensures forall i :: 0 <= i < size ==> AsDefined(defs, color, Some(Deck(sorted, players, size, Filler(defs, color))[i]))
  {
    MembersOfTeam(defs, color);
    forall d | d in sorted ensures d in defs && d.team == color {
      assert d in multiset(sorted);
    }
    ExpandAsDefined(defs, sorted, players, color);
    FillerAsDefined(defs, color);
  }

  // ----- the count of a selection -----

  /** The definitions for games of this size. */
  function Playable(defs: seq<RoleDef>, players: int): seq<RoleDef> {
    if defs == [] then []
    else Playable(defs[..|defs| - 1], players) + if defs[|defs| - 1].minPlayers <= players then [defs[|defs| - 1]] else []
  }

  lemma {:induction false} PlayableAre(defs: seq<RoleDef>, players: int)
    ensures forall d :: d in Playable(defs, players) <==> d in defs && d.minPlayers <= players
  {
    if defs == [] {
    } else {
      PlayableAre(defs[..|defs| - 1], players);
      assert defs == defs[..|defs| - 1] + [defs[|defs| - 1]];
    }
  }

  /** Without an explicit selection, roles for larger games are left out of the count. */
  lemma {:induction false} TotalSkips(defs: seq<RoleDef>, players: int)
    requires NonNegative(defs, players)
    ensures Total(defs, players, false) == Cards(Playable(defs, players), players)
  {
    if defs == [] {
    } else {
      var last, rest := defs[|defs| - 1], defs[..|defs| - 1];
      assert defs == rest + [last];
      TotalSkips(rest, players);
      if last.minPlayers <= players {
        SharesSplit(Playable(rest, players), [last], players, "");
        assert [last][..0] == [];
      } else {
        assert Playable(defs, players) == Playable(rest, players);
      }
    }
  }

  lemma CountOf(n: int, table: map<int, int>, players: int)
    ensures Fixed(n).Of(players) == n
    ensures Ranges(table).Of(players) == if players in table.Keys then table[players] else 0
  {
  }

  // ----- an explicit selection -----

  predicate ValidTeams(defs: seq<RoleDef>) {
    forall d :: d in defs ==> d.team in {RED, BLUE, GREY}
  }

  predicate NonNegative(defs: seq<RoleDef>, players: int) {
    forall d :: d in defs ==> d.count.Of(players) >= 0
  }

  /** How many of a role the selection asks for. */
  function Wanted(roles: seq<RoleDef>, selected: map<string, int>, id: string): nat {
    if (exists d :: d in roles && d.id == id) && id in selected then Positive(selected[id]) else 0
  }

  /** Every role is in play as often as it was selected. */
  lemma {:induction false} ChosenShares(roles: seq<RoleDef>, selected: map<string, int>, players: int, id: string)
    requires DistinctIDs(roles) && selected != map[]
    ensures Share(Chosen(roles, selected), players, id) == Wanted(roles, selected, id)
  {
    if roles == [] {
    } else {
      var last, rest := roles[|roles| - 1], roles[..|roles| - 1];
      assert roles == rest + [last];
      ChosenShares(rest, selected, players, id);
      WantedNext(rest, last, selected, id);
      if last.id in selected {
        ShareNext(Chosen(rest, selected), last.(count := Fixed(selected[last.id])), players, id);
      }
    }
  }

  lemma ShareNext(defs: seq<RoleDef>, d: RoleDef, players: int, id: string)
    ensures Share(defs + [d], players, id) == Share(defs, players, id) + if d.id == id then Positive(d.count.Of(players)) else 0
  {
    assert (defs + [d])[..|defs|] == defs;
  }

  lemma WantedNext(rest: seq<RoleDef>, last: RoleDef, selected: map<string, int>, id: string)
    requires DistinctIDs(rest + [last])
    ensures Wanted(rest + [last], selected, id)
            == Wanted(rest, selected, id) + if last.id == id && id in selected then Positive(selected[id]) else 0
  {
    var roles := rest + [last];
    assert forall d :: d in roles <==> d in rest || d == last;
    if d :| d in rest && d.id == id {
      var i :| 0 <= i < |rest| && rest[i] == d;
      assert roles[i] == d && roles[|rest|] == last;
    }
  }

  lemma {:induction false} ChosenTotals(roles: seq<RoleDef>, selected: map<string, int>, players: int)
    requires selected != map[] && ValidTeams(roles)
    ensures Total(Chosen(roles, selected), players, true) == Cards(Chosen(roles, selected), players)
    ensures ValidTeams(Chosen(roles, selected))
    ensures NonNegative(Chosen(roles, selected), players)
  {
    if roles == [] {
    } else {
      var last, rest := roles[|roles| - 1], roles[..|roles| - 1];
      assert roles == rest + [last];
      ChosenTotals(rest, selected, players);
      var chosen := Chosen(rest, selected);
      var taken := [last.(count := Fixed(if last.id in selected then selected[last.id] else 0))];
      assert (chosen + taken)[..|chosen|] == chosen;
    }
  }

  lemma TeamNext(defs: seq<RoleDef>, team: string, players: int, id: string)
    requires defs != []
    ensures var last, rest := defs[|defs| - 1], defs[..|defs| - 1];
            var n := if last.team == team then Positive(last.count.Of(players)) else 0;
            && Share(OfTeam(defs, team), players, id) == Share(OfTeam(rest, team), players, id) + (if last.id == id then n else 0)
            && Cards(OfTeam(defs, team), players) == Cards(OfTeam(rest, team), players) + n
  {
    var last, rest := defs[|defs| - 1], OfTeam(defs[..|defs| - 1], team);
    assert (rest + [last])[..|rest|] == rest;
  }

  /** The three teams share out all definitions. */
  lemma {:induction false} TeamsShare(defs: seq<RoleDef>, players: int, id: string)
    requires ValidTeams(defs) && NonNegative(defs, players)
    ensures Share(defs, players, id) == Share(OfTeam(defs, RED), players, id) + Share(OfTeam(defs, BLUE), players, id)
                                        + Share(OfTeam(defs, GREY), players, id)
    ensures Cards(defs, players) == Cards(OfTeam(defs, RED), players) + Cards(OfTeam(defs, BLUE), players)
                                    + Cards(OfTeam(defs, GREY), players)
  {
    if defs == [] {
    } else {
      var last, rest := defs[|defs| - 1], defs[..|defs| - 1];
      assert defs == rest + [last];
      TeamsShare(rest, players, id);
      TeamNext(defs, RED, players, id);
      TeamNext(defs, BLUE, players, id);
      TeamNext(defs, GREY, players, id);
    }
  }

  lemma {:induction false} TeamTotal(defs: seq<RoleDef>, players: int)
    requires NonNegative(defs, players)
    ensures Total(defs, players, true) == Cards(defs, players)
  {
    if defs == [] {
    } else {
      assert defs == defs[..|defs| - 1] + [defs[|defs| - 1]];
      TeamTotal(defs[..|defs| - 1], players);
    }
  }

  /** As long as there are no more cards than players, dealing each team its deck deals every definition its count; the
      blue filler takes the players that are left. */
  lemma {:induction false} DefinitionsExact(defs: seq<RoleDef>, players: nat, id: string,
                                            red: seq<RoleDef>, blue: seq<RoleDef>, grey: seq<RoleDef>)
    requires ValidTeams(defs) && NonNegative(defs, players) && Cards(defs, players) <= players
    requires SameCards(red, OfTeam(defs, RED)) && SameCards(blue, OfTeam(defs, BLUE)) && SameCards(grey, OfTeam(defs, GREY))
    ensures var r, g := Cards(OfTeam(defs, RED), players), Cards(OfTeam(defs, GREY), players);
            && r + g <= players
            && CountCards(Deck(red, players, r, Filler(defs, RED)), id)
               + CountCards(Deck(blue, players, players - r - g, Filler(defs, BLUE)), id)
               + CountCards(Deck(grey, players, g, Filler(defs, GREY)), id)
               == Share(defs, players, id) + if Filler(defs, BLUE).id == id then players - Cards(defs, players) else 0
  {
    TeamsShare(defs, players, id);
    ThreeDecks(OfTeam(defs, RED), OfTeam(defs, BLUE), OfTeam(defs, GREY), red, blue, grey, players,
               Filler(defs, RED), Filler(defs, BLUE), Filler(defs, GREY), id);
  }

  lemma ThreeDecks(a: seq<RoleDef>, b: seq<RoleDef>, c: seq<RoleDef>, red: seq<RoleDef>, blue: seq<RoleDef>, grey: seq<RoleDef>,
                   players: nat, redFiller: RoleDef, blueFiller: RoleDef, greyFiller: RoleDef, id: string)
    requires SameCards(red, a) && SameCards(blue, b) && SameCards(grey, c)
    requires Cards(a, players) + Cards(b, players) + Cards(c, players) <= players
    ensures var r, g := Cards(a, players), Cards(c, players);
            CountCards(Deck(red, players, r, redFiller), id) + CountCards(Deck(blue, players, players - r - g, blueFiller), id)
            + CountCards(Deck(grey, players, g, greyFiller), id)
            == Share(a, players, id) + Share(b, players, id) + Share(c, players, id)
               + if blueFiller.id == id then players - r - g - Cards(b, players) else 0
  {
    var r, n, g := Cards(a, players), Cards(b, players), Cards(c, players);
    DeckCounts(a, red, players, r, redFiller, id, r);
    DeckCounts(b, blue, players, players - r - g, blueFiller, id, n);
    DeckCounts(c, grey, players, g, greyFiller, id, g);
  }

  ghost predicate SameCards(a: seq<RoleDef>, b: seq<RoleDef>) {
    multiset(a) == multiset(b)
  }

  lemma DeckCounts(defs: seq<RoleDef>, sorted: seq<RoleDef>, players: int, size: nat, filler: RoleDef, id: string, cards: nat)
    requires SameCards(sorted, defs) && cards == Cards(defs, players) <= size
    ensures CountCards(Deck(sorted, players, size, filler), id)
            == Share(defs, players, id) + if filler.id == id then size - cards else 0
  {
    DeckExact(defs, sorted, players, size, filler, id);
  }

  /** The same of an explicit selection: every role is dealt as often as it was chosen. */
  lemma {:induction false} SelectionExact(roles: seq<RoleDef>, selected: map<string, int>, players: nat, id: string,
                       red: seq<RoleDef>, blue: seq<RoleDef>, grey: seq<RoleDef>)
    requires DistinctIDs(roles) && ValidTeams(roles) && selected != map[]
    requires var defs := Chosen(roles, selected);
             && Total(defs, players, true) <= players
             && multiset(red) == multiset(OfTeam(defs, RED))
             && multiset(blue) == multiset(OfTeam(defs, BLUE))
             && multiset(grey) == multiset(OfTeam(defs, GREY))
    ensures var defs := Chosen(roles, selected);
            var r, g := Cards(OfTeam(defs, RED), players), Cards(OfTeam(defs, GREY), players);
            && r + g <= players
            && CountCards(Deck(red, players, r, Filler(defs, RED)), id)
               + CountCards(Deck(blue, players, players - r - g, Filler(defs, BLUE)), id)
               + CountCards(Deck(grey, players, g, Filler(defs, GREY)), id)
               == Wanted(roles, selected, id)
                  + if Filler(defs, BLUE).id == id then players - Total(defs, players, true) else 0
  {
    ChosenShares(roles, selected, players, id);
    ChosenTotals(roles, selected, players);
    DefinitionsExact(Chosen(roles, selected), players, id, red, blue, grey);
  }

  lemma {:induction false} ShareCovers(defs: seq<RoleDef>, players: int, d: RoleDef)
    requires d in defs
    ensures Positive(d.count.Of(players)) <= Share(defs, players, d.id)
  {
    var last, rest := defs[|defs| - 1], defs[..|defs| - 1];
    assert defs == rest + [last];
    if d in rest {
      ShareCovers(rest, players, d);
    }
  }

  // ----- the built-in roles -----

  /** One leader, then the spies, then operatives. */
  function BuiltInDeck(size: nat, leader: Role, spy: Role, operative: Role, spies: nat): seq<Role> {
    seq(size, i => if i == 0 then leader else if i <= spies then spy else operative)
  }

  lemma BuiltInCounts(size: nat, leader: Role, spy: Role, operative: Role, spies: nat, id: string)
    requires size > spies
    ensures CountCards(BuiltInDeck(size, leader, spy, operative, spies), id)
            == (if id == leader.id then 1 else 0) + (if id == spy.id then spies else 0)
               + (if id == operative.id then size - 1 - spies else 0)
  {
    var deck := BuiltInDeck(size, leader, spy, operative, spies);
    var spyCards, rest := seq(spies, i => spy), seq(size - 1 - spies, i => operative);
    assert deck == ([leader] + spyCards) + rest;
    assert [leader][..0] == [];
    CountAppend([leader] + spyCards, rest, id);
    CountAppend([leader], spyCards, id);
    CountCopies(spy, spies, id);
    CountCopies(operative, size - 1 - spies, id);
  }
}
