/** The game service: dealing teams, roles and rooms to the players of one room, and starting and resetting its
    game.  A shuffle is an arbitrary permutation. */
module GameService {
  import opened Models
  import opened RoleConfig
  import opened Dealing
  import Rules
  import LeaderService
  import RoundManager

  // ----- counting players -----

  /** The members of a team. */
  function Members(ps: seq<PlayerView>, c: TeamColor): set<Id> {
    set i | 0 <= i < |ps| && ps[i].team == c :: ps[i].id
  }

  /** The players who hold the role with this id. */
  function Holders(ps: seq<PlayerView>, id: string): set<Id> {
    set i | 0 <= i < |ps| && ps[i].role.Some? && ps[i].role.value.id == id :: ps[i].id
  }

  function Ids(ps: seq<PlayerView>): set<Id> {
    set i | 0 <= i < |ps| :: ps[i].id
  }

  lemma {:induction false} IdsSize(ps: seq<PlayerView>)
    requires Rules.Distinct(ps)
    ensures |Ids(ps)| == |ps|
  {
    if ps == [] {
    } else {
      var n := |ps| - 1;
      IdsSize(ps[..n]);
      assert Ids(ps) == Ids(ps[..n]) + {ps[n].id};
    }
  }

  predicate Dealt(ps: seq<PlayerView>, cards: seq<Role>)
    requires |ps| == |cards|
  {
    forall i :: 0 <= i < |ps| ==> ps[i].role == Some(cards[i])
  }

  lemma {:induction false} HoldersCount(ps: seq<PlayerView>, cards: seq<Role>, id: string)
    requires Rules.Distinct(ps) && |ps| == |cards| && Dealt(ps, cards)
    ensures |Holders(ps, id)| == CountCards(cards, id)
  {
    if ps == [] {
    } else {
      var n := |ps| - 1;
      assert Rules.Distinct(ps[..n]) && Dealt(ps[..n], cards[..n]);
      HoldersCount(ps[..n], cards[..n], id);
      HoldersMore(ps, id);
    }
  }

  lemma HoldersMore(ps: seq<PlayerView>, id: string)
    requires Rules.Distinct(ps) && ps != []
    ensures var n := |ps| - 1;
            && ps[n].id !in Holders(ps[..n], id)
            && Holders(ps, id) == Holders(ps[..n], id)
                                  + if ps[n].role.Some? && ps[n].role.value.id == id then {ps[n].id} else {}
  {
  }

  /** The two lists have the same elements. */
  predicate SameElements<T(==)>(s: seq<T>, t: seq<T>) {
    (forall i :: 0 <= i < |s| ==> s[i] in t) && (forall i :: 0 <= i < |t| ==> t[i] in s)
  }

  // Nothing changed about the players but ...

  predicate OnlyTeams(ps: seq<PlayerView>, qs: seq<PlayerView>) {
    |ps| == |qs| && forall i :: 0 <= i < |ps| ==> qs[i] == ps[i].(team := qs[i].team)
  }

  predicate OnlyRoles(ps: seq<PlayerView>, qs: seq<PlayerView>) {
    |ps| == |qs| && forall i :: 0 <= i < |ps| ==> qs[i] == ps[i].(role := qs[i].role)
  }

  predicate OnlyTeamsAndRoles(ps: seq<PlayerView>, qs: seq<PlayerView>) {
    |ps| == |qs| && forall i :: 0 <= i < |ps| ==> qs[i] == ps[i].(role := qs[i].role, team := qs[i].team)
  }

  predicate OnlyRooms(ps: seq<PlayerView>, qs: seq<PlayerView>) {
    |ps| == |qs| && forall i :: 0 <= i < |ps| ==> qs[i] == ps[i].(room := qs[i].room)
  }

  predicate InTwoTeams(ps: seq<PlayerView>) {
    forall i :: 0 <= i < |ps| ==> ps[i].team == TeamRed || ps[i].team == TeamBlue
  }

  lemma HoldersReordered(ps: seq<PlayerView>, qs: seq<PlayerView>, id: string)
    requires SameElements(ps, qs)
    ensures Holders(ps, id) == Holders(qs, id)
  {
  }

  lemma ViewsReordered(ps: seq<Player>, qs: seq<Player>)
    requires forall p :: p in ps <==> p in qs
    ensures SameElements(Views(ps), Views(qs))
  {
    forall i | 0 <= i < |ps| ensures Views(ps)[i] in Views(qs) {
      assert ps[i] in qs;
      var k :| 0 <= k < |qs| && qs[k] == ps[i];
      assert Views(qs)[k] == Views(ps)[i];
    }
    forall i | 0 <= i < |qs| ensures Views(qs)[i] in Views(ps) {
      assert qs[i] in ps;
      var k :| 0 <= k < |ps| && ps[k] == qs[i];
      assert Views(ps)[k] == Views(qs)[i];
    }
  }

  // ----- shuffling and sorting -----

  method Shuffle(ps: seq<Player>) returns (qs: seq<Player>)
    requires DistinctPlayers(ps)
    ensures |qs| == |ps| && DistinctPlayers(qs)
    ensures forall p :: p in qs <==> p in ps
    ensures forall i :: 0 <= i < |qs| ==> qs[i] in ps
  {
    qs := ps;
    for i := |ps| downto 0
      invariant |qs| == |ps| && DistinctPlayers(qs)
      invariant forall p :: p in qs <==> p in ps
    {
      var j :| 0 <= j <= i;
      var before := qs;
      qs := qs[i := before[j]][j := before[i]];
      forall p ensures p in qs <==> p in before {
        if p in before {
          var k :| 0 <= k < |before| && before[k] == p;
          assert qs[if k == i then j else if k == j then i else k] == p;
        }
      }
    }
  }

  /** Puts a definition behind all those of lower or equal priority. */
  method InsertByPriority(defs: seq<RoleDef>, d: RoleDef) returns (r: seq<RoleDef>)
    requires InPriorityOrder(defs)
    ensures InPriorityOrder(r) && multiset(r) == multiset(defs) + multiset{d}
  {
    var k := |defs|;
    while k > 0 && defs[k - 1].priority > d.priority
      invariant 0 <= k <= |defs|
      invariant forall i :: k <= i < |defs| ==> d.priority < defs[i].priority
    {
      k := k - 1;
    }
    assert forall i :: 0 <= i < k ==> defs[i].priority <= defs[k - 1].priority;
    r := Inserted(defs, k, d);
    InsertedElements(defs, k, d);
    InsertedInOrder(defs, k, d);
  }

  function Inserted(defs: seq<RoleDef>, k: nat, d: RoleDef): (r: seq<RoleDef>)
    requires k <= |defs|
    ensures |r| == |defs| + 1 && r[k] == d
    ensures forall i :: 0 <= i < k ==> r[i] == defs[i]
    ensures forall i :: k < i < |r| ==> r[i] == defs[i - 1]
  {
    defs[..k] + [d] + defs[k..]
  }

  lemma InsertedElements(defs: seq<RoleDef>, k: nat, d: RoleDef)
    requires k <= |defs|
    ensures multiset(Inserted(defs, k, d)) == multiset(defs) + multiset{d}
  {
    assert defs == defs[..k] + defs[k..];
  }

  lemma InsertedInOrder(defs: seq<RoleDef>, k: nat, d: RoleDef)
    requires InPriorityOrder(defs) && k <= |defs|
    requires forall i :: 0 <= i < k ==> defs[i].priority <= d.priority
    requires forall i :: k <= i < |defs| ==> d.priority < defs[i].priority
    ensures InPriorityOrder(Inserted(defs, k, d))
  {
  }

  method SortByPriority(defs: seq<RoleDef>) returns (sorted: seq<RoleDef>)
    ensures InPriorityOrder(sorted) && multiset(sorted) == multiset(defs)
  {
    sorted := [];
    for i := 0 to |defs|
      invariant InPriorityOrder(sorted) && multiset(sorted) == multiset(defs[..i])
    {
      assert defs[..i + 1] == defs[..i] + [defs[i]];
      sorted := InsertByPriority(sorted, defs[i]);
    }
    assert defs[..|defs|] == defs;
  }

  // ----- teams and rooms -----

  method SetTeams(ps: seq<Player>, red: nat)
    requires DistinctPlayers(ps) && red <= |ps|
    modifies ps
    ensures forall i :: 0 <= i < |ps| ==> ps[i].View() == old(ps[i].View()).(team := if i < red then TeamRed else TeamBlue)
    ensures forall p :: p in ps ==> p.View() == old(p.View()).(team := p.team)
  {
    for i := 0 to |ps|
      invariant forall j :: 0 <= j < i ==> ps[j].View() == old(ps[j].View()).(team := if j < red then TeamRed else TeamBlue)
      invariant forall j :: i <= j < |ps| ==> ps[j].View() == old(ps[j].View())
    {
      ps[i].team := if i < red then TeamRed else TeamBlue;
    }
  }

  /** An even split, the red team taking the odd player. */
  method AssignTeams(players: seq<Player>)
    requires DistinctPlayers(players)
    modifies players
    ensures OnlyTeams(old(Views(players)), Views(players)) && InTwoTeams(Views(players))
    ensures |Members(Views(players), TeamRed)| == |players| - |players| / 2
    ensures |Members(Views(players), TeamBlue)| == |players| / 2
  {
    var shuffled := Shuffle(players);
    var red := |players| - |players| / 2;
    ghost var before := Views(players);
    SetTeams(shuffled, red);
    ghost var after := Views(players);
    forall i | 0 <= i < |players| ensures after[i] == before[i].(team := after[i].team) {
      assert players[i] in shuffled;
    }
    ViewsReordered(players, shuffled);
    TeamsSplit(after, Views(shuffled), red);
  }

  lemma TeamsSplit(players: seq<PlayerView>, shuffled: seq<PlayerView>, red: nat)
    requires Rules.Distinct(shuffled) && red <= |shuffled| && SameElements(players, shuffled)
    requires forall i :: 0 <= i < |shuffled| ==> shuffled[i].team == if i < red then TeamRed else TeamBlue
    ensures |Members(players, TeamRed)| == red && |Members(players, TeamBlue)| == |shuffled| - red
  {
    assert Members(players, TeamRed) == Members(shuffled, TeamRed) == Ids(shuffled[..red]);
    assert Members(players, TeamBlue) == Members(shuffled, TeamBlue) == Ids(shuffled[red..]);
    IdsSize(shuffled[..red]);
    IdsSize(shuffled[red..]);
  }

  method SetRooms(ps: seq<Player>, red: nat)
    requires DistinctPlayers(ps) && red <= |ps|
    modifies ps
    ensures forall i :: 0 <= i < |ps| ==> ps[i].View() == old(ps[i].View()).(room := if i < red then RedRoom else BlueRoom)
    ensures forall p :: p in ps ==> p.View() == old(p.View()).(room := p.currentRoom)
  {
    for i := 0 to |ps|
      invariant forall j :: 0 <= j < i ==> ps[j].View() == old(ps[j].View()).(room := if j < red then RedRoom else BlueRoom)
      invariant forall j :: i <= j < |ps| ==> ps[j].View() == old(ps[j].View())
    {
      ps[i].currentRoom := if i < red then RedRoom else BlueRoom;
    }
  }

  /** An even split, the red room taking the odd player. */
  method AssignRooms(players: seq<Player>)
    requires DistinctPlayers(players)
    modifies players
    ensures OnlyRooms(old(Views(players)), Views(players))
    ensures Rules.EvenSplit(Views(players))
  {
    var shuffled := Shuffle(players);
    var red := |players| - |players| / 2;
    ghost var before := Views(players);
    SetRooms(shuffled, red);
    ghost var after := Views(players);
    forall i | 0 <= i < |players| ensures after[i] == before[i].(room := after[i].room) {
      assert players[i] in shuffled;
    }
    ViewsReordered(players, shuffled);
    RoomsSplit(after, Views(shuffled), red);
  }

  lemma RoomsSplit(players: seq<PlayerView>, shuffled: seq<PlayerView>, red: nat)
    requires Rules.Distinct(shuffled) && |players| == |shuffled| && red == |players| - |players| / 2
    requires SameElements(players, shuffled)
    requires forall i :: 0 <= i < |shuffled| ==> shuffled[i].room == if i < red then RedRoom else BlueRoom
    ensures Rules.EvenSplit(players)
  {
    assert Rules.IdsIn(players, RedRoom) == Rules.IdsIn(shuffled, RedRoom) == Ids(shuffled[..red]);
    assert Rules.IdsIn(players, BlueRoom) == Rules.IdsIn(shuffled, BlueRoom) == Ids(shuffled[red..]);
    IdsSize(shuffled[..red]);
    IdsSize(shuffled[red..]);
  }

  // ----- roles from a configuration -----

  method RolesOfTeam(defs: seq<RoleDef>, color: string) returns (applicable: seq<RoleDef>)
    ensures applicable == OfTeam(defs, color)
  {
    applicable := [];
    for i := 0 to |defs|
      invariant applicable == OfTeam(defs[..i], color)
    {
      assert defs[..i + 1][..i] == defs[..i];
      if defs[i].team == color {
        applicable := applicable + [defs[i]];
      }
    }
    assert defs[..|defs|] == defs;
  }

  method FindFiller(defs: seq<RoleDef>, color: string) returns (d: RoleDef)
    ensures d == Filler(defs, color)
  {
    for i := 0 to |defs|
      invariant Filler(defs, color) == Filler(defs[i..], color)
    {
      assert defs[i..][1..] == defs[i + 1..];
      if defs[i].team == color && defs[i].kind == OPERATIVE && defs[i].priority == 99 { return defs[i]; }
    }
    return RoleDef(color + "_TEAM", "", color, OPERATIVE, Fixed(0), 0, 99);
  }

  /** Gives `role` to up to `count` players from position `from` on. */
  method DealCopies(ps: seq<Player>, from: nat, role: Role, count: int) returns (next: nat)
    requires DistinctPlayers(ps) && from <= |ps|
    modifies ps
    ensures next == if from + Positive(count) <= |ps| then from + Positive(count) else |ps|
    ensures forall j :: 0 <= j < |ps| ==>
              ps[j].View() == if from <= j < next then old(ps[j].View()).(role := Some(role)) else old(ps[j].View())
  {
    next := from;
    var i := 0;
    while i < count && next < |ps|
      invariant 0 <= i <= Positive(count) && next == from + i <= |ps|
      invariant forall j :: 0 <= j < |ps| ==>
        ps[j].View() == if from <= j < next then old(ps[j].View()).(role := Some(role)) else old(ps[j].View())
    {
      ps[next].role := Some(role);
      i, next := i + 1, next + 1;
    }
  }

  method DealSorted(ps: seq<Player>, sorted: seq<RoleDef>, players: int) returns (next: nat)
    requires DistinctPlayers(ps)
    modifies ps
    ensures var cards := Expand(sorted, players);
            && next == (if |cards| <= |ps| then |cards| else |ps|)
            && (forall j :: 0 <= j < next ==> ps[j].View() == old(ps[j].View()).(role := Some(cards[j])))
    ensures forall j :: next <= j < |ps| ==> ps[j].View() == old(ps[j].View())
  {
    next := 0;
    for d := 0 to |sorted|
      invariant var cards := Expand(sorted[..d], players);
                && next == (if |cards| <= |ps| then |cards| else |ps|)
                && (forall j :: 0 <= j < next ==> ps[j].View() == old(ps[j].View()).(role := Some(cards[j])))
      invariant forall j :: next <= j < |ps| ==> ps[j].View() == old(ps[j].View())
    {
      assert sorted[..d + 1][..d] == sorted[..d];
      next := DealCopies(ps, next, RoleFrom(sorted[d]), sorted[d].count.Of(players));
    }
    assert sorted[..|sorted|] == sorted;
  }

  /** The definitions in order, then the filler for the players who are left. */
  method DealDeck(ps: seq<Player>, sorted: seq<RoleDef>, players: int, filler: RoleDef)
    requires DistinctPlayers(ps)
    modifies ps
    ensures forall i :: 0 <= i < |ps| ==> ps[i].View() == old(ps[i].View()).(role := ps[i].role)
    ensures Dealt(Views(ps), Deck(sorted, players, |ps|, filler))
  {
    var next := DealSorted(ps, sorted, players);
    var _ := DealCopies(ps, next, RoleFrom(filler), |ps| - next);
  }

  ghost predicate HoldsCard(p: PlayerView, color: string, defs: seq<RoleDef>) {
    p.role.Some? && p.role.value.team == TeamOf(color) && AsDefined(defs, color, p.role)
  }

  /** The team holds the roles of a deck with its definitions in priority order, each player one. */
  ghost predicate DealtInOrder(team: seq<PlayerView>, color: string, players: int, defs: seq<RoleDef>, sorted: seq<RoleDef>)
  {
    && multiset(sorted) == multiset(OfTeam(defs, color)) && InPriorityOrder(sorted)
    && (forall i :: 0 <= i < |team| ==> HoldsCard(team[i], color, defs))
    && (forall id :: |Holders(team, id)| == CountCards(Deck(sorted, players, |team|, Filler(defs, color)), id))
  }

  lemma DeckDealt(team: seq<PlayerView>, shuffled: seq<PlayerView>, color: string, players: int,
                  defs: seq<RoleDef>, sorted: seq<RoleDef>)
    requires Rules.Distinct(shuffled) && |shuffled| == |team| && SameElements(team, shuffled)
    requires multiset(sorted) == multiset(OfTeam(defs, color)) && InPriorityOrder(sorted)
    requires Dealt(shuffled, Deck(sorted, players, |team|, Filler(defs, color)))
    ensures DealtInOrder(team, color, players, defs, sorted)
  {
    var cards := Deck(sorted, players, |team|, Filler(defs, color));
    DeckOfTeam(defs, sorted, players, |team|, color);
    DeckAsDefined(defs, sorted, players, |team|, color);
    forall id ensures |Holders(team, id)| == CountCards(cards, id) {
      HoldersCount(shuffled, cards, id);
      HoldersReordered(team, shuffled, id);
    }
  }

  /** Deals a team its deck in random order. */
  method AssignTeamRoles(team: seq<Player>, color: string, players: int, defs: seq<RoleDef>)
    returns (ghost sorted: seq<RoleDef>)
    requires DistinctPlayers(team)
    modifies team
    ensures forall p :: p in team ==> p.View() == old(p.View()).(role := p.role)
    ensures DealtInOrder(Views(team), color, players, defs, sorted)
  {
    var applicable := RolesOfTeam(defs, color);
    var inOrder := SortByPriority(applicable);
    sorted := inOrder;
    var shuffled := Shuffle(team);
    var filler := FindFiller(defs, color);
    DealDeck(shuffled, inOrder, players, filler);
    ViewsReordered(team, shuffled);
    DeckDealt(Views(team), Views(shuffled), color, players, defs, sorted);
  }

  method ChooseRoles(roles: seq<RoleDef>, selected: map<string, int>) returns (defs: seq<RoleDef>)
    ensures defs == Chosen(roles, selected)
  {
    if |selected| == 0 { return roles; }
    defs := [];
    for i := 0 to |roles|
      invariant defs == Chosen(roles[..i], selected)
    {
      assert roles[..i + 1][..i] == roles[..i];
      var d := roles[i];
      if d.id in selected && selected[d.id] > 0 {
        defs := defs + [d.(count := Fixed(selected[d.id]))];
      }
    }
    assert roles[..|roles|] == roles;
  }

  method SumCounts(defs: seq<RoleDef>, players: int, explicit: bool) returns (total: int)
    ensures total == Total(defs, players, explicit)
  {
    total := 0;
    for i := 0 to |defs|
      invariant total == Total(defs[..i], players, explicit)
    {
      assert defs[..i + 1][..i] == defs[..i];
      if explicit || defs[i].minPlayers <= players {
        total := total + defs[i].count.Of(players);
      }
    }
    assert defs[..|defs|] == defs;
  }

  method TeamCounts(defs: seq<RoleDef>, players: int) returns (red: int, grey: int)
    ensures red == Total(OfTeam(defs, RED), players, true)
    ensures grey == Total(OfTeam(defs, GREY), players, true)
  {
    var redRoles := RolesOfTeam(defs, RED);
    var greyRoles := RolesOfTeam(defs, GREY);
    red := SumCounts(redRoles, players, true);
    grey := SumCounts(greyRoles, players, true);
  }

  /** The three teams hold every player exactly once. */
  ghost predicate Parts(players: seq<Player>, grey: seq<Player>, red: seq<Player>, blue: seq<Player>) {
    DistinctPlayers(grey + red + blue) && SameElements(players, grey + red + blue)
  }

  ghost predicate InTeam(ps: seq<Player>, c: TeamColor)
    reads ps
  {
    forall p :: p in ps ==> p.team == c
  }

  method SplitTeams(players: seq<Player>, greyCount: int, redCount: int)
    returns (grey: seq<Player>, red: seq<Player>, blue: seq<Player>)
    requires DistinctPlayers(players)
    modifies players
    ensures Parts(players, grey, red, blue) && |grey + red + blue| == |players|
    ensures InTeam(grey, TeamGrey) && InTeam(red, TeamRed) && InTeam(blue, TeamBlue)
    ensures forall p :: p in players ==> p.View() == old(p.View()).(team := p.team)
    ensures 0 <= greyCount && 0 <= redCount && greyCount + redCount <= |players| ==>
              |grey| == greyCount && |red| == redCount
  {
    var shuffled := Shuffle(players);
    grey, red, blue := SplitShuffled(shuffled, greyCount, redCount);
  }

  function Least(a: int, b: int): int {
    if a < b then a else b
  }

  function TeamAt(i: int, greyCount: int, redCount: int): TeamColor {
    if i < greyCount then TeamGrey else if i < greyCount + redCount then TeamRed else TeamBlue
  }

  method SetTeamsByCount(ps: seq<Player>, greyCount: int, redCount: int)
    requires DistinctPlayers(ps)
    modifies ps
    ensures forall i :: 0 <= i < |ps| ==> ps[i].View() == old(ps[i].View()).(team := TeamAt(i, greyCount, redCount))
  {
    for i := 0 to |ps|
      invariant forall j :: 0 <= j < i ==> ps[j].View() == old(ps[j].View()).(team := TeamAt(j, greyCount, redCount))
      invariant forall j :: i <= j < |ps| ==> ps[j].View() == old(ps[j].View())
    {
      if i < greyCount {
        ps[i].team := TeamGrey;
      } else if i < greyCount + redCount {
        ps[i].team := TeamRed;
      } else {
        ps[i].team := TeamBlue;
      }
    }
  }

  method SplitShuffled(ps: seq<Player>, greyCount: int, redCount: int)
    returns (grey: seq<Player>, red: seq<Player>, blue: seq<Player>)
    requires DistinctPlayers(ps)
    modifies ps
    ensures grey + red + blue == ps
    ensures InTeam(grey, TeamGrey) && InTeam(red, TeamRed) && InTeam(blue, TeamBlue)
    ensures forall p :: p in ps ==> p.View() == old(p.View()).(team := p.team)
    ensures 0 <= greyCount && 0 <= redCount && greyCount + redCount <= |ps| ==>
              |grey| == greyCount && |red| == redCount
  {
    SetTeamsByCount(ps, greyCount, redCount);
    var g := Least(Positive(greyCount), |ps|);
    var r := Least(if greyCount + redCount < g then g else greyCount + redCount, |ps|);
    grey, red, blue := ps[..g], ps[g..r], ps[r..];
    TeamsByPosition(ps, g, r);
  }

  lemma TeamsByPosition(ps: seq<Player>, g: nat, r: nat)
    requires g <= r <= |ps|
    requires forall j :: 0 <= j < |ps| ==> ps[j].team == if j < g then TeamGrey else if j < r then TeamRed else TeamBlue
    ensures ps[..g] + ps[g..r] + ps[r..] == ps
    ensures InTeam(ps[..g], TeamGrey) && InTeam(ps[g..r], TeamRed) && InTeam(ps[r..], TeamBlue)
  {
    assert ps[..g] + ps[g..r] + ps[r..] == ps;
  }

  // ----- all players -----

  /** Everybody holds a role of their own team. */
  predicate Assigned(ps: seq<PlayerView>) {
    forall i :: 0 <= i < |ps| ==> ps[i].team != NoTeam && ps[i].role.Some? && ps[i].role.value.team == ps[i].team
  }

  /** Deals the three teams their decks. */
  method DealTeams(grey: seq<Player>, red: seq<Player>, blue: seq<Player>, players: int, defs: seq<RoleDef>)
    returns (ghost greyOrder: seq<RoleDef>, ghost redOrder: seq<RoleDef>, ghost blueOrder: seq<RoleDef>)
    requires DistinctPlayers(grey + red + blue)
    modifies grey, red, blue
    ensures forall p :: p in grey || p in red || p in blue ==> p.View() == old(p.View()).(role := p.role)
    ensures DealtInOrder(Views(grey), GREY, players, defs, greyOrder)
    ensures DealtInOrder(Views(red), RED, players, defs, redOrder)
    ensures DealtInOrder(Views(blue), BLUE, players, defs, blueOrder)
  {
    PartsDistinct(grey, red, blue);
    redOrder := AssignTeamRoles(red, RED, players, defs);
    ghost var redDealt := Views(red);
    blueOrder := AssignTeamRoles(blue, BLUE, players, defs);
    ghost var blueDealt := Views(blue);
    greyOrder := AssignTeamRoles(grey, GREY, players, defs);
    assert Views(red) == redDealt && Views(blue) == blueDealt;
  }

  lemma PartsDistinct(grey: seq<Player>, red: seq<Player>, blue: seq<Player>)
    requires DistinctPlayers(grey + red + blue)
    ensures DistinctPlayers(grey) && DistinctPlayers(red) && DistinctPlayers(blue)
    ensures forall i, j :: 0 <= i < |grey| && 0 <= j < |red| ==> grey[i] != red[j]
    ensures forall i, j :: 0 <= i < |grey| && 0 <= j < |blue| ==> grey[i] != blue[j]
    ensures forall i, j :: 0 <= i < |red| && 0 <= j < |blue| ==> red[i] != blue[j]
  {
    var all, g, r := grey + red + blue, |grey|, |red|;
    assert grey == all[..g] && red == all[g..g + r] && blue == all[g + r..];
  }

  /** Everybody holds a role of their team as the definitions have it. */
  ghost predicate RolesAsDefined(ps: seq<PlayerView>, defs: seq<RoleDef>) {
    forall i :: 0 <= i < |ps| ==> HoldsDefined(ps[i], defs)
  }

  ghost predicate HoldsDefined(p: PlayerView, defs: seq<RoleDef>) {
    || (p.team == TeamRed && AsDefined(defs, RED, p.role))
    || (p.team == TeamBlue && AsDefined(defs, BLUE, p.role))
    || (p.team == TeamGrey && AsDefined(defs, GREY, p.role))
  }

  // ----- what a selection promises -----

  /** Red and grey are as large as the selection says, and every role is held as often as selected; the blue
      filler also by everybody for whom nothing was selected. */
  ghost predicate ExactSelection(ps: seq<PlayerView>, roles: seq<RoleDef>, selected: map<string, int>) {
    var defs := Chosen(roles, selected);
    && |Members(ps, TeamRed)| == Cards(OfTeam(defs, RED), |ps|)
    && |Members(ps, TeamGrey)| == Cards(OfTeam(defs, GREY), |ps|)
    && (forall id :: |Holders(ps, id)| == Wanted(roles, selected, id)
                     + if Filler(defs, BLUE).id == id then |ps| - Total(defs, |ps|, true) else 0)
  }

  /** The players of the three teams, each team in its own colour. */
  ghost predicate ThreeTeams(ps: seq<PlayerView>, grey: seq<PlayerView>, red: seq<PlayerView>, blue: seq<PlayerView>) {
    && Rules.Distinct(grey + red + blue) && SameElements(ps, grey + red + blue) && |ps| == |grey + red + blue|
    && (forall i :: 0 <= i < |grey| ==> grey[i].team == TeamGrey)
    && (forall i :: 0 <= i < |red| ==> red[i].team == TeamRed)
    && (forall i :: 0 <= i < |blue| ==> blue[i].team == TeamBlue)
  }

  lemma HoldersAppend(a: seq<PlayerView>, b: seq<PlayerView>, id: string)
    requires Rules.Distinct(a + b)
    ensures |Holders(a + b, id)| == |Holders(a, id)| + |Holders(b, id)|
  {
    var all := a + b;
    assert a == all[..|a|] && b == all[|a|..];
    assert Holders(all, id) == Holders(a, id) + Holders(b, id);
    assert Holders(a, id) !! Holders(b, id);
  }

  lemma ThreeTeamsHold(ps: seq<PlayerView>, grey: seq<PlayerView>, red: seq<PlayerView>, blue: seq<PlayerView>, id: string)
    requires ThreeTeams(ps, grey, red, blue)
    ensures |Holders(ps, id)| == |Holders(grey, id)| + |Holders(red, id)| + |Holders(blue, id)|
  {
    HoldersReordered(ps, grey + red + blue, id);
    HoldersAppend(grey + red, blue, id);
    assert grey + red == (grey + red + blue)[..|grey + red|];
    HoldersAppend(grey, red, id);
  }

  lemma ThreeTeamsSize(ps: seq<PlayerView>, grey: seq<PlayerView>, red: seq<PlayerView>, blue: seq<PlayerView>)
    requires ThreeTeams(ps, grey, red, blue)
    ensures |Members(ps, TeamRed)| == |red| && |Members(ps, TeamGrey)| == |grey|
  {
    var all := grey + red + blue;
    assert grey == all[..|grey|] && red == all[|grey|..|grey| + |red|];
    assert Rules.Distinct(grey) && Rules.Distinct(red);
    MembersReordered(ps, all, TeamRed);
    MembersReordered(ps, all, TeamGrey);
    MembersOfParts(grey, red, blue);
    IdsSize(red);
    IdsSize(grey);
  }

  lemma MembersReordered(ps: seq<PlayerView>, qs: seq<PlayerView>, c: TeamColor)
    requires SameElements(ps, qs)
    ensures Members(ps, c) == Members(qs, c)
  {
  }

  lemma MembersOfParts(grey: seq<PlayerView>, red: seq<PlayerView>, blue: seq<PlayerView>)
    requires forall i :: 0 <= i < |grey| ==> grey[i].team == TeamGrey
    requires forall i :: 0 <= i < |red| ==> red[i].team == TeamRed
    requires forall i :: 0 <= i < |blue| ==> blue[i].team == TeamBlue
    ensures Members(grey + red + blue, TeamRed) == Ids(red) && Members(grey + red + blue, TeamGrey) == Ids(grey)
  {
    var all := grey + red + blue;
    assert grey == all[..|grey|] && red == all[|grey|..|grey| + |red|] && blue == all[|grey| + |red|..];
  }

  /** The same for any definitions: every role is held as often as its count says. */
  ghost predicate ExactHolding(ps: seq<PlayerView>, defs: seq<RoleDef>) {
    && |Members(ps, TeamRed)| == Cards(OfTeam(defs, RED), |ps|)
    && |Members(ps, TeamGrey)| == Cards(OfTeam(defs, GREY), |ps|)
    && (forall id :: |Holders(ps, id)| == Share(defs, |ps|, id)
                     + if Filler(defs, BLUE).id == id then |ps| - Cards(defs, |ps|) else 0)
  }

  lemma {:induction false} TeamsAreExact(ps: seq<PlayerView>, defs: seq<RoleDef>,
                      grey: seq<PlayerView>, red: seq<PlayerView>, blue: seq<PlayerView>,
                      greyOrder: seq<RoleDef>, redOrder: seq<RoleDef>, blueOrder: seq<RoleDef>)
    requires ValidTeams(defs) && NonNegative(defs, |ps|) && Cards(defs, |ps|) <= |ps| && ThreeTeams(ps, grey, red, blue)
    requires |red| == Cards(OfTeam(defs, RED), |ps|) && |grey| == Cards(OfTeam(defs, GREY), |ps|)
    requires DealtInOrder(grey, GREY, |ps|, defs, greyOrder)
    requires DealtInOrder(red, RED, |ps|, defs, redOrder)
    requires DealtInOrder(blue, BLUE, |ps|, defs, blueOrder)
    ensures ExactHolding(ps, defs)
  {
    ThreeTeamsSize(ps, grey, red, blue);
    forall id ensures |Holders(ps, id)| == Share(defs, |ps|, id)
                      + if Filler(defs, BLUE).id == id then |ps| - Cards(defs, |ps|) else 0 {
      ThreeTeamsHold(ps, grey, red, blue, id);
      HeldExactly(|ps|, defs, grey, red, blue, greyOrder, redOrder, blueOrder, id);
    }
  }

  lemma {:induction false} HeldExactly(players: nat, defs: seq<RoleDef>,
                      grey: seq<PlayerView>, red: seq<PlayerView>, blue: seq<PlayerView>,
                      greyOrder: seq<RoleDef>, redOrder: seq<RoleDef>, blueOrder: seq<RoleDef>, id: string)
    requires ValidTeams(defs) && NonNegative(defs, players) && Cards(defs, players) <= players
    requires players == |grey| + |red| + |blue|
    requires |red| == Cards(OfTeam(defs, RED), players) && |grey| == Cards(OfTeam(defs, GREY), players)
    requires DealtInOrder(grey, GREY, players, defs, greyOrder)
    requires DealtInOrder(red, RED, players, defs, redOrder)
    requires DealtInOrder(blue, BLUE, players, defs, blueOrder)
    ensures |Holders(grey, id)| + |Holders(red, id)| + |Holders(blue, id)|
            == Share(defs, players, id) + if Filler(defs, BLUE).id == id then players - Cards(defs, players) else 0
  {
    DefinitionsExact(defs, players, id, redOrder, blueOrder, greyOrder);
  }

  lemma {:induction false} SelectionIsExact(ps: seq<PlayerView>, roles: seq<RoleDef>, selected: map<string, int>)
    requires DistinctIDs(roles) && ValidTeams(roles) && selected != map[] && ExactHolding(ps, Chosen(roles, selected))
    ensures ExactSelection(ps, roles, selected)
  {
    ChosenTotals(roles, selected, |ps|);
    forall id ensures Share(Chosen(roles, selected), |ps|, id) == Wanted(roles, selected, id) {
      ChosenShares(roles, selected, |ps|, id);
    }
  }

  // ----- without an explicit selection -----

  /** Nobody misses a role that is in play. */
  ghost predicate EveryRoleDealt(ps: seq<PlayerView>, defs: seq<RoleDef>) {
    forall id :: Share(defs, |ps|, id) <= |Holders(ps, id)|
  }

  /** The players whose role is one of these. */
  function HoldersOfAny(ps: seq<PlayerView>, defs: seq<RoleDef>): set<Id> {
    set i | 0 <= i < |ps| && ps[i].role.Some? && (exists d :: d in defs && d.id == ps[i].role.value.id) :: ps[i].id
  }

  lemma {:induction false} RolesNeedPlayers(ps: seq<PlayerView>, defs: seq<RoleDef>)
    requires Rules.Distinct(ps) && DistinctIDs(defs)
    requires forall d :: d in defs ==> Positive(d.count.Of(|ps|)) <= |Holders(ps, d.id)|
    ensures Cards(defs, |ps|) <= |HoldersOfAny(ps, defs)|
  {
    if defs == [] {
    } else {
      var last, rest := defs[|defs| - 1], defs[..|defs| - 1];
      assert defs == rest + [last];
      assert last in defs && last !in rest;
      assert forall i :: 0 <= i < |rest| ==> rest[i] == defs[i];
      assert forall d :: d in rest ==> d in defs && d.id != last.id;
      RolesNeedPlayers(ps, rest);
      HoldersOfOneMore(ps, rest, last);
    }
  }

  lemma HoldersOfOneMore(ps: seq<PlayerView>, rest: seq<RoleDef>, last: RoleDef)
    requires Rules.Distinct(ps) && forall d :: d in rest ==> d.id != last.id
    ensures |HoldersOfAny(ps, rest + [last])| == |HoldersOfAny(ps, rest)| + |Holders(ps, last.id)|
  {
    var some, more := HoldersOfAny(ps, rest), Holders(ps, last.id);
    assert HoldersOfAny(ps, rest + [last]) == some + more by {
      assert forall d :: d in rest + [last] <==> d in rest || d == last;
    }
    assert some !! more;
  }

  /** There must be as many players as cards. */
  lemma {:induction false} EveryRoleFits(ps: seq<PlayerView>, defs: seq<RoleDef>)
    requires Rules.Distinct(ps) && DistinctIDs(defs) && EveryRoleDealt(ps, defs)
    ensures Cards(defs, |ps|) <= |ps|
  {
    forall d | d in defs ensures Positive(d.count.Of(|ps|)) <= |Holders(ps, d.id)| {
      ShareCovers(defs, |ps|, d);
      assert Share(defs, |ps|, d.id) <= |Holders(ps, d.id)|;
    }
    RolesNeedPlayers(ps, defs);
    assert Ids(ps) == HoldersOfAny(ps, defs) + (Ids(ps) - HoldersOfAny(ps, defs));
    IdsSize(ps);
  }

  /** What a configuration promises: an explicit selection is dealt exactly; all of its roles are dealt exactly if
      there are no more cards than players, and otherwise some role is missing. */
  ghost predicate ExactByConfig(ps: seq<PlayerView>, roles: seq<RoleDef>, selected: map<string, int>) {
    if selected != map[] then ExactSelection(ps, roles, selected)
    else NonNegative(roles, |ps|) ==>
           && (EveryRoleDealt(ps, roles) <==> Cards(roles, |ps|) <= |ps|)
           && (Cards(roles, |ps|) <= |ps| ==> ExactHolding(ps, roles))
  }

  /** Everybody has a role of their team as the configuration defines it, in the numbers it promises. */
  ghost predicate DealtByConfig(ps: seq<PlayerView>, roles: seq<RoleDef>, selected: map<string, int>) {
    && Assigned(ps) && RolesAsDefined(ps, Chosen(roles, selected))
    && (DistinctIDs(roles) && ValidTeams(roles) ==> ExactByConfig(ps, roles, selected))
  }

  lemma {:induction false} AllRolesExactIff(ps: seq<PlayerView>, roles: seq<RoleDef>)
    requires Rules.Distinct(ps) && DistinctIDs(roles)
    requires NonNegative(roles, |ps|) && Cards(roles, |ps|) <= |ps| ==> ExactHolding(ps, roles)
    ensures ExactByConfig(ps, roles, map[])
  {
    if EveryRoleDealt(ps, roles) {
      EveryRoleFits(ps, roles);
    }
  }

  lemma TeamsAreAssigned(ps: seq<PlayerView>, players: int, defs: seq<RoleDef>,
                         grey: seq<PlayerView>, red: seq<PlayerView>, blue: seq<PlayerView>,
                         greyOrder: seq<RoleDef>, redOrder: seq<RoleDef>, blueOrder: seq<RoleDef>)
    requires ThreeTeams(ps, grey, red, blue)
    requires DealtInOrder(grey, GREY, players, defs, greyOrder)
    requires DealtInOrder(red, RED, players, defs, redOrder)
    requires DealtInOrder(blue, BLUE, players, defs, blueOrder)
    ensures Assigned(ps)
  {
    var all := grey + red + blue;
    assert Assigned(all);
    forall i | 0 <= i < |ps| ensures ps[i].team != NoTeam && ps[i].role.Some? && ps[i].role.value.team == ps[i].team {
      assert ps[i] in all;
      var k :| 0 <= k < |all| && all[k] == ps[i];
    }
  }

  lemma TeamsAreDefined(ps: seq<PlayerView>, players: int, defs: seq<RoleDef>,
                        grey: seq<PlayerView>, red: seq<PlayerView>, blue: seq<PlayerView>,
                        greyOrder: seq<RoleDef>, redOrder: seq<RoleDef>, blueOrder: seq<RoleDef>)
    requires ThreeTeams(ps, grey, red, blue)
    requires DealtInOrder(grey, GREY, players, defs, greyOrder)
    requires DealtInOrder(red, RED, players, defs, redOrder)
    requires DealtInOrder(blue, BLUE, players, defs, blueOrder)
    ensures RolesAsDefined(ps, defs)
  {
    var all := grey + red + blue;
    forall k | 0 <= k < |all| ensures HoldsDefined(all[k], defs) {
      if k < |grey| {
        assert all[k] == grey[k] && HoldsCard(grey[k], GREY, defs);
      } else if k < |grey| + |red| {
        assert all[k] == red[k - |grey|] && HoldsCard(red[k - |grey|], RED, defs);
      } else {
        assert all[k] == blue[k - |grey| - |red|] && HoldsCard(blue[k - |grey| - |red|], BLUE, defs);
      }
    }
    forall i | 0 <= i < |ps| ensures HoldsDefined(ps[i], defs) {
      assert ps[i] in all;
      var k :| 0 <= k < |all| && all[k] == ps[i];
    }
  }

  /** Deals from a configuration.  Every error is found before any player is touched. */
  method AssignRolesWithConfig(players: seq<Player>, config: Option<Config>, selected: map<string, int>)
    returns (error: Option<Error>)
    requires DistinctPlayers(players)
    modifies players
    ensures error == if config.None? then Some(ConfigNotFound)
                     else if Total(Chosen(config.value.roles, selected), |players|, selected != map[]) > |players|
                     then Some(TooManyRoles) else None
    ensures error.Some? ==> Views(players) == old(Views(players))
    ensures error == None ==> OnlyTeamsAndRoles(old(Views(players)), Views(players))
    ensures error == None ==> DealtByConfig(Views(players), config.value.roles, selected)
  {
    if config.None? { return Some(ConfigNotFound); }
    var roles := config.value.roles;
    var defs := ChooseRoles(roles, selected);
    var total := SumCounts(defs, |players|, |selected| > 0);
    assert |selected| > 0 <==> selected != map[];
    if total > |players| { return Some(TooManyRoles); }
    DealConfig(players, roles, selected, defs);
    return None;
  }

  method DealConfig(players: seq<Player>, roles: seq<RoleDef>, selected: map<string, int>, defs: seq<RoleDef>)
    requires DistinctPlayers(players) && defs == Chosen(roles, selected)
    requires Total(defs, |players|, selected != map[]) <= |players|
    modifies players
    ensures OnlyTeamsAndRoles(old(Views(players)), Views(players))
    ensures DealtByConfig(Views(players), roles, selected)
  {
    var redCount, greyCount := TeamCounts(defs, |players|);
    var grey, red, blue := SplitTeams(players, greyCount, redCount);
    PartsWithin(players, grey, red, blue);
    DealSplit(players, roles, selected, defs, grey, red, blue);
  }

  /** Deals to the teams once they are split. */
  method DealSplit(players: seq<Player>, ghost roles: seq<RoleDef>, ghost selected: map<string, int>, defs: seq<RoleDef>,
                   grey: seq<Player>, red: seq<Player>, blue: seq<Player>)
    requires DistinctPlayers(players) && defs == Chosen(roles, selected)
    requires Total(defs, |players|, selected != map[]) <= |players|
    requires Parts(players, grey, red, blue) && |grey + red + blue| == |players|
    requires InTeam(grey, TeamGrey) && InTeam(red, TeamRed) && InTeam(blue, TeamBlue)
    requires var r, g := Total(OfTeam(defs, RED), |players|, true), Total(OfTeam(defs, GREY), |players|, true);
             0 <= r && 0 <= g && r + g <= |players| ==> |red| == r && |grey| == g
    modifies grey, red, blue
    ensures forall p :: p in grey || p in red || p in blue ==> p.View() == old(p.View()).(role := p.role)
    ensures DealtByConfig(Views(players), roles, selected)
  {
    ghost var greyOrder, redOrder, blueOrder := DealTeams(grey, red, blue, |players|, defs);
    PartsAreTeams(players, grey, red, blue);
    TeamsDealt(Views(players), roles, selected, Views(grey), Views(red), Views(blue), greyOrder, redOrder, blueOrder);
  }

  lemma PartsWithin(players: seq<Player>, grey: seq<Player>, red: seq<Player>, blue: seq<Player>)
    requires Parts(players, grey, red, blue)
    ensures forall i :: 0 <= i < |grey| ==> grey[i] in players
    ensures forall i :: 0 <= i < |red| ==> red[i] in players
    ensures forall i :: 0 <= i < |blue| ==> blue[i] in players
    ensures forall p :: p in players ==> p in grey || p in red || p in blue
  {
    var all, g, r := grey + red + blue, |grey|, |red|;
    assert grey == all[..g] && red == all[g..g + r] && blue == all[g + r..];
  }

  lemma TeamsDealt(ps: seq<PlayerView>, roles: seq<RoleDef>, selected: map<string, int>,
                   grey: seq<PlayerView>, red: seq<PlayerView>, blue: seq<PlayerView>,
                   greyOrder: seq<RoleDef>, redOrder: seq<RoleDef>, blueOrder: seq<RoleDef>)
    requires Rules.Distinct(ps) && ThreeTeams(ps, grey, red, blue)
    requires var defs, n := Chosen(roles, selected), |ps|;
             && DealtInOrder(grey, GREY, n, defs, greyOrder)
             && DealtInOrder(red, RED, n, defs, redOrder)
             && DealtInOrder(blue, BLUE, n, defs, blueOrder)
             && Total(defs, n, selected != map[]) <= n
             && var r, g := Total(OfTeam(defs, RED), n, true), Total(OfTeam(defs, GREY), n, true);
                (0 <= r && 0 <= g && r + g <= n ==> |red| == r && |grey| == g)
    ensures DealtByConfig(ps, roles, selected)
  {
    var defs := Chosen(roles, selected);
    TeamsAreAssigned(ps, |ps|, defs, grey, red, blue, greyOrder, redOrder, blueOrder);
    TeamsAreDefined(ps, |ps|, defs, grey, red, blue, greyOrder, redOrder, blueOrder);
    if DistinctIDs(roles) && ValidTeams(roles) {
      if selected != map[] {
        ChosenTotals(roles, selected, |ps|);
      }
      if NonNegative(defs, |ps|) && Cards(defs, |ps|) <= |ps| {
        TeamCardsFit(defs, |ps|);
        TeamsAreExact(ps, defs, grey, red, blue, greyOrder, redOrder, blueOrder);
      }
      if selected != map[] {
        SelectionIsExact(ps, roles, selected);
      } else {
        AllRolesExactIff(ps, roles);
      }
    }
  }

  lemma PartsAreTeams(players: seq<Player>, grey: seq<Player>, red: seq<Player>, blue: seq<Player>)
    requires Parts(players, grey, red, blue) && |players| == |grey + red + blue|
    requires InTeam(grey, TeamGrey) && InTeam(red, TeamRed) && InTeam(blue, TeamBlue)
    ensures ThreeTeams(Views(players), Views(grey), Views(red), Views(blue))
  {
    var all := grey + red + blue;
    assert Views(all) == Views(grey) + Views(red) + Views(blue);
    forall p ensures p in players <==> p in all {}
    ViewsReordered(players, all);
  }

  lemma TeamCardsFit(defs: seq<RoleDef>, players: nat)
    requires ValidTeams(defs) && NonNegative(defs, players) && Cards(defs, players) <= players
    ensures Total(OfTeam(defs, RED), players, true) == Cards(OfTeam(defs, RED), players)
    ensures Total(OfTeam(defs, GREY), players, true) == Cards(OfTeam(defs, GREY), players)
    ensures Cards(OfTeam(defs, RED), players) + Cards(OfTeam(defs, GREY), players) <= players
  {
    MembersOfTeam(defs, RED);
    MembersOfTeam(defs, GREY);
    TeamTotal(OfTeam(defs, RED), players);
    TeamTotal(OfTeam(defs, GREY), players);
    TeamsShare(defs, players, "");
  }

  // ----- the built-in roles -----

  /** One leader and `spies` spies in each team; everybody else is an operative. */
  predicate BuiltInExact(ps: seq<PlayerView>, spies: nat) {
    var red := |Members(ps, TeamRed)|;
    && |Holders(ps, "BOMBER")| == 1 && |Holders(ps, "RED_SPY")| == spies
    && |Holders(ps, "RED_OPERATIVE")| == red - 1 - spies
    && |Holders(ps, "PRESIDENT")| == 1 && |Holders(ps, "BLUE_SPY")| == spies
    && |Holders(ps, "BLUE_OPERATIVE")| == |ps| - red - 1 - spies
  }

  /** The leader's role to the first player, then the spies, then operatives. */
  method DealBuiltIn(team: seq<Player>, leader: Role, spy: Role, operative: Role, spies: nat)
    requires DistinctPlayers(team)
    modifies team
    ensures forall i :: 0 <= i < |team| ==> team[i].View() == old(team[i].View()).(role := team[i].role)
    ensures Dealt(Views(team), BuiltInDeck(|team|, leader, spy, operative, spies))
  {
    if |team| > 0 {
      var next := DealCopies(team, 0, leader, 1);
      next := DealCopies(team, next, spy, spies);
      next := DealCopies(team, next, operative, |team| - next);
    }
  }

  /** Splits the players by team, everybody who is not red on the blue side. */
  method SplitByTeam(players: seq<Player>) returns (red: seq<Player>, blue: seq<Player>)
    requires DistinctPlayers(players)
    ensures Parts(players, [], red, blue) && |red| + |blue| == |players|
    ensures forall p :: p in red ==> p.team == TeamRed
    ensures forall p :: p in blue ==> p.team != TeamRed
  {
    red, blue := [], [];
    for i := 0 to |players|
      invariant DistinctPlayers(red) && DistinctPlayers(blue) && |red| + |blue| == i
      invariant forall j, k :: 0 <= j < |red| && 0 <= k < |blue| ==> red[j].id != blue[k].id
      invariant forall j, k :: 0 <= j < |red| && i <= k < |players| ==> red[j].id != players[k].id
      invariant forall j, k :: 0 <= j < |blue| && i <= k < |players| ==> blue[j].id != players[k].id
      invariant forall j :: 0 <= j < |red| ==> red[j] in players && red[j].team == TeamRed
      invariant forall j :: 0 <= j < |blue| ==> blue[j] in players && blue[j].team != TeamRed
      invariant forall j :: 0 <= j < i ==> players[j] in red || players[j] in blue
    {
      if players[i].team == TeamRed {
        red := red + [players[i]];
      } else {
        blue := blue + [players[i]];
      }
    }
    BothAreParts(players, red, blue);
  }

  lemma BothAreParts(players: seq<Player>, red: seq<Player>, blue: seq<Player>)
    requires DistinctPlayers(red) && DistinctPlayers(blue)
    requires forall j, k :: 0 <= j < |red| && 0 <= k < |blue| ==> red[j].id != blue[k].id
    requires forall j :: 0 <= j < |red| ==> red[j] in players
    requires forall j :: 0 <= j < |blue| ==> blue[j] in players
    requires forall j :: 0 <= j < |players| ==> players[j] in red || players[j] in blue
    ensures Parts(players, [], red, blue)
  {
    assert [] + red + blue == red + blue;
  }

  function RedDeck(size: nat, spies: nat): seq<Role> {
    BuiltInDeck(size, BOMBER, RED_SPY, RED_OPERATIVE, spies)
  }

  function BlueDeck(size: nat, spies: nat): seq<Role> {
    BuiltInDeck(size, PRESIDENT, BLUE_SPY, BLUE_OPERATIVE, spies)
  }

  /** Everybody holds one of the six built-in roles: the bomber leads the red team and the president the blue one. */
  predicate BuiltInRoles(ps: seq<PlayerView>) {
    forall i :: 0 <= i < |ps| ==>
      ps[i].role in {
        Some(Role("BOMBER", TeamRed, false, true)), Some(Role("RED_SPY", TeamRed, true, false)),
        Some(Role("RED_OPERATIVE", TeamRed, false, false)), Some(Role("PRESIDENT", TeamBlue, false, true)),
        Some(Role("BLUE_SPY", TeamBlue, true, false)), Some(Role("BLUE_OPERATIVE", TeamBlue, false, false))}
  }

  lemma BuiltInDecks(ps: seq<PlayerView>, red: seq<PlayerView>, blue: seq<PlayerView>, spies: nat)
    requires SameElements(ps, [] + red + blue)
    requires Dealt(red, RedDeck(|red|, spies)) && Dealt(blue, BlueDeck(|blue|, spies))
    ensures BuiltInRoles(ps)
  {
    var all := [] + red + blue;
    assert BuiltInRoles(red) && BuiltInRoles(blue);
    assert BuiltInRoles(all);
    forall i | 0 <= i < |ps| ensures BuiltInRoles([ps[i]]) {
      assert ps[i] in all;
      var k :| 0 <= k < |all| && all[k] == ps[i];
    }
    assert forall i :: 0 <= i < |ps| ==> [ps[i]][0] == ps[i];
  }

  lemma BuiltInAssigned(ps: seq<PlayerView>, red: seq<PlayerView>, blue: seq<PlayerView>, spies: nat)
    requires ThreeTeams(ps, [], red, blue)
    requires Dealt(red, RedDeck(|red|, spies)) && Dealt(blue, BlueDeck(|blue|, spies))
    ensures Assigned(ps)
  {
    var all := [] + red + blue;
    assert Assigned(red) && Assigned(blue);
    forall i | 0 <= i < |ps| ensures ps[i].team != NoTeam && ps[i].role.Some? && ps[i].role.value.team == ps[i].team {
      assert ps[i] in all;
      var k :| 0 <= k < |all| && all[k] == ps[i];
    }
  }

  lemma TwoTeamsDistinct(red: seq<PlayerView>, blue: seq<PlayerView>)
    requires Rules.Distinct([] + red + blue)
    ensures Rules.Distinct(red) && Rules.Distinct(blue)
  {
    assert red == ([] + red + blue)[..|red|] && blue == ([] + red + blue)[|red|..];
  }

  lemma BuiltInHeldAs(ps: seq<PlayerView>, red: seq<PlayerView>, blue: seq<PlayerView>, spies: nat, id: string)
    requires ThreeTeams(ps, [], red, blue) && |red| > spies && |blue| > spies
    requires Dealt(red, RedDeck(|red|, spies)) && Dealt(blue, BlueDeck(|blue|, spies))
    ensures |Holders(ps, id)|
            == (if id == "BOMBER" || id == "PRESIDENT" then 1 else 0)
               + (if id == "RED_SPY" || id == "BLUE_SPY" then spies else 0)
               + (if id == "RED_OPERATIVE" then |red| - 1 - spies else 0)
               + (if id == "BLUE_OPERATIVE" then |blue| - 1 - spies else 0)
  {
    TwoTeamsDistinct(red, blue);
    ThreeTeamsHold(ps, [], red, blue, id);
    HoldersCount(red, RedDeck(|red|, spies), id);
    HoldersCount(blue, BlueDeck(|blue|, spies), id);
    DecksHold(|red|, |blue|, spies, id);
  }

  lemma DecksHold(red: nat, blue: nat, spies: nat, id: string)
    requires red > spies && blue > spies
    ensures CountCards(RedDeck(red, spies), id) + CountCards(BlueDeck(blue, spies), id)
            == (if id == "BOMBER" || id == "PRESIDENT" then 1 else 0)
               + (if id == "RED_SPY" || id == "BLUE_SPY" then spies else 0)
               + (if id == "RED_OPERATIVE" then red - 1 - spies else 0)
               + (if id == "BLUE_OPERATIVE" then blue - 1 - spies else 0)
  {
    BuiltInCounts(red, BOMBER, RED_SPY, RED_OPERATIVE, spies, id);
    BuiltInCounts(blue, PRESIDENT, BLUE_SPY, BLUE_OPERATIVE, spies, id);
  }

  lemma BuiltInHeld(ps: seq<PlayerView>, red: seq<PlayerView>, blue: seq<PlayerView>, spies: nat)
    requires ThreeTeams(ps, [], red, blue) && |red| > spies && |blue| > spies
    requires Dealt(red, RedDeck(|red|, spies)) && Dealt(blue, BlueDeck(|blue|, spies))
    ensures BuiltInExact(ps, spies)
  {
    ThreeTeamsSize(ps, [], red, blue);
    BuiltInHeldAs(ps, red, blue, spies, "BOMBER");
    BuiltInHeldAs(ps, red, blue, spies, "RED_SPY");
    BuiltInHeldAs(ps, red, blue, spies, "RED_OPERATIVE");
    BuiltInHeldAs(ps, red, blue, spies, "PRESIDENT");
    BuiltInHeldAs(ps, red, blue, spies, "BLUE_SPY");
    BuiltInHeldAs(ps, red, blue, spies, "BLUE_OPERATIVE");
  }

  method AssignRoles(players: seq<Player>)
    requires DistinctPlayers(players)
    modifies players
    ensures OnlyRoles(old(Views(players)), Views(players))
    ensures InTwoTeams(Views(players)) ==>
              && Assigned(Views(players))
              && BuiltInRoles(Views(players))
              && var spies, red := if |players| >= 10 then 2 else 1, |Members(Views(players), TeamRed)|;
                 (red > spies && |players| - red > spies ==> BuiltInExact(Views(players), spies))
  {
    var red, blue := ShuffledTeams(players);
    PartsWithin(players, [], red, blue);
    PartsDistinct([], red, blue);
    var spies := if |players| >= 10 then 2 else 1;
    DealBothTeams(red, blue, spies);
    BuiltInDealt(players, red, blue, spies);
  }

  method DealBothTeams(red: seq<Player>, blue: seq<Player>, spies: nat)
    requires DistinctPlayers(red) && DistinctPlayers(blue)
    requires forall j, k :: 0 <= j < |red| && 0 <= k < |blue| ==> red[j].id != blue[k].id
    modifies red, blue
    ensures forall p :: p in red || p in blue ==> p.View() == old(p.View()).(role := p.role)
    ensures Dealt(Views(red), RedDeck(|red|, spies)) && Dealt(Views(blue), BlueDeck(|blue|, spies))
  {
    DealBuiltIn(red, BOMBER, RED_SPY, RED_OPERATIVE, spies);
    ghost var redDealt := Views(red);
    DealBuiltIn(blue, PRESIDENT, BLUE_SPY, BLUE_OPERATIVE, spies);
    assert Views(red) == redDealt;
  }

  lemma BuiltInDealt(players: seq<Player>, red: seq<Player>, blue: seq<Player>, spies: nat)
    requires Parts(players, [], red, blue) && |players| == |red| + |blue|
    requires InTeam(red, TeamRed) && forall p :: p in blue ==> p.team != TeamRed
    requires Dealt(Views(red), RedDeck(|red|, spies)) && Dealt(Views(blue), BlueDeck(|blue|, spies))
    ensures InTwoTeams(Views(players)) ==>
              && Assigned(Views(players)) && BuiltInRoles(Views(players))
              && var size := |Members(Views(players), TeamRed)|;
                 (size > spies && |players| - size > spies ==> BuiltInExact(Views(players), spies))
  {
    if InTwoTeams(Views(players)) {
      PartsWithin(players, [], red, blue);
      assert |[] + red + blue| == |players|;
      assert InTeam(blue, TeamBlue) by {
        forall i | 0 <= i < |blue| ensures blue[i].team == TeamBlue {
          assert blue[i] in players && blue[i] in blue;
          var k :| 0 <= k < |players| && players[k] == blue[i];
          assert Views(players)[k].team == blue[i].team;
        }
      }
      PartsAreTeams(players, [], red, blue);
      assert Views([]) == [];
      ThreeTeamsSize(Views(players), [], Views(red), Views(blue));
      BuiltInAssigned(Views(players), Views(red), Views(blue), spies);
      BuiltInDecks(Views(players), Views(red), Views(blue), spies);
      if |red| > spies && |blue| > spies {
        BuiltInHeld(Views(players), Views(red), Views(blue), spies);
      }
    }
  }

  method ShuffledTeams(players: seq<Player>) returns (red: seq<Player>, blue: seq<Player>)
    requires DistinctPlayers(players)
    ensures Parts(players, [], red, blue) && |red| + |blue| == |players|
    ensures forall p :: p in red ==> p.team == TeamRed
    ensures forall p :: p in blue ==> p.team != TeamRed
  {
    var redTeam, blueTeam := SplitByTeam(players);
    PartsDistinct([], redTeam, blueTeam);
    red := Shuffle(redTeam);
    blue := Shuffle(blueTeam);
    PartsShuffled(players, redTeam, blueTeam, red, blue);
  }

  lemma PartsShuffled(players: seq<Player>, red: seq<Player>, blue: seq<Player>, red': seq<Player>, blue': seq<Player>)
    requires Parts(players, [], red, blue) && DistinctPlayers(red') && DistinctPlayers(blue')
    requires forall p :: p in red' <==> p in red
    requires forall p :: p in blue' <==> p in blue
    ensures Parts(players, [], red', blue')
  {
    var all, all' := [] + red + blue, [] + red' + blue';
    forall i, j | 0 <= i < |red'| && 0 <= j < |blue'| ensures red'[i].id != blue'[j].id {
      assert red'[i] in red && blue'[j] in blue;
      var k :| 0 <= k < |red| && red[k] == red'[i];
      var l :| 0 <= l < |blue| && blue[l] == blue'[j];
      assert all[k] == red[k] && all[|red| + l] == blue[l];
    }
    forall p ensures p in all <==> p in all' {
      assert (p in all <==> p in red || p in blue) && (p in all' <==> p in red' || p in blue');
    }
    forall i | 0 <= i < |all'| ensures all'[i] in players {
      assert all'[i] in all;
    }
  }

  // ----- the game -----

  /** The configuration cannot deal these players, so the built-in roles are dealt instead. */
  predicate FallsBack(config: Option<Config>, selected: map<string, int>, players: nat) {
    config.None? || Total(Chosen(config.value.roles, selected), players, selected != map[]) > players
  }

  /** That is: there is none, or it has more cards than there are players, counting the selected roles as often as they
      were selected, and without a selection the roles for games of this size. */
  lemma FallsBackIff(config: Option<Config>, selected: map<string, int>, players: nat)
    requires config.Some? ==> ValidTeams(config.value.roles) && NonNegative(config.value.roles, players)
    ensures FallsBack(config, selected, players) <==>
              || config.None?
              || (selected != map[] && Cards(Chosen(config.value.roles, selected), players) > players)
              || (selected == map[] && Cards(Playable(config.value.roles, players), players) > players)
  {
    if config.Some? {
      if selected != map[] {
        ChosenTotals(config.value.roles, selected, players);
      } else {
        TotalSkips(config.value.roles, players);
      }
    }
  }

  /** What the deal promises about the roles, on each of its two paths. */
  ghost predicate ExactDeal(ps: seq<PlayerView>, config: Option<Config>, selected: map<string, int>) {
    if FallsBack(config, selected, |ps|) then BuiltInDeal(ps) else ConfigDeal(ps, config.value, selected)
  }

  ghost predicate BuiltInDeal(ps: seq<PlayerView>) {
    && |Members(ps, TeamRed)| == |ps| - |ps| / 2
    && |Members(ps, TeamBlue)| == |ps| / 2
    && BuiltInRoles(ps) && BuiltInExact(ps, if |ps| >= 10 then 2 else 1)
  }

  ghost predicate ConfigDeal(ps: seq<PlayerView>, config: Config, selected: map<string, int>) {
    && RolesAsDefined(ps, Chosen(config.roles, selected))
    && (ValidConfig(config) ==> ExactByConfig(ps, config.roles, selected))
  }

  /** Teams and roles for everybody. */
  method AssignTeamsAndRoles(players: seq<Player>, config: Option<Config>, selected: map<string, int>)
    requires DistinctPlayers(players) && |players| >= 6
    modifies players
    ensures OnlyTeamsAndRoles(old(Views(players)), Views(players))
    ensures Assigned(Views(players)) && ExactDeal(Views(players), config, selected)
  {
    AssignTeams(players);
    var error := AssignRolesWithConfig(players, config, selected);
    if error.Some? {
      FallBack(players, config, selected);
    } else {
      ConfigExact(Views(players), config, selected);
    }
  }

  /** The built-in roles for the teams as first split. */
  method FallBack(players: seq<Player>, ghost config: Option<Config>, ghost selected: map<string, int>)
    requires DistinctPlayers(players) && |players| >= 6 && FallsBack(config, selected, |players|)
    requires InTwoTeams(Views(players))
    requires |Members(Views(players), TeamRed)| == |players| - |players| / 2
    requires |Members(Views(players), TeamBlue)| == |players| / 2
    modifies players
    ensures OnlyRoles(old(Views(players)), Views(players))
    ensures Assigned(Views(players)) && ExactDeal(Views(players), config, selected)
  {
    ghost var teams := Views(players);
    AssignRoles(players);
    FallbackExact(teams, Views(players), config, selected);
  }

  lemma FallbackExact(teams: seq<PlayerView>, ps: seq<PlayerView>, config: Option<Config>, selected: map<string, int>)
    requires OnlyRoles(teams, ps) && |ps| >= 6 && FallsBack(config, selected, |ps|)
    requires |Members(teams, TeamRed)| == |ps| - |ps| / 2 && |Members(teams, TeamBlue)| == |ps| / 2
    requires BuiltInRoles(ps)
    requires var spies, red := if |ps| >= 10 then 2 else 1, |Members(ps, TeamRed)|;
             red > spies && |ps| - red > spies ==> BuiltInExact(ps, spies)
    ensures ExactDeal(ps, config, selected)
  {
    MembersKept(teams, ps);
  }

  lemma ConfigExact(ps: seq<PlayerView>, config: Option<Config>, selected: map<string, int>)
    requires !FallsBack(config, selected, |ps|) && DealtByConfig(ps, config.value.roles, selected)
    ensures Assigned(ps) && ExactDeal(ps, config, selected)
  {
    if ValidConfig(config.value) {
      ValidRoles(config.value);
    }
  }

  lemma MembersKept(ps: seq<PlayerView>, qs: seq<PlayerView>)
    requires OnlyRoles(ps, qs)
    ensures forall c :: Members(ps, c) == Members(qs, c)
  {
  }

  lemma ValidRoles(c: Config)
    requires ValidConfig(c)
    ensures DistinctIDs(c.roles) && ValidTeams(c.roles)
  {
    assert forall i, j :: 0 <= i < j < |c.roles| ==> Compatible(c.roles[i], c.roles[j]);
  }

  /** Everybody is dealt in, exactly as promised. */
  ghost predicate GoodDeal(before: seq<PlayerView>, after: seq<PlayerView>, config: Option<Config>, selected: map<string, int>) {
    Rules.IsDeal(before, after) && ExactDeal(after, config, selected)
  }

  /** `before` are the players as they were, and `dealt` as they are after the deal. */
  method DealPlayers(players: seq<Player>, config: Option<Config>, selected: map<string, int>, ghost before: seq<PlayerView>)
    returns (ghost dealt: seq<PlayerView>)
    requires DistinctPlayers(players) && |players| >= 6 && before == Views(players)
    modifies players
    ensures dealt == Views(players) && Rules.EvenSplit(dealt)
    ensures forall after :: after == dealt ==> GoodDeal(before, after, config, selected)
  {
    AssignTeamsAndRoles(players, config, selected);
    ghost var teamed := Views(players);
    AssignRooms(players);
    dealt := Views(players);
    RoomsKeepDeal(teamed, dealt, config, selected);
    IsDealt(before, teamed, dealt);
  }

  lemma IsDealt(before: seq<PlayerView>, dealt: seq<PlayerView>, after: seq<PlayerView>)
    requires OnlyTeamsAndRoles(before, dealt) && OnlyRooms(dealt, after)
    requires Assigned(after) && Rules.EvenSplit(after)
    ensures Rules.IsDeal(before, after)
  {
  }

  lemma RoomsKeepDeal(ps: seq<PlayerView>, qs: seq<PlayerView>, config: Option<Config>, selected: map<string, int>)
    requires OnlyRooms(ps, qs)
    requires Assigned(ps) && ExactDeal(ps, config, selected)
    ensures Assigned(qs) && ExactDeal(qs, config, selected)
  {
    if FallsBack(config, selected, |ps|) {
      RoomsKeepBuiltIn(ps, qs);
    } else {
      RoomsKeepConfig(ps, qs, config.value, selected);
    }
  }

  lemma RoomsKeepBuiltIn(ps: seq<PlayerView>, qs: seq<PlayerView>)
    requires OnlyRooms(ps, qs) && BuiltInDeal(ps)
    ensures BuiltInDeal(qs)
  {
    assert forall c :: Members(ps, c) == Members(qs, c);
    assert forall id :: Holders(ps, id) == Holders(qs, id);
  }

  lemma RoomsKeepConfig(ps: seq<PlayerView>, qs: seq<PlayerView>, config: Config, selected: map<string, int>)
    requires OnlyRooms(ps, qs) && ConfigDeal(ps, config, selected)
    ensures ConfigDeal(qs, config, selected)
  {
    RoomsKeepRoles(ps, qs, Chosen(config.roles, selected));
    if ValidConfig(config) {
      RoomsKeepExact(ps, qs, config.roles, selected);
    }
  }

  lemma RoomsKeepRoles(ps: seq<PlayerView>, qs: seq<PlayerView>, defs: seq<RoleDef>)
    requires OnlyRooms(ps, qs) && RolesAsDefined(ps, defs)
    ensures RolesAsDefined(qs, defs)
  {
    forall i | 0 <= i < |qs| ensures HoldsDefined(qs[i], defs) {
      assert HoldsDefined(ps[i], defs);
    }
  }

  lemma RoomsKeepExact(ps: seq<PlayerView>, qs: seq<PlayerView>, roles: seq<RoleDef>, selected: map<string, int>)
    requires OnlyRooms(ps, qs) && ExactByConfig(ps, roles, selected)
    ensures ExactByConfig(qs, roles, selected)
  {
    assert forall c :: Members(ps, c) == Members(qs, c);
    assert forall id :: Holders(ps, id) == Holders(qs, id);
  }

  method AttachSession(room: Room, sessionID: Id)
    modifies room`status, room`gameSession
    ensures room.gameSession != null && fresh(room.gameSession) && room.gameSession.roundState == null
    ensures room.View() == RoomView(InProgress, old(Views(room.players)), Some(SessionView(sessionID, 0, None)))
  {
    room.status := InProgress;
    room.gameSession := new GameSession(sessionID);
  }

  function WithSession(r: RoomView, sessionID: Id): RoomView {
    RoomView(InProgress, r.players, Some(SessionView(sessionID, 0, None)))
  }

  method OpenFirstRound(room: Room, sessionID: Id, rounds: RoundManager.Manager)
    requires rounds.Valid()
    modifies room`status, room`gameSession, rounds, rounds.started
    ensures rounds.Valid()
    ensures room.gameSession != null && fresh(room.gameSession)
    ensures room.gameSession.roundState != null && fresh(room.gameSession.roundState)
    ensures Ok(room.View()) == Rules.OpenRound(WithSession(old(room.View()), sessionID), 1)
    ensures Views(room.players) == old(Views(room.players))
  {
    AttachSession(room, sessionID);
    var _ := rounds.StartRound(room, 1);
  }

  /** A new session for players already dealt, its first round, and that round's leaders. */
  method Launch(room: Room, sessionID: Id, rounds: RoundManager.Manager, ghost before: RoomView, ghost dealt: seq<PlayerView>)
    returns (red: Id, blue: Id)
    requires room.Valid() && rounds.Valid() && |room.players| >= 6
    requires dealt == Views(room.players) && Rules.EvenSplit(dealt)
    requires before.status != InProgress && |before.players| == |room.players|
    modifies room`status, room`gameSession, rounds, rounds.started
    ensures rounds.Valid()
    ensures dealt == Views(room.players)
    ensures Ok(room.View()) == Rules.DealGame(before, sessionID, dealt, red, blue)
    ensures red in Rules.IdsIn(dealt, RedRoom) && blue in Rules.IdsIn(dealt, BlueRoom)
  {
    ghost var ready := room.View();
    OpenFirstRound(room, sessionID, rounds);
    ghost var begun := room.View();
    red, blue := AppointFirstLeaders(room, rounds);
    assert room.View().players == ready.players;
    Launched(before, ready, begun, room.View(), sessionID, red, blue);
  }

  /** Both rooms have players, so both get a leader. */
  method AppointFirstLeaders(room: Room, ghost rounds: RoundManager.Manager) returns (red: Id, blue: Id)
    requires room.Valid() && rounds.Valid() && |room.players| >= 2 && Rules.EvenSplit(Views(room.players))
    requires room.gameSession != null && room.gameSession.roundState != null
    modifies room.gameSession.roundState
    ensures rounds.Valid()
    ensures Ok(room.View()) == Rules.AppointLeaders(old(room.View()), red, blue)
    ensures red in Rules.IdsIn(room.View().players, RedRoom) && blue in Rules.IdsIn(room.View().players, BlueRoom)
  {
    ghost var before := room.View();
    var error: Option<Error>;
    error, red, blue := LeaderService.AssignLeaders(room);
    BothAppointed(before, room.View(), error, red, blue);
  }

  lemma BothAppointed(before: RoomView, after: RoomView, error: Option<Error>, red: Id, blue: Id)
    requires Rules.Distinct(before.players) && Rules.EvenSplit(before.players) && |before.players| >= 2
    requires Rules.HasRound(before) && Refines(before, after, error, Rules.AppointLeaders(before, red, blue))
    requires error == None || error == Some(SameLeader) ==>
               red in Rules.IdsIn(after.players, RedRoom) && blue in Rules.IdsIn(after.players, BlueRoom)
    ensures Ok(after) == Rules.AppointLeaders(before, red, blue)
    ensures red in Rules.IdsIn(after.players, RedRoom) && blue in Rules.IdsIn(after.players, BlueRoom)
  {
    RoomsDiffer(before.players, red, blue);
  }

  lemma Launched(before: RoomView, dealt: RoomView, begun: RoomView, after: RoomView, sessionID: Id, red: Id, blue: Id)
    requires before.status != InProgress && |before.players| >= 6
    requires Ok(begun) == Rules.OpenRound(WithSession(dealt, sessionID), 1)
    requires Ok(after) == Rules.AppointLeaders(begun, red, blue)
    ensures Ok(after) == Rules.DealGame(before, sessionID, dealt.players, red, blue)
  {
  }

  lemma RoomsDiffer(ps: seq<PlayerView>, red: Id, blue: Id)
    requires Rules.Distinct(ps) && Rules.EvenSplit(ps) && |ps| >= 2
    ensures Rules.IdsIn(ps, RedRoom) != {} && Rules.IdsIn(ps, BlueRoom) != {}
    ensures !(red == blue && red in Rules.IdsIn(ps, RedRoom) && blue in Rules.IdsIn(ps, BlueRoom))
  {
  }

  /** `config` is what the role loader found for the room's configuration, if there is a loader. */
  method StartGame(room: Room?, sessionID: Id, config: Option<Config>, rounds: RoundManager.Manager)
    returns (error: Option<Error>, red: Id, blue: Id)
    requires room != null ==> room.Valid()
    requires rounds.Valid()
    modifies if room == null then {} else {room}, PlayerFrame(room), rounds, rounds.started
    ensures rounds.Valid()
    ensures room == null ==> error == Some(RoomNotFound)
    ensures room != null ==> room.players == old(room.players)
    ensures room != null ==>
              Refines(old(room.View()), room.View(), error,
                      Rules.DealGame(old(room.View()), sessionID, Views(room.players), red, blue))
    ensures room != null && error == None ==>
              GoodStart(old(Views(room.players)), Views(room.players), config, old(room.selectedRoles), red, blue)
  {
    red, blue := "", "";
    if room == null { return Some(RoomNotFound), red, blue; }
    if room.status == InProgress { return Some(GameAlreadyStarted), red, blue; }
    if |room.players| < 6 { return Some(NotEnoughPlayers), red, blue; }
    ghost var dealt;
    red, blue, dealt := DealAndLaunch(room, sessionID, config, room.selectedRoles, rounds, room.View());
    return None, red, blue;
  }

  /** Everybody is dealt in, exactly as promised, and both leaders stand in their rooms. */
  ghost predicate GoodStart(before: seq<PlayerView>, after: seq<PlayerView>, config: Option<Config>,
                            selected: map<string, int>, red: Id, blue: Id)
  {
    && GoodDeal(before, after, config, selected)
    && red in Rules.IdsIn(after, RedRoom) && blue in Rules.IdsIn(after, BlueRoom)
  }

  /** `before` is the room as it was, and `dealt` its players after the deal. */
  method DealAndLaunch(room: Room, sessionID: Id, config: Option<Config>, selected: map<string, int>,
                       rounds: RoundManager.Manager, ghost before: RoomView)
    returns (red: Id, blue: Id, ghost dealt: seq<PlayerView>)
    requires room.Valid() && rounds.Valid() && before == room.View()
    requires room.status != InProgress && |room.players| >= 6
    modifies room`status, room`gameSession, room.players, rounds, rounds.started
    ensures rounds.Valid() && dealt == Views(room.players)
    ensures Ok(room.View()) == Rules.DealGame(before, sessionID, dealt, red, blue)
    ensures GoodStart(before.players, dealt, config, selected, red, blue)
  {
    dealt := DealPlayers(room.players, config, selected, before.players);
    red, blue := Launch(room, sessionID, rounds, before, dealt);
    GoodStarted(before.players, dealt, config, selected, red, blue);
  }

  lemma GoodStarted(before: seq<PlayerView>, after: seq<PlayerView>, config: Option<Config>, selected: map<string, int>,
                    red: Id, blue: Id)
    requires GoodDeal(before, after, config, selected)
    requires red in Rules.IdsIn(after, RedRoom) && blue in Rules.IdsIn(after, BlueRoom)
    ensures GoodStart(before, after, config, selected, red, blue)
  {
  }

  method ResetGame(room: Room?) returns (error: Option<Error>)
    requires room != null ==> room.Valid()
    modifies if room == null then {} else {room}, PlayerFrame(room)
    ensures room == null ==> error == Some(RoomNotFound)
    ensures room != null ==> Refines(old(room.View()), room.View(), error, Rules.ClearGame(old(room.View())))
    ensures room != null && error == None ==>
              && room.status == Waiting && room.gameSession == null && room.players == old(room.players)
              && forall p :: p in room.players ==>
                   && p.role == None && p.team == NoTeam && p.currentRoom == NoRoom
                   && p.nickname == old(p.nickname) && p.isAnonymous == old(p.isAnonymous) && p.isOwner == old(p.isOwner)
  {
    if room == null { return Some(RoomNotFound); }
    if room.status != InProgress { return Some(GameNotStarted); }
    room.gameSession := null;
    var ps := room.players;
    for i := 0 to |ps|
      invariant room.players == ps && room.gameSession == null
      invariant forall j :: 0 <= j < i ==> ps[j].View() == Rules.ClearPlayer(old(ps[j].View()))
      invariant forall j :: i <= j < |ps| ==> ps[j].View() == old(ps[j].View())
    {
      ps[i].role := None;
      ps[i].team := NoTeam;
      ps[i].currentRoom := NoRoom;
    }
    room.status := Waiting;
    return None;
  }
}
