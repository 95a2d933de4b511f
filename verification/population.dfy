/** Nobody is lost between the rooms: while a game is in progress both rooms keep their size, whatever
    goroutines are still pending and however late or often they fire. */
module Population {
  import opened Models
  import opened Rules
  import opened Ballots
  import opened Protocol

  predicate NoRepeat(ids: seq<Id>) {
    forall i, j :: 0 <= i < j < |ids| ==> ids[i] != ids[j]
  }

  ghost predicate AllIn(ps: seq<PlayerView>, ids: seq<Id>, c: RoomColor) {
    forall x :: x in ids ==> x in IdsIn(ps, c)
  }

  /** The selected hostages stand where they were selected. */
  ghost predicate Unmoved(ps: seq<PlayerView>, rd: RoundView) {
    AllIn(ps, rd.redHostages, RedRoom) && AllIn(ps, rd.blueHostages, BlueRoom)
  }

  /** Both selections have changed rooms. */
  ghost predicate Swapped(ps: seq<PlayerView>, rd: RoundView) {
    BothSelected(rd) && AllIn(ps, rd.redHostages, BlueRoom) && AllIn(ps, rd.blueHostages, RedRoom)
  }

  predicate SelectionShape(rd: RoundView, players: nat) {
    && 1 <= rd.number <= 3
    && rd.hostageCount == HostageQuota(players, rd.number)
    && (rd.redHostages == [] || |rd.redHostages| == rd.hostageCount)
    && (rd.blueHostages == [] || |rd.blueHostages| == rd.hostageCount)
    && NoRepeat(rd.redHostages) && NoRepeat(rd.blueHostages)
  }

  ghost predicate Seated(r: RoomView) {
    && EvenSplit(r.players)
    && |r.players| >= 6
    && HasRound(r)
    && SelectionShape(TheRound(r), |r.players|)
    && (Unmoved(r.players, TheRound(r)) || Swapped(r.players, TheRound(r)))
  }

  /** No game is in progress; goroutines of earlier games may still be pending. */
  predicate InLobby(g: Game) {
    g.room.status != InProgress && Distinct(g.room.players)
  }

  ghost predicate PopInv(g: Game) {
    && Distinct(g.room.players)
    && (g.room.status == InProgress ==> Seated(g.room))
  }

  // ----- facts about seats -----

  lemma {:induction false} IndexOfSeat(ps: seq<PlayerView>, i: nat)
    requires Distinct(ps) && i < |ps|
    ensures IndexOf(ps, ps[i].id) == i
  {
    var k := IndexOf(ps, ps[i].id);
    assert k <= i && ps[k].id == ps[i].id;
  }

  lemma {:induction false} InRoomIff(ps: seq<PlayerView>, x: Id, c: RoomColor)
    requires Distinct(ps)
    ensures x in IdsIn(ps, c) <==> Has(ps, x) && RoomOf(ps, x) == c
  {
    if x in IdsIn(ps, c) {
      var i :| 0 <= i < |ps| && ps[i].room == c && ps[i].id == x;
      IndexOfSeat(ps, i);
    }
  }

  lemma {:induction false} SetSize(ids: seq<Id>)
    requires NoRepeat(ids)
    ensures |set x | x in ids| == |ids|
  {
    if ids == [] {
      assert (set x | x in ids) == {};
    } else {
      var front, last := ids[..|ids| - 1], ids[|ids| - 1];
      SetSize(front);
      assert (set x | x in ids) == (set x | x in front) + {last};
    }
  }

  lemma {:induction false} StandingIsIdsIn(ps: seq<PlayerView>, c: RoomColor)
    requires Distinct(ps)
    ensures NoRepeat(Standing(ps, c))
    ensures (set x | x in Standing(ps, c)) == IdsIn(ps, c)
  {
    StandingMembers(ps, c);
    StandingDistinct(ps, c);
  }

  lemma {:induction false} StandingCount(ps: seq<PlayerView>, c: RoomColor)
    requires Distinct(ps)
    ensures NoRepeat(Standing(ps, c)) && (set x | x in Standing(ps, c)) == IdsIn(ps, c)
    ensures |Standing(ps, c)| == |IdsIn(ps, c)|
  {
    StandingIsIdsIn(ps, c);
    SetSize(Standing(ps, c));
  }

  lemma {:induction false} StandingMembers(ps: seq<PlayerView>, c: RoomColor)
    ensures forall x :: x in Standing(ps, c) <==> x in IdsIn(ps, c)
  {
    if ps == [] {
    } else {
      var rest := ps[1..];
      StandingMembers(rest, c);
      forall x ensures x in IdsIn(ps, c) <==> (x == ps[0].id && ps[0].room == c) || x in IdsIn(rest, c) {
        if x in IdsIn(ps, c) {
          var i :| 0 <= i < |ps| && ps[i].room == c && ps[i].id == x;
          if i > 0 { assert rest[i - 1] == ps[i]; }
        }
        if x in IdsIn(rest, c) {
          var i :| 0 <= i < |rest| && rest[i].room == c && rest[i].id == x;
          assert ps[i + 1] == rest[i];
        }
      }
    }
  }

  lemma {:induction false} StandingDistinct(ps: seq<PlayerView>, c: RoomColor)
    requires Distinct(ps)
    ensures NoRepeat(Standing(ps, c))
  {
    if ps == [] {
    } else {
      StandingDistinct(ps[1..], c);
      StandingMembers(ps[1..], c);
      assert ps[0].id !in Standing(ps[1..], c);
    }
  }

  lemma {:induction false} WithoutDistinct(ids: seq<Id>, x: Id)
    requires NoRepeat(ids)
    ensures NoRepeat(Without(ids, x))
  {
    if ids == [] {
    } else {
      WithoutDistinct(ids[1..], x);
      assert ids[0] !in ids[1..];
    }
  }

  // ----- the exchange -----

  /** What a room holds after players have moved: those who did not leave it, and those who came. */
  lemma {:induction false} MovedIds(ps: seq<PlayerView>, qs: seq<PlayerView>, leaving: seq<Id>, coming: seq<Id>, c: RoomColor)
    requires |qs| == |ps| && forall i :: 0 <= i < |ps| ==> qs[i].id == ps[i].id
    requires forall i :: 0 <= i < |ps| ==>
               (qs[i].room == c <==> (ps[i].room == c && ps[i].id !in leaving) || ps[i].id in coming)
    requires forall x :: x in coming ==> exists i :: 0 <= i < |ps| && ps[i].id == x
    requires Distinct(ps)
    ensures IdsIn(qs, c) == IdsIn(ps, c) - (set x | x in leaving) + (set x | x in coming)
  {
    forall x | x in IdsIn(qs, c) ensures x in IdsIn(ps, c) - (set y | y in leaving) + (set y | y in coming) {
      var i :| 0 <= i < |qs| && qs[i].room == c && qs[i].id == x;
      assert ps[i].id == x;
    }
    forall x | x in IdsIn(ps, c) - (set y | y in leaving) + (set y | y in coming) ensures x in IdsIn(qs, c) {
      var i :| 0 <= i < |ps| && ps[i].id == x && (x in coming || ps[i].room == c);
      assert qs[i].room == c;
    }
  }

  lemma {:induction false} SelectedSeats(ps: seq<PlayerView>, ids: seq<Id>, c: RoomColor)
    requires Distinct(ps) && AllIn(ps, ids, c)
    ensures forall i :: 0 <= i < |ps| && ps[i].id in ids ==> ps[i].room == c
    ensures forall x :: x in ids ==> exists i :: 0 <= i < |ps| && ps[i].id == x
  {
    forall i | 0 <= i < |ps| && ps[i].id in ids ensures ps[i].room == c {
      IndexOfSeat(ps, i);
      InRoomIff(ps, ps[i].id, c);
    }
    forall x | x in ids ensures exists i :: 0 <= i < |ps| && ps[i].id == x {
      assert x in IdsIn(ps, c);
    }
  }

  /** From the waiting position, each room gives up exactly its selection and receives the other's. */
  lemma {:induction false} ExchangeIds(ps: seq<PlayerView>, red: seq<Id>, blue: seq<Id>)
    requires Distinct(ps) && AllIn(ps, red, RedRoom) && AllIn(ps, blue, BlueRoom)
    ensures IdsIn(MoveAll(ps, red, blue), RedRoom) == IdsIn(ps, RedRoom) - (set x | x in red) + (set x | x in blue)
    ensures IdsIn(MoveAll(ps, red, blue), BlueRoom) == IdsIn(ps, BlueRoom) - (set x | x in blue) + (set x | x in red)
  {
    var qs := MoveAll(ps, red, blue);
    SelectedSeats(ps, red, RedRoom);
    SelectedSeats(ps, blue, BlueRoom);
    assert forall i :: 0 <= i < |ps| ==> qs[i] == MoveTo(ps[i], red, blue);
    MovedIds(ps, qs, red, blue, RedRoom);
    MovedIds(ps, qs, blue, red, BlueRoom);
  }

  lemma SwapSize(a: set<Id>, outgoing: set<Id>, incoming: set<Id>)
    requires outgoing <= a && incoming !! a
    ensures |a - outgoing + incoming| == |a| - |outgoing| + |incoming|
  {
    assert |(a - outgoing) + incoming| == |a - outgoing| + |incoming|;
    assert |a| == |a - outgoing| + |outgoing| by { assert a == (a - outgoing) + outgoing; }
  }

  /** Running the exchange a second time changes nobody's room. */
  lemma {:induction false} SecondExchangeIdle(ps: seq<PlayerView>, rd: RoundView)
    requires Distinct(ps) && Swapped(ps, rd)
    ensures MoveAll(ps, rd.redHostages, rd.blueHostages) == ps
  {
    forall i | 0 <= i < |ps| ensures MoveTo(ps[i], rd.redHostages, rd.blueHostages) == ps[i] {
      IndexOfSeat(ps, i);
      InRoomIff(ps, ps[i].id, RedRoom);
      InRoomIff(ps, ps[i].id, BlueRoom);
    }
  }

  /** From the waiting position, the exchange keeps the size of both rooms and swaps the selections. */
  lemma {:induction false} ExchangeSwaps(ps: seq<PlayerView>, rd: RoundView)
    requires Distinct(ps) && Unmoved(ps, rd) && BothSelected(rd) && |rd.redHostages| == |rd.blueHostages|
    requires NoRepeat(rd.redHostages) && NoRepeat(rd.blueHostages)
    ensures var qs := MoveAll(ps, rd.redHostages, rd.blueHostages);
      && Swapped(qs, rd)
      && |IdsIn(qs, RedRoom)| == |IdsIn(ps, RedRoom)|
      && |IdsIn(qs, BlueRoom)| == |IdsIn(ps, BlueRoom)|
  {
    var red, blue := rd.redHostages, rd.blueHostages;
    ExchangeIds(ps, red, blue);
    SwapsEqual(ps, red, blue, RedRoom, BlueRoom);
    SwapsEqual(ps, blue, red, BlueRoom, RedRoom);
  }

  lemma {:induction false} SwapsEqual(ps: seq<PlayerView>, leaving: seq<Id>, coming: seq<Id>, c: RoomColor, d: RoomColor)
    requires Distinct(ps) && c != d && AllIn(ps, leaving, c) && AllIn(ps, coming, d)
    requires NoRepeat(leaving) && NoRepeat(coming) && |leaving| == |coming|
    ensures |IdsIn(ps, c) - (set x | x in leaving) + (set x | x in coming)| == |IdsIn(ps, c)|
  {
    SetSize(leaving);
    SetSize(coming);
    var L, C := set x | x in leaving, set x | x in coming;
    forall x | x in C ensures x !in IdsIn(ps, c) {
      InRoomIff(ps, x, c);
      InRoomIff(ps, x, d);
    }
    SwapSize(IdsIn(ps, c), L, C);
  }

  lemma {:induction false} ExchangeKeepsSeats(r: RoomView)
    requires Distinct(r.players) && Seated(r) && ExecuteExchange(r).Ok?
    ensures var s := ExecuteExchange(r).value;
      && Distinct(s.players) && Seated(s)
      && Swapped(s.players, TheRound(s))
      && (Swapped(r.players, TheRound(r)) ==> s.players == r.players)
  {
    var rd, ps := TheRound(r), r.players;
    var qs := MoveAll(ps, rd.redHostages, rd.blueHostages);
    if Swapped(ps, rd) {
      SecondExchangeIdle(ps, rd);
    } else {
      ExchangeSwaps(ps, rd);
    }
    MoveKeeps(ps, rd.redHostages, rd.blueHostages);
    var s := ExecuteExchange(r).value;
    assert s.players == qs && TheRound(s) == rd.(status := Complete);
    assert EvenSplit(qs);
    assert Swapped(qs, TheRound(s));
  }

  lemma MoveKeeps(ps: seq<PlayerView>, red: seq<Id>, blue: seq<Id>)
    requires Distinct(ps)
    ensures var qs := MoveAll(ps, red, blue);
      && Distinct(qs)
      && (forall i :: 0 <= i < |ps| && (ps[i].room == RedRoom || ps[i].room == BlueRoom) ==>
            qs[i].room == RedRoom || qs[i].room == BlueRoom)
  {
    var qs := MoveAll(ps, red, blue);
    assert forall i :: 0 <= i < |ps| ==> qs[i].id == ps[i].id;
  }

  // ----- the selection -----

  lemma {:induction false} LeaderFaultIff(rd: RoundView, leader: Id, ids: seq<Id>, k: nat)
    requires k <= |ids|
    ensures LeaderFault(rd, leader, ids, k).None? <==> forall i :: k <= i < |ids| ==> ids[i] != leader && !IsLeader(rd, ids[i])
    decreases |ids| - k
  {
    if k == |ids| {
    } else {
      LeaderFaultIff(rd, leader, ids, k + 1);
    }
  }

  lemma {:induction false} MemberFaultIff(ps: seq<PlayerView>, c: RoomColor, ids: seq<Id>, k: nat)
    requires k <= |ids| && Distinct(ps)
    ensures MemberFault(ps, c, ids, k).None? <==> forall i :: k <= i < |ids| ==> ids[i] !in ids[..i] && ids[i] in IdsIn(ps, c)
    decreases |ids| - k
  {
    if k == |ids| {
    } else {
      MemberFaultIff(ps, c, ids, k + 1);
      InRoomIff(ps, ids[k], c);
    }
  }

  /** A leader's selection is accepted exactly when it has the right size, repeats nobody, names no leader,
      names only players of the leader's own room, and is the first one for that room. */
  lemma {:induction false} SelectionAcceptedIff(r: RoomView, leader: Id, ids: seq<Id>)
    requires Distinct(r.players) && HasRound(r)
    ensures var rd, c := TheRound(r), RoomOf(r.players, leader);
      ChooseHostages(r, leader, ids).Ok? <==>
        && IsLeader(rd, leader)
        && |ids| == rd.hostageCount
        && NoRepeat(ids)
        && AllIn(r.players, ids, c)
        && !IsLeaderAmong(rd, ids)
        && (if c == RedRoom then rd.redHostages else rd.blueHostages) == []
  {
    var rd, c := TheRound(r), RoomOf(r.players, leader);
    LeaderFaultIff(rd, leader, ids, 0);
    MemberFaultIff(r.players, c, ids, 0);
    if ChooseHostages(r, leader, ids).Ok? {
      forall i, j | 0 <= i < j < |ids| ensures ids[i] != ids[j] {
        assert ids[j] !in ids[..j] && ids[..j][i] == ids[i];
      }
    }
  }

  predicate IsLeaderAmong(rd: RoundView, ids: seq<Id>) {
    exists x :: x in ids && IsLeader(rd, x)
  }

  lemma {:induction false} SelectionKeepsSeats(r: RoomView, leader: Id, ids: seq<Id>)
    requires Distinct(r.players) && Seated(r) && ChooseHostages(r, leader, ids).Ok?
    ensures Seated(ChooseHostages(r, leader, ids).value)
  {
    SelectionAcceptedIff(r, leader, ids);
    var rd, c := TheRound(r), RoomOf(r.players, leader);
    var s := ChooseHostages(r, leader, ids).value;
    assert HostageQuota(|r.players|, rd.number) >= 1;
    if c == RedRoom {
      assert Unmoved(r.players, rd);
    } else {
      assert ids != [] && ids[0] in IdsIn(r.players, c);
      var i :| 0 <= i < |r.players| && r.players[i].room == c;
      assert c == BlueRoom;
    }
    assert Unmoved(s.players, TheRound(s));
  }

  // ----- the other steps -----

  lemma {:induction false} SameSeatsKeep(ps: seq<PlayerView>, qs: seq<PlayerView>, c: RoomColor)
    requires SameSeats(ps, qs)
    ensures IdsIn(qs, c) == IdsIn(ps, c)
  {
    forall x | x in IdsIn(ps, c) ensures x in IdsIn(qs, c) {
      var i :| 0 <= i < |ps| && ps[i].room == c && ps[i].id == x;
      assert qs[i].room == c && qs[i].id == x;
    }
    forall x | x in IdsIn(qs, c) ensures x in IdsIn(ps, c) {
      var i :| 0 <= i < |qs| && qs[i].room == c && qs[i].id == x;
      assert ps[i].room == c && ps[i].id == x;
    }
  }

  lemma {:induction false} DealIsSeated(r: RoomView, id: Id, dealt: seq<PlayerView>, red: Id, blue: Id)
    requires Distinct(r.players) && IsDeal(r.players, dealt) && DealGame(r, id, dealt, red, blue).Ok?
    ensures var s := DealGame(r, id, dealt, red, blue).value;
      Distinct(s.players) && Seated(s) && s.status == InProgress && TheRound(s).number == 1
  {
    var s := DealGame(r, id, dealt, red, blue).value;
    assert s.players == dealt;
    assert forall i :: 0 <= i < |dealt| ==> SamePerson(r.players[i], dealt[i]);
  }

  /** What a room step other than dealing, exchanging and selecting does to the seats: nothing. */
  ghost predicate SeatsUntouched(r: RoomView, s: RoomView) {
    && s.players == r.players
    && (HasRound(r) ==>
          && HasRound(s)
          && TheRound(s).number == TheRound(r).number
          && TheRound(s).hostageCount == TheRound(r).hostageCount
          && TheRound(s).redHostages == TheRound(r).redHostages
          && TheRound(s).blueHostages == TheRound(r).blueHostages)
    && (s.status == InProgress ==> r.status == InProgress)
  }

  /** The steps that leave every seat and both selections alone. */
  predicate Quiet(a: Action) {
    match a
    case StartGame(_, _, _, _) => false
    case ResetGame => false
    case EditPlayers(_) => false
    case StartRound(_) => false
    case SelectHostages(_, _) => false
    case Run(t, _) => !t.Exchange? && !t.Advance?
    case _ => true
  }

  lemma VoteCallsLeaveRoom(g: Game, a: Action)
    requires a.StartVote? || a.CastVote? || a.ExpireVote?
    ensures Next(g, a).room == g.room
  {
    match a
    case StartVote(c, initiator, target) => assert StartVoteStep(g, c, initiator, target).room == g.room;
    case CastVote(v, voter, choice) => assert CastStep(g, v, voter, choice).room == g.room;
    case ExpireVote(_) =>
  }

  lemma VoteTasksLeaveRoom(g: Game, t: Task, pick: string)
    requires t.FileVote? || t.CheckTurnout? || t.CompleteVote? || t.TimeoutVote? || t.ReleaseIndex? || t.ElectLeader?
    ensures RunStep(g, t, pick).room == g.room
  {
  }

  /** A tally changes at most who leads. */
  lemma TallyEffect(g: Game, v: VoteId, how: Resolver, winner: string)
    ensures var h := DecideStep(g, v, how, winner);
      h.room == g.room
      || (v in g.ledger.heap && g.ledger.heap[v].kind == Election
          && InstallLeader(g.room, g.ledger.heap[v].color, winner) == Ok(h.room))
  {
  }

  lemma TickKeepsSeats(g: Game)
    ensures SeatsUntouched(g.room, TickStep(g).room)
  {
  }

  lemma ReadyKeepsSeats(g: Game, leader: Id)
    ensures SeatsUntouched(g.room, ReadyStep(g, leader).room)
  {
  }

  lemma {:induction false} QuietTaskKeepsSeats(g: Game, t: Task, pick: string)
    requires !t.Exchange? && !t.Advance?
    ensures SeatsUntouched(g.room, RunStep(g, t, pick).room)
  {
    match t
    case DecideVote(v, how) => TallyEffect(g, v, how, pick);
    case Preserve =>
    case RevealAll =>
    case _ => VoteTasksLeaveRoom(g, t, pick);
  }

  lemma CrownKeepsSeats(r: RoomView, c: RoomColor, x: Id)
    requires HasRound(r)
    ensures SeatsUntouched(r, WithRound(r, Crown(TheRound(r), c, x)))
  {
  }

  /** The calls that name a new leader either fail or crown one player, in the room this says. */
  ghost predicate CrownsAtMost(r: RoomView, s: RoomView, c: RoomColor, x: Id) {
    s == r || (HasRound(r) && s == WithRound(r, Crown(TheRound(r), c, x)))
  }

  lemma TransferCrowns(g: Game, current: Id, next: Id)
    ensures CrownsAtMost(g.room, Next(g, Transfer(current, next)).room, RoomOf(g.room.players, current), next)
  {
  }

  lemma DisconnectCrowns(g: Game, leader: Id, next: Id)
    requires HasRound(g.room)
    ensures CrownsAtMost(g.room, Next(g, Disconnect(leader, next)).room, DisconnectedRoom(g.room, leader), next)
  {
  }

  lemma NewLeaderCrowns(g: Game, c: RoomColor, exclude: Id, next: Id)
    ensures CrownsAtMost(g.room, Next(g, AssignNewLeader(c, exclude, next)).room, c, next)
  {
  }

  lemma {:induction false} LeaderCallKeepsSeats(g: Game, a: Action)
    requires a.AssignLeaders? || a.Transfer? || a.Disconnect? || a.AssignNewLeader?
    ensures SeatsUntouched(g.room, Next(g, a).room)
  {
    match a
    case Transfer(current, next) =>
      TransferCrowns(g, current, next);
      if HasRound(g.room) { CrownKeepsSeats(g.room, RoomOf(g.room.players, current), next); }
    case Disconnect(leader, next) =>
      if HasRound(g.room) {
        DisconnectCrowns(g, leader, next);
        CrownKeepsSeats(g.room, DisconnectedRoom(g.room, leader), next);
      }
    case AssignNewLeader(c, exclude, next) =>
      NewLeaderCrowns(g, c, exclude, next);
      if HasRound(g.room) { CrownKeepsSeats(g.room, c, next); }
    case AssignLeaders(red, blue) =>
      assert SeatsUntouched(g.room, SetRoom(g, AppointLeaders(g.room, red, blue)).room);
  }

  lemma {:induction false} QuietStepKeepsSeats(g: Game, a: Action)
    requires Quiet(a)
    ensures SeatsUntouched(g.room, Next(g, a).room)
  {
    match a
    case Run(t, pick) => QuietTaskKeepsSeats(g.(tasks := g.tasks - multiset{t}), t, pick);
    case StartVote(_, _, _) => VoteCallsLeaveRoom(g, a);
    case CastVote(_, _, _) => VoteCallsLeaveRoom(g, a);
    case ExpireVote(_) => VoteCallsLeaveRoom(g, a);
    case Tick => TickKeepsSeats(g);
    case LeaderReady(leader) => ReadyKeepsSeats(g, leader);
    case AssignLeaders(_, _) => LeaderCallKeepsSeats(g, a);
    case Transfer(_, _) => LeaderCallKeepsSeats(g, a);
    case Disconnect(_, _) => LeaderCallKeepsSeats(g, a);
    case AssignNewLeader(_, _, _) => LeaderCallKeepsSeats(g, a);
  }

  lemma UntouchedKeepsPop(g: Game, h: Game)
    requires PopInv(g) && SeatsUntouched(g.room, h.room)
    ensures PopInv(h)
  {
    if h.room.status == InProgress {
      var rd, rd' := TheRound(g.room), TheRound(h.room);
      assert Unmoved(g.room.players, rd) ==> Unmoved(h.room.players, rd');
      assert Swapped(g.room.players, rd) ==> Swapped(h.room.players, rd');
    }
  }

  lemma NewRoundKeepsPop(g: Game, n: int)
    requires PopInv(g)
    ensures PopInv(BeginRound(g, n))
  {
    var h := BeginRound(g, n);
    if h.room.status == InProgress && OpenRound(g.room, n).Ok? {
      assert Unmoved(h.room.players, TheRound(h.room));
    }
  }

  lemma EditKeepsPop(g: Game, qs: seq<PlayerView>)
    requires PopInv(g) && Enabled(g, EditPlayers(qs))
    ensures PopInv(Next(g, EditPlayers(qs)))
  {
    var r := g.room;
    if r.status == InProgress {
      SameSeatsKeep(r.players, qs, RedRoom);
      SameSeatsKeep(r.players, qs, BlueRoom);
      assert Unmoved(r.players, TheRound(r)) ==> Unmoved(qs, TheRound(r));
      assert Swapped(r.players, TheRound(r)) ==> Swapped(qs, TheRound(r));
    }
  }

  lemma ExchangeKeepsPop(g: Game)
    requires PopInv(g)
    ensures PopInv(SetRoom(g, ExecuteExchange(g.room)))
  {
    var r := g.room;
    if ExecuteExchange(r).Ok? {
      if r.status == InProgress { ExchangeKeepsSeats(r); }
      MoveKeeps(r.players, TheRound(r).redHostages, TheRound(r).blueHostages);
    }
  }

  lemma SelectionKeepsPop(g: Game, leader: Id, ids: seq<Id>)
    requires PopInv(g)
    ensures PopInv(SelectStep(g, leader, ids))
  {
    if ChooseHostages(g.room, leader, ids).Ok? && g.room.status == InProgress {
      SelectionKeepsSeats(g.room, leader, ids);
    }
  }

  lemma DealKeepsPop(g: Game, id: Id, dealt: seq<PlayerView>, red: Id, blue: Id)
    requires PopInv(g) && IsDeal(g.room.players, dealt)
    ensures PopInv(Next(g, StartGame(id, dealt, red, blue)))
  {
    if DealGame(g.room, id, dealt, red, blue).Ok? { DealIsSeated(g.room, id, dealt, red, blue); }
  }

  lemma ResetKeepsPop(g: Game)
    requires PopInv(g)
    ensures PopInv(Next(g, ResetGame))
  {
    var h := Next(g, ResetGame);
    assert h == g || forall i :: 0 <= i < |g.room.players| ==> h.room.players[i].id == g.room.players[i].id;
  }

  lemma {:induction false} LoudStepKeepsPop(g: Game, a: Action)
    requires PopInv(g) && Enabled(g, a) && !Quiet(a)
    ensures PopInv(Next(g, a))
  {
    match a
    case StartGame(id, dealt, red, blue) => DealKeepsPop(g, id, dealt, red, blue);
    case ResetGame => ResetKeepsPop(g);
    case EditPlayers(qs) => EditKeepsPop(g, qs);
    case StartRound(n) => NewRoundKeepsPop(g, n);
    case SelectHostages(leader, ids) => SelectionKeepsPop(g, leader, ids);
    case Run(t, _) =>
      var h := g.(tasks := g.tasks - multiset{t});
      if t.Advance? { NewRoundKeepsPop(h, t.round); } else { ExchangeKeepsPop(h); }
  }

  lemma {:induction false} StepKeepsPop(g: Game, a: Action)
    requires PopInv(g) && Enabled(g, a)
    ensures PopInv(Next(g, a))
  {
    if Quiet(a) {
      QuietStepKeepsSeats(g, a);
      UntouchedKeepsPop(g, Next(g, a));
    } else {
      LoudStepKeepsPop(g, a);
    }
  }

  /** In every run from a lobby, with any goroutines left over from earlier games, both rooms hold exactly
      their half of the players whenever a game is in progress. */
  lemma {:induction false} PopulationConserved(g: Game, acts: seq<Action>)
    requires InLobby(g) && IsRun(g, acts, Anything)
    ensures After(g, acts).room.status == InProgress ==> EvenSplit(After(g, acts).room.players)
  {
    PopAlways(g, acts, Anything);
  }

  lemma PopAlways(g: Game, acts: seq<Action>, rule: Rule)
    requires PopInv(g) && IsRun(g, acts, rule)
    ensures PopInv(After(g, acts))
  {
    forall h, a | PopInv(h) && Enabled(h, a) ensures PopInv(Next(h, a)) { StepKeepsPop(h, a); }
    RunKeeps(g, acts, rule, PopInv);
  }
}
