/** Where the leaders stand.  The code lets a player who has been selected as hostage become leader before the
    exchange; short of that, each room's leader is always in it, and can always find hostages. */
module Leaders {
  import opened Models
  import opened Rules
  import opened Ballots
  import opened Protocol
  import opened Population

  /** Each leader stands in the room they lead. */
  ghost predicate Located(r: RoomView) {
    && HasRound(r)
    && TheRound(r).redLeader in IdsIn(r.players, RedRoom)
    && TheRound(r).blueLeader in IdsIn(r.players, BlueRoom)
  }

  /** A selected hostage who still has to change rooms. */
  ghost predicate Pending(r: RoomView, x: Id) {
    && HasRound(r)
    && (|| (x in TheRound(r).redHostages && x in IdsIn(r.players, RedRoom))
        || (x in TheRound(r).blueHostages && x in IdsIn(r.players, BlueRoom)))
  }

  ghost predicate NoLeaderPending(r: RoomView) {
    HasRound(r) ==> !Pending(r, TheRound(r).redLeader) && !Pending(r, TheRound(r).blueLeader)
  }

  /** The players an action may install as leaders, as the caller or the tally names them. */
  function Names(a: Action): set<Id> {
    match a
    case AssignLeaders(red, blue) => {red, blue}
    case Transfer(_, next) => {next}
    case Disconnect(_, next) => {next}
    case AssignNewLeader(_, _, next) => {next}
    case Run(t, pick) => if t.DecideVote? then {pick} else {}
    case _ => {}
  }

  /** The hypothesis on runs: nobody who is about to be exchanged is made leader.  Calls that are refused do no harm. */
  ghost predicate Careful(g: Game, a: Action) {
    Next(g, a).room != g.room ==> forall x :: x in Names(a) ==> !Pending(g.room, x)
  }

  ghost predicate LeadInv(g: Game) {
    && PopInv(g)
    && (g.room.status == InProgress ==> Located(g.room) && NoLeaderPending(g.room))
  }

  // ----- preservation -----

  lemma {:induction false} CrownKeepsLeaders(r: RoomView, c: RoomColor, x: Id)
    requires Distinct(r.players) && Seated(r) && Located(r) && NoLeaderPending(r)
    requires x in IdsIn(r.players, c) && !Pending(r, x)
    ensures var s := WithRound(r, Crown(TheRound(r), c, x)); Located(s) && NoLeaderPending(s)
  {
    var i :| 0 <= i < |r.players| && r.players[i].room == c && r.players[i].id == x;
    var s := WithRound(r, Crown(TheRound(r), c, x));
    assert forall y :: Pending(s, y) <==> Pending(r, y);
  }

  lemma CrownsAtMostKeepsLeaders(g: Game, h: Game, c: RoomColor, x: Id)
    requires LeadInv(g) && PopInv(h) && CrownsAtMost(g.room, h.room, c, x)
    requires h.room != g.room ==> x in IdsIn(g.room.players, c) && !Pending(g.room, x)
    ensures LeadInv(h)
  {
    if h.room.status == InProgress && h.room != g.room {
      CrownKeepsLeaders(g.room, c, x);
    }
  }

  lemma {:induction false} LeaderCallKeepsLeaders(g: Game, a: Action)
    requires LeadInv(g) && Enabled(g, a) && Careful(g, a)
    requires a.Transfer? || a.Disconnect? || a.AssignNewLeader?
    requires PopInv(Next(g, a))
    ensures LeadInv(Next(g, a))
  {
    var h, r := Next(g, a), g.room;
    match a
    case Transfer(current, next) =>
      TransferCrowns(g, current, next);
      InRoomIff(r.players, next, RoomOf(r.players, current));
      CrownsAtMostKeepsLeaders(g, h, RoomOf(r.players, current), next);
    case Disconnect(leader, next) =>
      if HasRound(r) {
        DisconnectCrowns(g, leader, next);
        CrownsAtMostKeepsLeaders(g, h, DisconnectedRoom(r, leader), next);
      }
    case AssignNewLeader(c, exclude, next) =>
      NewLeaderCrowns(g, c, exclude, next);
      CrownsAtMostKeepsLeaders(g, h, c, next);
  }

  lemma {:induction false} AppointKeepsLeaders(g: Game, red: Id, blue: Id)
    requires LeadInv(g) && Enabled(g, AssignLeaders(red, blue)) && Careful(g, AssignLeaders(red, blue))
    ensures LeadInv(Next(g, AssignLeaders(red, blue)))
  {
    var r := g.room;
    if r.status == InProgress && AppointLeaders(r, red, blue).Ok? {
      assert red in Names(AssignLeaders(red, blue)) && blue in Names(AssignLeaders(red, blue));
      var s := AppointLeaders(r, red, blue).value;
      assert SeatsUntouched(r, s);
      UntouchedKeepsPop(g, g.(room := s));
      assert forall y :: Pending(s, y) <==> Pending(r, y);
    } else {
      UntouchedKeepsPop(g, Next(g, AssignLeaders(red, blue)));
    }
  }

  lemma {:induction false} TallyKeepsLeaders(g: Game, v: VoteId, how: Resolver, winner: string)
    requires LeadInv(g) && (DecideStep(g, v, how, winner).room != g.room ==> !Pending(g.room, winner))
    requires PopInv(DecideStep(g, v, how, winner))
    ensures LeadInv(DecideStep(g, v, how, winner))
  {
    var h := DecideStep(g, v, how, winner);
    TallyEffect(g, v, how, winner);
    if h.room != g.room {
      var c := g.ledger.heap[v].color;
      InRoomIff(g.room.players, winner, c);
      CrownsAtMostKeepsLeaders(g, h, c, winner);
    }
  }

  lemma {:induction false} ExchangeKeepsLeaders(g: Game)
    requires LeadInv(g) && PopInv(SetRoom(g, ExecuteExchange(g.room)))
    ensures LeadInv(SetRoom(g, ExecuteExchange(g.room)))
  {
    var r := g.room;
    if r.status == InProgress && ExecuteExchange(r).Ok? {
      var rd, s := TheRound(r), ExecuteExchange(r).value;
      ExchangeKeepsSeats(r);
      if Unmoved(r.players, rd) {
        ExchangeIds(r.players, rd.redHostages, rd.blueHostages);
      }
      forall x | x in rd.redHostages || x in rd.blueHostages ensures !Pending(s, x) {
        InRoomIff(s.players, x, RedRoom);
        InRoomIff(s.players, x, BlueRoom);
      }
    }
  }

  lemma {:induction false} SelectionKeepsLeaders(g: Game, leader: Id, ids: seq<Id>)
    requires LeadInv(g) && PopInv(SelectStep(g, leader, ids))
    ensures LeadInv(SelectStep(g, leader, ids))
  {
    if g.room.status == InProgress && ChooseHostages(g.room, leader, ids).Ok? {
      SelectionAcceptedIff(g.room, leader, ids);
      var rd := TheRound(g.room);
      assert IsLeader(rd, rd.redLeader) && IsLeader(rd, rd.blueLeader);
    }
  }

  lemma {:induction false} DealKeepsLeaders(g: Game, a: Action)
    requires a.StartGame? && LeadInv(g) && Enabled(g, a) && PopInv(Next(g, a))
    ensures LeadInv(Next(g, a))
  {
    var r := g.room;
    if DealGame(r, a.session, a.dealt, a.red, a.blue).Ok? {
      var s := DealGame(r, a.session, a.dealt, a.red, a.blue).value;
      assert Distinct(a.dealt) by { DealIsSeated(r, a.session, a.dealt, a.red, a.blue); }
      InRoomIff(a.dealt, a.red, RedRoom);
      InRoomIff(a.dealt, a.blue, BlueRoom);
      assert a.red != a.blue;
    }
  }

  lemma {:induction false} EditKeepsLeaders(g: Game, qs: seq<PlayerView>)
    requires LeadInv(g) && Enabled(g, EditPlayers(qs)) && PopInv(Next(g, EditPlayers(qs)))
    ensures LeadInv(Next(g, EditPlayers(qs)))
  {
    if g.room.status == InProgress {
      SameSeatsKeep(g.room.players, qs, RedRoom);
      SameSeatsKeep(g.room.players, qs, BlueRoom);
    }
  }

  lemma NewRoundKeepsLeaders(g: Game, n: int)
    requires LeadInv(g) && PopInv(BeginRound(g, n))
    ensures LeadInv(BeginRound(g, n))
  {
  }

  /** Steps that leave the leaders, the seats and the selections alone. */
  ghost predicate LeadersUntouched(r: RoomView, s: RoomView) {
    && SeatsUntouched(r, s)
    && (HasRound(r) ==> TheRound(s).redLeader == TheRound(r).redLeader && TheRound(s).blueLeader == TheRound(r).blueLeader)
  }

  lemma UntouchedKeepsLeaders(g: Game, h: Game)
    requires LeadInv(g) && PopInv(h) && LeadersUntouched(g.room, h.room)
    ensures LeadInv(h)
  {
    if h.room.status == InProgress {
      assert forall y :: Pending(h.room, y) <==> Pending(g.room, y);
    }
  }

  lemma {:induction false} TaskKeepsLeaders(g: Game, t: Task, pick: string)
    requires LeadInv(g) && PopInv(RunStep(g, t, pick))
    requires t.DecideVote? && RunStep(g, t, pick).room != g.room ==> !Pending(g.room, pick)
    ensures LeadInv(RunStep(g, t, pick))
  {
    match t
    case Exchange => ExchangeKeepsLeaders(g);
    case Advance(n) => if g.room.session.Some? && 1 <= n <= 3 { NewRoundKeepsLeaders(g, n); }
    case DecideVote(v, how) => TallyKeepsLeaders(g, v, how, pick);
    case Preserve => UntouchedKeepsLeaders(g, RunStep(g, t, pick));
    case RevealAll =>
    case _ => VoteTasksLeaveRoom(g, t, pick);
  }

  lemma ClockKeepsLeaders(g: Game)
    requires LeadInv(g) && PopInv(TickStep(g))
    ensures LeadInv(TickStep(g))
  {
    assert LeadersUntouched(g.room, TickStep(g).room);
    UntouchedKeepsLeaders(g, TickStep(g));
  }

  lemma ReadyKeepsLeaders(g: Game, leader: Id)
    requires LeadInv(g) && PopInv(ReadyStep(g, leader))
    ensures LeadInv(ReadyStep(g, leader))
  {
    assert LeadersUntouched(g.room, ReadyStep(g, leader).room);
    UntouchedKeepsLeaders(g, ReadyStep(g, leader));
  }

  lemma RunKeepsLeaders(g: Game, t: Task, pick: string)
    requires LeadInv(g) && Enabled(g, Run(t, pick)) && Careful(g, Run(t, pick)) && PopInv(Next(g, Run(t, pick)))
    ensures LeadInv(Next(g, Run(t, pick)))
  {
    assert t.DecideVote? ==> pick in Names(Run(t, pick));
    TaskKeepsLeaders(g.(tasks := g.tasks - multiset{t}), t, pick);
  }

  lemma {:induction false} StepKeepsLeaders(g: Game, a: Action)
    requires LeadInv(g) && Enabled(g, a) && Careful(g, a)
    ensures LeadInv(Next(g, a))
  {
    StepKeepsPop(g, a);
    match a
    case StartGame(_, _, _, _) => DealKeepsLeaders(g, a);
    case ResetGame =>
    case EditPlayers(qs) => EditKeepsLeaders(g, qs);
    case StartRound(n) => NewRoundKeepsLeaders(g, n);
    case SelectHostages(leader, ids) => SelectionKeepsLeaders(g, leader, ids);
    case Tick => ClockKeepsLeaders(g);
    case LeaderReady(leader) => ReadyKeepsLeaders(g, leader);
    case StartVote(_, _, _) => VoteCallsLeaveRoom(g, a);
    case CastVote(_, _, _) => VoteCallsLeaveRoom(g, a);
    case ExpireVote(_) => VoteCallsLeaveRoom(g, a);
    case Run(t, pick) => RunKeepsLeaders(g, t, pick);
    case AssignLeaders(red, blue) => AppointKeepsLeaders(g, red, blue);
    case _ => LeaderCallKeepsLeaders(g, a);
  }

  /** In every run that promotes no hostage before the exchange, each leader is in their own room whenever a
      game is in progress, so the two leaders are different players. */
  lemma {:induction false} LeadersStayLocated(g: Game, acts: seq<Action>)
    requires LeadInv(g) && IsRun(g, acts, Careful)
    ensures var r := After(g, acts).room;
      r.status == InProgress ==> Located(r) && TheRound(r).redLeader != TheRound(r).blueLeader
  {
    LeadAlways(g, acts);
    var r := After(g, acts).room;
    if r.status == InProgress {
      InRoomIff(r.players, TheRound(r).redLeader, RedRoom);
      InRoomIff(r.players, TheRound(r).blueLeader, BlueRoom);
    }
  }

  lemma {:induction false} LeadAlways(g: Game, acts: seq<Action>)
    requires LeadInv(g) && IsRun(g, acts, Careful)
    ensures LeadInv(After(g, acts))
  {
    forall h, a | LeadInv(h) && Enabled(h, a) && Careful(h, a) ensures LeadInv(Next(h, a)) { StepKeepsLeaders(h, a); }
    RunKeeps(g, acts, Careful, LeadInv);
  }

  // ----- a hostage choice exists -----

  lemma {:induction false} PickDistinct(s: set<Id>, k: nat) returns (ids: seq<Id>)
    requires k <= |s|
    ensures |ids| == k && NoRepeat(ids) && forall x :: x in ids ==> x in s
  {
    if k == 0 {
      ids := [];
    } else {
      var x :| x in s;
      var rest := PickDistinct(s - {x}, k - 1);
      ids := [x] + rest;
    }
  }

  lemma QuotaFits(players: int, n: int)
    requires players >= 6 && 1 <= n <= 3
    ensures 1 <= HostageQuota(players, n) <= players / 2 - 1
  {
  }

  /** The round is on and this room's selection is still open. */
  predicate Choosing(r: RoomView, c: RoomColor) {
    HasRound(r) && (if c == RedRoom then TheRound(r).redHostages else TheRound(r).blueHostages) == []
  }

  /** The players a leader of a room may select. */
  function Selectable(r: RoomView, c: RoomColor): set<Id>
    requires HasRound(r)
  {
    IdsIn(r.players, c) - {TheRound(r).redLeader, TheRound(r).blueLeader}
  }

  /** There are always enough of them. */
  lemma {:induction false} EnoughSelectable(r: RoomView, c: RoomColor)
    requires Distinct(r.players) && Seated(r) && Located(r) && (c == RedRoom || c == BlueRoom)
    ensures TheRound(r).hostageCount <= |Selectable(r, c)|
  {
    var rd := TheRound(r);
    InRoomIff(r.players, rd.redLeader, RedRoom);
    InRoomIff(r.players, rd.blueLeader, BlueRoom);
    InRoomIff(r.players, rd.redLeader, c);
    InRoomIff(r.players, rd.blueLeader, c);
    QuotaFits(|r.players|, rd.number);
    assert Selectable(r, c) == IdsIn(r.players, c) - {LeaderOf(rd, c)};
  }

  /** Whoever leads a room that has not chosen yet has a selection that will be accepted. */
  lemma {:induction false} ChoiceExists(r: RoomView, c: RoomColor)
    requires Distinct(r.players) && Seated(r) && Located(r) && (c == RedRoom || c == BlueRoom)
    requires Choosing(r, c)
    ensures exists ids :: ChooseHostages(r, LeaderOf(TheRound(r), c), ids).Ok?
  {
    var rd := TheRound(r);
    var leader := LeaderOf(rd, c);
    InRoomIff(r.players, leader, c);
    EnoughSelectable(r, c);
    var ids := PickDistinct(Selectable(r, c), rd.hostageCount);
    SelectionAcceptedIff(r, leader, ids);
  }

  /** In every such run, as long as a game is in progress, both leaders have enough other players to choose from, and
      one who still has to choose has a selection that will be accepted. */
  lemma {:induction false} HostageChoiceExists(g: Game, acts: seq<Action>, c: RoomColor)
    requires LeadInv(g) && IsRun(g, acts, Careful) && (c == RedRoom || c == BlueRoom)
    ensures var r := After(g, acts).room;
      r.status == InProgress ==>
        && HasRound(r) && TheRound(r).hostageCount <= |Selectable(r, c)|
        && (Choosing(r, c) ==> exists ids :: ChooseHostages(r, LeaderOf(TheRound(r), c), ids).Ok?)
  {
    LeadAlways(g, acts);
    var r := After(g, acts).room;
    if r.status == InProgress {
      EnoughSelectable(r, c);
      if Choosing(r, c) {
        ChoiceExists(r, c);
      }
    }
  }
}
