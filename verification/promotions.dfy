/** The exact condition under which leaders stay in their rooms: no leader is a selected hostage who still has
    to change rooms.  When one is, the pending exchange carries that leader out of the room. */
module Promotions {
  import opened Models
  import opened Rules
  import opened Protocol
  import opened Population
  import opened Leaders

  /** Two complete selections that have not changed rooms have an exchange pending. */
  ghost predicate Armed(g: Game) {
    && g.room.status == InProgress
    && HasRound(g.room)
    && BothSelected(TheRound(g.room))
    && !Swapped(g.room.players, TheRound(g.room))
    ==> Exchange in g.tasks
  }

  lemma {:induction false} OtherTasksStay(g: Game, a: Action)
    requires Exchange in g.tasks && (a.Run? ==> a.task != Exchange)
    ensures Exchange in Next(g, a).tasks
  {
    match a
    case Run(t, pick) =>
      var h := g.(tasks := g.tasks - multiset{t});
      assert Exchange in h.tasks;
      TasksOnlyGrow(h, t, pick);
    case StartVote(c, initiator, target) => assert g.tasks <= StartVoteStep(g, c, initiator, target).tasks;
    case CastVote(v, voter, choice) => assert g.tasks <= CastStep(g, v, voter, choice).tasks;
    case _ =>
  }

  lemma {:induction false} TasksOnlyGrow(g: Game, t: Task, pick: string)
    ensures g.tasks <= RunStep(g, t, pick).tasks
  {
    match t
    case DecideVote(v, how) => assert g.tasks <= DecideStep(g, v, how, pick).tasks;
    case ElectLeader(v, how) => assert g.tasks <= ElectStep(g, v, how, pick).tasks;
    case _ =>
  }

  lemma {:induction false} QuietStepKeepsArmed(g: Game, a: Action)
    requires PopInv(g) && Armed(g) && Quiet(a)
    ensures Armed(Next(g, a))
  {
    var h := Next(g, a);
    QuietStepKeepsSeats(g, a);
    if h.room.status == InProgress && BothSelected(TheRound(h.room)) && !Swapped(h.room.players, TheRound(h.room)) {
      assert !Swapped(g.room.players, TheRound(g.room));
      OtherTasksStay(g, a);
    }
  }

  lemma {:induction false} StepKeepsArmed(g: Game, a: Action)
    requires PopInv(g) && Armed(g) && Enabled(g, a)
    ensures Armed(Next(g, a))
  {
    match a
    case StartGame(_, _, _, _) =>
    case ResetGame =>
    case EditPlayers(qs) =>
      if g.room.status == InProgress {
        SameSeatsKeep(g.room.players, qs, RedRoom);
        SameSeatsKeep(g.room.players, qs, BlueRoom);
      }
    case StartRound(_) =>
    case SelectHostages(leader, ids) =>
      if ChooseHostages(g.room, leader, ids).Err? {
        assert Next(g, a) == g;
      }
    case Run(t, pick) =>
      if t == Exchange {
        if ExecuteExchange(g.room).Ok? && g.room.status == InProgress { ExchangeKeepsSeats(g.room); }
        else if g.room.status == InProgress { BothSelectedExchanges(g.room); }
      } else if t.Advance? {
        AdvanceKeepsArmed(g, t, pick);
      } else {
        QuietStepKeepsArmed(g, a);
      }
    case _ => QuietStepKeepsArmed(g, a);
  }

  lemma BothSelectedExchanges(r: RoomView)
    requires Seated(r)
    ensures BothSelected(TheRound(r)) <==> ExecuteExchange(r).Ok?
  {
  }

  lemma AdvanceKeepsArmed(g: Game, t: Task, pick: string)
    requires PopInv(g) && Armed(g) && t.Advance?
    ensures Armed(Next(g, Run(t, pick)))
  {
    var h := Next(g, Run(t, pick));
    if h.room == g.room {
      if Exchange in g.tasks { OtherTasksStay(g, Run(t, pick)); }
    }
  }

  /** Over every careful run from here, leaders are in their rooms whenever a game is in progress. */
  ghost predicate StaysLocated(g: Game) {
    forall acts :: IsRun(g, acts, Careful) && After(g, acts).room.status == InProgress ==> Located(After(g, acts).room)
  }

  /** A leader among the hostages leaves the room with them. */
  lemma {:induction false} ExchangeUnseats(r: RoomView, c: RoomColor)
    requires Distinct(r.players) && Seated(r) && Located(r) && BothSelected(TheRound(r))
    requires (c == RedRoom || c == BlueRoom) && Pending(r, LeaderOf(TheRound(r), c))
    ensures ExecuteExchange(r).Ok?
    ensures var s := ExecuteExchange(r).value; s.status == r.status && !Located(s)
  {
    var x := LeaderOf(TheRound(r), c);
    InRoomIff(r.players, x, RedRoom);
    InRoomIff(r.players, x, BlueRoom);
    BothSelectedExchanges(r);
    ExchangeKeepsSeats(r);
    var s := ExecuteExchange(r).value;
    InRoomIff(s.players, x, RedRoom);
    InRoomIff(s.players, x, BlueRoom);
  }

  lemma {:induction false} ExchangeMovesLeader(g: Game, c: RoomColor)
    requires PopInv(g) && g.room.status == InProgress && Located(g.room) && Exchange in g.tasks
    requires (c == RedRoom || c == BlueRoom) && Pending(g.room, LeaderOf(TheRound(g.room), c))
    requires BothSelected(TheRound(g.room))
    ensures IsRun(g, [Run(Exchange, "")], Careful)
    ensures var h := After(g, [Run(Exchange, "")]); h.room.status == InProgress && !Located(h.room)
  {
    ExchangeUnseats(g.room, c);
    RunOne(g, Run(Exchange, ""), Careful);
  }

  predicate SameLeaders(rd: RoundView, rd': RoundView) {
    rd'.redLeader == rd.redLeader && rd'.blueLeader == rd.blueLeader
  }

  /** An accepted selection by the room that still has to choose completes both selections, without changing
      who leads or who was pending. */
  lemma {:induction false} ChoiceCompletes(r: RoomView, c: RoomColor, d: RoomColor, ids: seq<Id>)
    requires Distinct(r.players) && Seated(r) && Located(r) && !BothSelected(TheRound(r))
    requires (c == RedRoom && d == BlueRoom) || (c == BlueRoom && d == RedRoom)
    requires Pending(r, LeaderOf(TheRound(r), c))
    requires ChooseHostages(r, LeaderOf(TheRound(r), d), ids).Ok?
    ensures var s := ChooseHostages(r, LeaderOf(TheRound(r), d), ids).value;
      && s.status == r.status && s.players == r.players && Located(s) && BothSelected(TheRound(s))
      && SameLeaders(TheRound(r), TheRound(s))
      && Pending(s, LeaderOf(TheRound(s), c))
  {
    var rd := TheRound(r);
    InRoomIff(r.players, LeaderOf(rd, c), c);
    InRoomIff(r.players, LeaderOf(rd, c), d);
    InRoomIff(r.players, LeaderOf(rd, d), d);
    QuotaFits(|r.players|, rd.number);
    assert |ids| == rd.hostageCount;
  }

  lemma {:induction false} OtherRoomCanChoose(r: RoomView, c: RoomColor) returns (leader: Id, ids: seq<Id>)
    requires Distinct(r.players) && Seated(r) && Located(r) && !BothSelected(TheRound(r))
    requires (c == RedRoom || c == BlueRoom) && Pending(r, LeaderOf(TheRound(r), c))
    ensures ChooseHostages(r, leader, ids).Ok?
    ensures var s := ChooseHostages(r, leader, ids).value;
      && s.status == r.status && Located(s) && BothSelected(TheRound(s))
      && Pending(s, LeaderOf(TheRound(s), c))
  {
    var d := if c == RedRoom then BlueRoom else RedRoom;
    InRoomIff(r.players, LeaderOf(TheRound(r), c), c);
    InRoomIff(r.players, LeaderOf(TheRound(r), c), d);
    ChoiceExists(r, d);
    leader := LeaderOf(TheRound(r), d);
    ids :| ChooseHostages(r, leader, ids).Ok?;
    ChoiceCompletes(r, c, d, ids);
  }

  lemma {:induction false} ChoiceThenLoss(g: Game, c: RoomColor) returns (acts: seq<Action>)
    requires PopInv(g) && g.room.status == InProgress && Located(g.room) && !BothSelected(TheRound(g.room))
    requires (c == RedRoom || c == BlueRoom) && Pending(g.room, LeaderOf(TheRound(g.room), c))
    ensures IsRun(g, acts, Careful) && After(g, acts).room.status == InProgress && !Located(After(g, acts).room)
  {
    var leader, ids := OtherRoomCanChoose(g.room, c);
    SelectionKeepsPop(g, leader, ids);
    var h, a := SelectStep(g, leader, ids), SelectHostages(leader, ids);
    ExchangeMovesLeader(h, c);
    assert Next(g, a) == h && Careful(g, a);
    RunMore(g, a, [Run(Exchange, "")], Careful);
    acts := [a] + [Run(Exchange, "")];
  }

  lemma {:induction false} PendingLeaderIsLost(g: Game, c: RoomColor)
    requires PopInv(g) && Armed(g) && g.room.status == InProgress && Located(g.room)
    requires (c == RedRoom || c == BlueRoom) && Pending(g.room, LeaderOf(TheRound(g.room), c))
    ensures !StaysLocated(g)
  {
    if BothSelected(TheRound(g.room)) {
      PendingNotSwapped(g.room, LeaderOf(TheRound(g.room), c));
      ExchangeMovesLeader(g, c);
    } else {
      var acts := ChoiceThenLoss(g, c);
    }
  }

  lemma PendingNotSwapped(r: RoomView, x: Id)
    requires Distinct(r.players) && Pending(r, x)
    ensures !Swapped(r.players, TheRound(r))
  {
    InRoomIff(r.players, x, RedRoom);
    InRoomIff(r.players, x, BlueRoom);
  }

  /** Leaders stay in their rooms over every careful run exactly when no leader is a hostage still to move. */
  lemma {:induction false} LeadersSafeIff(g: Game)
    requires PopInv(g) && Armed(g) && g.room.status == InProgress && Located(g.room)
    ensures StaysLocated(g) <==> NoLeaderPending(g.room)
  {
    if NoLeaderPending(g.room) {
      forall acts | IsRun(g, acts, Careful) && After(g, acts).room.status == InProgress ensures Located(After(g, acts).room) {
        LeadersStayLocated(g, acts);
      }
    } else if Pending(g.room, TheRound(g.room).redLeader) {
      PendingLeaderIsLost(g, RedRoom);
    } else {
      PendingLeaderIsLost(g, BlueRoom);
    }
  }

  ghost predicate PopArmed(g: Game) {
    PopInv(g) && Armed(g)
  }

  /** The same at every point of every run from a lobby, careful so far or not: from here on careful runs keep
      the leaders in their rooms exactly when no leader is a hostage still to move. */
  lemma {:induction false} LeadersSafeAnywhereIff(g: Game, acts: seq<Action>)
    requires InLobby(g) && IsRun(g, acts, Anything)
    requires After(g, acts).room.status == InProgress && Located(After(g, acts).room)
    ensures StaysLocated(After(g, acts)) <==> NoLeaderPending(After(g, acts).room)
  {
    forall h, a | PopArmed(h) && Enabled(h, a) ensures PopArmed(Next(h, a)) {
      StepKeepsPop(h, a);
      StepKeepsArmed(h, a);
    }
    RunKeeps(g, acts, Anything, PopArmed);
    LeadersSafeIff(After(g, acts));
  }

  lemma {:induction false} TransferEffect(r: RoomView, current: Id, next: Id)
    requires Distinct(r.players) && Seated(r) && Located(r) && NoLeaderPending(r)
    requires TransferLeadership(r, current, next).Ok?
    ensures var s := TransferLeadership(r, current, next).value;
      s.status == r.status && Located(s) && (NoLeaderPending(s) <==> !Pending(r, next))
  {
    var c, s := RoomOf(r.players, current), TransferLeadership(r, current, next).value;
    InRoomIff(r.players, next, c);
    var i :| 0 <= i < |r.players| && r.players[i].id == next && r.players[i].room == c;
    assert forall y :: Pending(s, y) <==> Pending(r, y);
  }

  /** Handing leadership over is safe exactly when the new leader is not a hostage still to move. */
  lemma {:induction false} TransferSafeIff(g: Game, current: Id, next: Id)
    requires LeadInv(g) && Armed(g) && g.room.status == InProgress
    requires TransferLeadership(g.room, current, next).Ok?
    ensures StaysLocated(Next(g, Transfer(current, next))) <==> !Pending(g.room, next)
  {
    var h := Next(g, Transfer(current, next));
    TransferEffect(g.room, current, next);
    StepKeepsPop(g, Transfer(current, next));
    StepKeepsArmed(g, Transfer(current, next));
    LeadersSafeIff(h);
  }

  // ----- a promotion that loses a leader -----

  /** The first half of the players in the red room, the second in the blue one. */
  function SomeDeal(ps: seq<PlayerView>): (qs: seq<PlayerView>)
    ensures |qs| == |ps|
    ensures forall i :: 0 <= i < |ps| ==>
              SamePerson(ps[i], qs[i]) && qs[i].room == if i < |ps| - |ps| / 2 then RedRoom else BlueRoom
  {
    var red := Role("RED_OPERATIVE", TeamRed, false, false);
    seq(|ps|, i requires 0 <= i < |ps| =>
      ps[i].(role := Some(red), team := TeamRed, room := if i < |ps| - |ps| / 2 then RedRoom else BlueRoom))
  }

  lemma {:induction false} IdsOfPart(ps: seq<PlayerView>, lo: nat, hi: nat)
    requires Distinct(ps) && lo <= hi <= |ps|
    ensures |set i | lo <= i < hi :: ps[i].id| == hi - lo
  {
    if lo == hi {
    } else {
      IdsOfPart(ps, lo, hi - 1);
      assert (set i | lo <= i < hi :: ps[i].id) == (set i | lo <= i < hi - 1 :: ps[i].id) + {ps[hi - 1].id};
    }
  }

  /** There is always a deal. */
  lemma {:induction false} DealExists(ps: seq<PlayerView>)
    requires Distinct(ps)
    ensures IsDeal(ps, SomeDeal(ps))
  {
    var qs, n := SomeDeal(ps), |ps| - |ps| / 2;
    assert forall i :: 0 <= i < |ps| ==> SamePerson(ps[i], qs[i]) && qs[i].id == ps[i].id;
    assert IdsIn(qs, RedRoom) == set i | 0 <= i < n :: qs[i].id;
    assert IdsIn(qs, BlueRoom) == set i | n <= i < |ps| :: qs[i].id;
    IdsOfPart(qs, 0, n);
    IdsOfPart(qs, n, |ps|);
  }

  lemma {:induction false} StartInLobby(g: Game, session: Id, dealt: seq<PlayerView>, red: Id, blue: Id)
    requires InLobby(g) && |g.room.players| >= 6 && IsDeal(g.room.players, dealt)
    requires red in IdsIn(dealt, RedRoom) && blue in IdsIn(dealt, BlueRoom)
    ensures var h := Next(g, StartGame(session, dealt, red, blue));
      && LeadInv(h) && Armed(h) && h.room.status == InProgress && Choosing(h.room, RedRoom)
      && TheRound(h.room).redLeader == red && TheRound(h.room).status == Active
  {
    DealShape(g.room, session, dealt, red, blue);
    StepKeepsLeaders(g, StartGame(session, dealt, red, blue));
    assert Next(g, StartGame(session, dealt, red, blue)).room == DealGame(g.room, session, dealt, red, blue).value;
  }

  lemma DealShape(r: RoomView, session: Id, dealt: seq<PlayerView>, red: Id, blue: Id)
    requires r.status != InProgress && |r.players| >= 6 && Distinct(r.players) && IsDeal(r.players, dealt)
    requires red in IdsIn(dealt, RedRoom) && blue in IdsIn(dealt, BlueRoom)
    ensures DealGame(r, session, dealt, red, blue).Ok?
    ensures var s := DealGame(r, session, dealt, red, blue).value;
      && s.status == InProgress && HasRound(s)
      && var rd := TheRound(s);
        rd.redLeader == red && rd.status == Active && rd.redHostages == [] && rd.blueHostages == []
  {
    assert Distinct(dealt) by {
      assert forall i :: 0 <= i < |dealt| ==> SamePerson(r.players[i], dealt[i]);
    }
    InRoomIff(dealt, red, RedRoom);
    InRoomIff(dealt, blue, BlueRoom);
  }

  /** A selected player of the leader's room can be handed the leadership. */
  lemma {:induction false} HostageIsPromoted(r: RoomView, ids: seq<Id>)
    requires Distinct(r.players) && Seated(r) && Located(r) && TheRound(r).status == Active
    requires ChooseHostages(r, TheRound(r).redLeader, ids).Ok?
    ensures ids != []
    ensures var s := ChooseHostages(r, TheRound(r).redLeader, ids).value;
      && s.status == r.status && TransferLeadership(s, TheRound(r).redLeader, ids[0]).Ok? && Pending(s, ids[0])
  {
    var rd := TheRound(r);
    InRoomIff(r.players, rd.redLeader, RedRoom);
    SelectionAcceptedIff(r, rd.redLeader, ids);
    QuotaFits(|r.players|, rd.number);
    assert ids[0] in IdsIn(r.players, RedRoom);
    InRoomIff(r.players, ids[0], RedRoom);
  }

  /** From every lobby of at least six players: the game starts, the red leader selects hostages and hands the
      leadership to one of them.  The source accepts all three calls, both leaders stand in their rooms, and a
      careful run from there carries the new leader out of the red one. */
  lemma {:induction false} PromotionHappens(g: Game, session: Id, dealt: seq<PlayerView>, red: Id, blue: Id)
    returns (acts: seq<Action>)
    requires InLobby(g) && |g.room.players| >= 6 && IsDeal(g.room.players, dealt)
    requires red in IdsIn(dealt, RedRoom) && blue in IdsIn(dealt, BlueRoom)
    ensures IsRun(g, acts, Anything)
    ensures After(g, acts).room.status == InProgress && Located(After(g, acts).room) && !StaysLocated(After(g, acts))
  {
    var start := StartGame(session, dealt, red, blue);
    var h1 := Next(g, start);
    StartInLobby(g, session, dealt, red, blue);
    ChoiceExists(h1.room, RedRoom);
    var ids :| ChooseHostages(h1.room, red, ids).Ok?;
    HostageIsPromoted(h1.room, ids);
    var select, promote := SelectHostages(red, ids), Transfer(red, ids[0]);
    StepKeepsLeaders(h1, select);
    StepKeepsArmed(h1, select);
    var h2 := Next(h1, select);
    assert h2 == SelectStep(h1, red, ids);
    TransferEffect(h2.room, red, ids[0]);
    TransferSafeIff(h2, red, ids[0]);
    RunTwo(h1, select, promote, Anything);
    RunMore(g, start, [select] + [promote], Anything);
    acts := [start] + ([select] + [promote]);
  }

  /** So in every lobby of at least six players the hypothesis of careful runs can be broken by accepted calls. */
  lemma {:induction false} LossHappens(g: Game, session: Id) returns (acts: seq<Action>)
    requires InLobby(g) && |g.room.players| >= 6
    ensures IsRun(g, acts, Anything)
    ensures After(g, acts).room.status == InProgress && Located(After(g, acts).room) && !StaysLocated(After(g, acts))
  {
    var dealt := SomeDeal(g.room.players);
    DealExists(g.room.players);
    assert IdsIn(dealt, RedRoom) != {} && IdsIn(dealt, BlueRoom) != {};
    var red :| red in IdsIn(dealt, RedRoom);
    var blue :| blue in IdsIn(dealt, BlueRoom);
    acts := PromotionHappens(g, session, dealt, red, blue);
  }
}
