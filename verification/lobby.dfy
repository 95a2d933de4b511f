/** The players of one room coming, going and changing names, around the games they play in it. */
module Lobby {
  import opened Models
  import opened Rules
  import opened Nicknames
  import Protocol
  import Population

  // ----- steps -----

  function AnonymousName(number: nat): string {
    "플레이어" + Decimal(number)
  }

  function Newcomer(ps: seq<PlayerView>, id: Id): PlayerView {
    PlayerView(id, AnonymousName(|ps| + 1), true, |ps| == 0, None, NoTeam, NoRoom)
  }

  function Join(r: RoomView, maxPlayers: int, id: Id): Result<RoomView> {
    if |r.players| >= maxPlayers then Err(RoomFull)
    else if r.status == InProgress then Err(GameAlreadyStarted)
    else Ok(r.(players := r.players + [Newcomer(r.players, id)]))
  }

  predicate GoodLength(name: string) {
    2 <= |name| <= 20
  }

  function Rename(r: RoomView, id: Id, name: string): Result<RoomView> {
    var k := IndexOf(r.players, id);
    if !GoodLength(name) then Err(InvalidNickname)
    else if k == |r.players| then Err(PlayerNotFound)
    else Ok(r.(players := r.players[k := r.players[k].(nickname := Deduplicated(r.players, id, name), isAnonymous := false)]))
  }

  datatype Departure = Closes | Remains(room: RoomView)

  function Leave(r: RoomView, id: Id): Result<Departure> {
    var k := IndexOf(r.players, id);
    if k == |r.players| then Err(PlayerNotFound)
    else if r.players[k].isOwner then Ok(if r.status != InProgress then Closes else Remains(r))
    else if r.status == InProgress then Ok(Remains(r))
    else
      var rest := r.players[..k] + r.players[k + 1..];
      Ok(if rest == [] then Closes else Remains(r.(players := rest)))
  }

  function NextOwner(ps: seq<PlayerView>, oldOwner: Id): (k: Option<nat>)
    ensures k.Some? ==> k.value < |ps| && ps[k.value].id != oldOwner
  {
    if ps == [] then None
    else if ps[0].id != oldOwner then Some(0)
    else
      var k := NextOwner(ps[1..], oldOwner);
      if k.None? then None else Some(k.value + 1)
  }

  function OwnedBy(ps: seq<PlayerView>, k: nat): (qs: seq<PlayerView>)
    ensures |qs| == |ps|
    ensures forall i :: 0 <= i < |ps| ==> qs[i] == ps[i].(isOwner := i == k)
  {
    seq(|ps|, i requires 0 <= i < |ps| => ps[i].(isOwner := i == k))
  }

  function TransferOwnership(r: RoomView, oldOwner: Id): Result<RoomView> {
    match NextOwner(r.players, oldOwner)
    case None => Err(NoOtherPlayer)
    case Some(k) => Ok(r.(players := OwnedBy(r.players, k)))
  }

  // ----- runs -----

  /** A room until it is closed, with the game played in it. */
  datatype Site = Closed | Live(game: Protocol.Game, maxPlayers: int)

  datatype Move =
    | Joins(id: Id)
    | Leaves(id: Id)
    | Renames(id: Id, name: string)
    | Transfers(oldOwner: Id)
    | Plays(a: Protocol.Action)  // any step of the game itself

  /** A room as it is created. */
  predicate Created(s: Site) {
    && s.Live? && 6 <= s.maxPlayers <= 30
    && s.game.room == RoomView(Waiting, [], None)
  }

  /** New player ids are drawn afresh. */
  ghost predicate Allowed(s: Site, m: Move) {
    s.Live? ==>
      match m
      case Joins(id) => id != "" && !Has(s.game.room.players, id)
      case Plays(a) => !a.EditPlayers? && Protocol.Enabled(s.game, a)
      case _ => true
  }

  function Settle(s: Site, r: Result<RoomView>): Site
    requires s.Live?
  {
    s.(game := Protocol.SetRoom(s.game, r))
  }

  function Step(s: Site, m: Move): Site {
    if s.Closed? then s else
    var r := s.game.room;
    match m
    case Joins(id) => Settle(s, Join(r, s.maxPlayers, id))
    case Leaves(id) =>
      var d := Leave(r, id);
      if d.Err? then s else if d.value.Closes? then Closed else Settle(s, Ok(d.value.room))
    case Renames(id, name) => Settle(s, Rename(r, id, name))
    case Transfers(oldOwner) => Settle(s, TransferOwnership(r, oldOwner))
    case Plays(a) => s.(game := Protocol.Next(s.game, a))
  }

  ghost predicate IsStay(s: Site, moves: seq<Move>)
    decreases |moves|
  {
    moves == [] || (Allowed(s, moves[0]) && IsStay(Step(s, moves[0]), moves[1..]))
  }

  function AfterMoves(s: Site, moves: seq<Move>): Site
    decreases |moves|
  {
    if moves == [] then s else AfterMoves(Step(s, moves[0]), moves[1..])
  }

  // ----- one owner, and room for everybody -----

  predicate OwnedAt(ps: seq<PlayerView>, k: nat) {
    k < |ps| && ps[k].isOwner && forall i :: 0 <= i < |ps| && i != k ==> !ps[i].isOwner
  }

  predicate OneOwner(ps: seq<PlayerView>) {
    ps == [] || exists k :: 0 <= k < |ps| && OwnedAt(ps, k)
  }

  predicate LobbyInv(s: Site) {
    s.Live? ==>
      var ps := s.game.room.players;
      6 <= s.maxPlayers <= 30 && |ps| <= s.maxPlayers && Distinct(ps) && OneOwner(ps)
  }

  /** The same people, in the same order; only their part in the game differs. */
  predicate SamePeople(ps: seq<PlayerView>, qs: seq<PlayerView>) {
    |ps| == |qs| && forall i :: 0 <= i < |ps| ==> Identity(qs[i]) == Identity(ps[i])
  }

  function Identity(p: PlayerView): (Id, string, bool, bool) {
    (p.id, p.nickname, p.isAnonymous, p.isOwner)
  }

  lemma PeopleKeepInv(ps: seq<PlayerView>, qs: seq<PlayerView>)
    requires SamePeople(ps, qs) && Distinct(ps) && OneOwner(ps)
    ensures Distinct(qs) && OneOwner(qs)
  {
    PeopleKeepIds(ps, qs);
    if ps != [] {
      var k :| 0 <= k < |ps| && OwnedAt(ps, k);
      PeopleKeepOwner(ps, qs, k);
    }
  }

  lemma PeopleKeepIds(ps: seq<PlayerView>, qs: seq<PlayerView>)
    requires SamePeople(ps, qs) && Distinct(ps)
    ensures Distinct(qs)
  {
    assert forall i :: 0 <= i < |ps| ==> Identity(qs[i]).0 == Identity(ps[i]).0;
    assert forall i :: 0 <= i < |ps| ==> qs[i].id == ps[i].id;
  }

  lemma PeopleKeepOwner(ps: seq<PlayerView>, qs: seq<PlayerView>, k: nat)
    requires SamePeople(ps, qs) && OwnedAt(ps, k)
    ensures OwnedAt(qs, k)
  {
    assert forall i :: 0 <= i < |ps| ==> Identity(qs[i]).3 == Identity(ps[i]).3;
  }

  lemma ExchangeKeepsPeople(r: RoomView)
    requires ExecuteExchange(r).Ok?
    ensures SamePeople(r.players, ExecuteExchange(r).value.players)
  {
  }

  lemma DealKeepsPeople(r: RoomView, id: Id, dealt: seq<PlayerView>, red: Id, blue: Id)
    requires IsDeal(r.players, dealt) && DealGame(r, id, dealt, red, blue).Ok?
    ensures SamePeople(r.players, DealGame(r, id, dealt, red, blue).value.players)
  {
    assert forall i :: 0 <= i < |dealt| ==> SamePerson(r.players[i], dealt[i]);
    assert DealGame(r, id, dealt, red, blue).value.players == dealt;
  }

  lemma ResetKeepsPeople(r: RoomView)
    requires ClearGame(r).Ok?
    ensures SamePeople(r.players, ClearGame(r).value.players)
  {
  }

  lemma LoudStepKeepsPeople(g: Protocol.Game, a: Protocol.Action)
    requires !Population.Quiet(a) && !a.EditPlayers? && Protocol.Enabled(g, a)
    ensures SamePeople(g.room.players, Protocol.Next(g, a).room.players)
  {
    match a
    case StartGame(id, dealt, red, blue) =>
      if DealGame(g.room, id, dealt, red, blue).Ok? { DealKeepsPeople(g.room, id, dealt, red, blue); }
    case ResetGame => if ClearGame(g.room).Ok? { ResetKeepsPeople(g.room); }
    case StartRound(n) => assert Protocol.BeginRound(g, n).room.players == g.room.players;
    case SelectHostages(leader, ids) => assert Protocol.SelectStep(g, leader, ids).room.players == g.room.players;
    case Run(t, _) => if t.Exchange? && ExecuteExchange(g.room).Ok? { ExchangeKeepsPeople(g.room); }
  }

  /** Whatever happens in the game, the same people stay in the room. */
  lemma PlayKeepsPeople(g: Protocol.Game, a: Protocol.Action)
    requires !a.EditPlayers? && Protocol.Enabled(g, a)
    ensures SamePeople(g.room.players, Protocol.Next(g, a).room.players)
  {
    if Population.Quiet(a) {
      Population.QuietStepKeepsSeats(g, a);
    } else {
      LoudStepKeepsPeople(g, a);
    }
  }

  lemma JoinKeepsOwner(ps: seq<PlayerView>, id: Id)
    requires OneOwner(ps)
    ensures OneOwner(ps + [Newcomer(ps, id)])
  {
    var qs := ps + [Newcomer(ps, id)];
    if ps == [] {
      assert OwnedAt(qs, 0);
    } else {
      var k :| 0 <= k < |ps| && OwnedAt(ps, k);
      assert OwnedAt(qs, k);
    }
  }

  lemma JoinKeepsInv(s: Site, id: Id)
    requires s.Live? && LobbyInv(s) && Allowed(s, Joins(id))
    ensures LobbyInv(Step(s, Joins(id)))
  {
    var ps := s.game.room.players;
    assert forall i :: 0 <= i < |ps| ==> ps[i].id != id;
    JoinKeepsOwner(ps, id);
  }

  lemma RemovalKeepsOwner(ps: seq<PlayerView>, k: nat)
    requires k < |ps| && !ps[k].isOwner && Distinct(ps) && OneOwner(ps)
    ensures var rest := ps[..k] + ps[k + 1..]; rest != [] && Distinct(rest) && OneOwner(rest)
  {
    RemovalKeepsIds(ps, k);
    var o :| 0 <= o < |ps| && OwnedAt(ps, o);
    assert OwnedAt(ps[..k] + ps[k + 1..], if o < k then o else o - 1);
  }

  lemma RemovalKeepsIds(ps: seq<PlayerView>, k: nat)
    requires k < |ps| && Distinct(ps)
    ensures Distinct(ps[..k] + ps[k + 1..])
  {
    var rest := ps[..k] + ps[k + 1..];
    assert forall i :: 0 <= i < |rest| ==> rest[i] == if i < k then ps[i] else ps[i + 1];
  }

  lemma LeaveKeepsInv(s: Site, id: Id)
    requires s.Live? && LobbyInv(s)
    ensures LobbyInv(Step(s, Leaves(id)))
  {
    var ps := s.game.room.players;
    var k := IndexOf(ps, id);
    if k < |ps| && !ps[k].isOwner {
      RemovalKeepsOwner(ps, k);
    }
  }

  lemma TransferKeepsInv(s: Site, oldOwner: Id)
    requires s.Live? && LobbyInv(s)
    ensures LobbyInv(Step(s, Transfers(oldOwner)))
  {
    var ps := s.game.room.players;
    var k := NextOwner(ps, oldOwner);
    if k.Some? {
      assert OwnedAt(OwnedBy(ps, k.value), k.value);
    }
  }

  lemma RenameKeepsInv(s: Site, id: Id, name: string)
    requires s.Live? && LobbyInv(s)
    ensures LobbyInv(Step(s, Renames(id, name)))
  {
    var ps := s.game.room.players;
    var r := Rename(s.game.room, id, name);
    if r.Ok? {
      var qs := r.value.players;
      assert forall i :: 0 <= i < |ps| ==> qs[i].id == ps[i].id && qs[i].isOwner == ps[i].isOwner;
      var k :| 0 <= k < |ps| && OwnedAt(ps, k);
      assert OwnedAt(qs, k);
    }
  }

  lemma StepKeepsLobby(s: Site, m: Move)
    requires LobbyInv(s) && Allowed(s, m)
    ensures LobbyInv(Step(s, m))
  {
    if s.Live? {
      match m
      case Joins(id) => JoinKeepsInv(s, id);
      case Leaves(id) => LeaveKeepsInv(s, id);
      case Renames(id, name) => RenameKeepsInv(s, id, name);
      case Transfers(oldOwner) => TransferKeepsInv(s, oldOwner);
      case Plays(a) =>
        PlayKeepsPeople(s.game, a);
        PeopleKeepInv(s.game.room.players, Protocol.Next(s.game, a).room.players);
    }
  }

  /** From its creation to its closing, a room never holds more players than it was created for, their ids are
      distinct, and exactly one of them is its owner. */
  lemma {:induction false} LobbyAlways(s: Site, moves: seq<Move>)
    requires LobbyInv(s) && IsStay(s, moves)
    ensures LobbyInv(AfterMoves(s, moves))
    decreases |moves|
  {
    if moves == [] {
    } else {
      StepKeepsLobby(s, moves[0]);
      LobbyAlways(Step(s, moves[0]), moves[1..]);
    }
  }

  /** A room closes exactly when its owner leaves it between games: the source's branch for a room that is empty
      after somebody else has left is never taken. */
  lemma {:induction false} LeaveClosesIff(s: Site, moves: seq<Move>, id: Id)
    requires Created(s) && IsStay(s, moves) && AfterMoves(s, moves).Live?
    ensures var r := AfterMoves(s, moves).game.room;
            Leave(r, id) == Ok(Closes) <==>
              r.status != InProgress && exists k :: 0 <= k < |r.players| && r.players[k].id == id && r.players[k].isOwner
  {
    LobbyAlways(s, moves);
    var r := AfterMoves(s, moves).game.room;
    var k := IndexOf(r.players, id);
    if k < |r.players| && !r.players[k].isOwner {
      RemovalKeepsOwner(r.players, k);
    }
  }

  /** Nobody comes or goes during a game. */
  lemma {:induction false} MembershipFrozen(s: Site, m: Move)
    requires s.Live? && s.game.room.status == InProgress && Allowed(s, m)
    ensures Step(s, m).Live?
    ensures var ps, qs := s.game.room.players, Step(s, m).game.room.players;
            |ps| == |qs| && forall i :: 0 <= i < |ps| ==> qs[i].id == ps[i].id
    ensures !m.Plays? ==> Protocol.SameSeats(s.game.room.players, Step(s, m).game.room.players)
  {
    match m
    case Plays(a) =>
      PlayKeepsPeople(s.game, a);
      var ps, qs := s.game.room.players, Step(s, m).game.room.players;
      assert forall i :: 0 <= i < |ps| ==> Identity(qs[i]) == Identity(ps[i]);
    case Joins(_) =>
    case Leaves(_) =>
    case Renames(_, _) =>
    case Transfers(_) =>
  }

  // ----- between games -----

  /** Nobody has a part in a game while the room waits for one. */
  predicate CleanWhenWaiting(r: RoomView) {
    r.status == Waiting ==>
      r.session == None && forall i :: 0 <= i < |r.players| ==>
        r.players[i].role == None && r.players[i].team == NoTeam && r.players[i].room == NoRoom
  }

  /** Without a session nothing that is left over from a game touches the room; only a new game does. */
  lemma {:induction false} IdleRoomStays(g: Protocol.Game, a: Protocol.Action)
    requires g.room.session == None && !a.EditPlayers? && !a.StartGame? && !a.ResetGame?
    ensures Protocol.Next(g, a).room == g.room
  {
    match a
    case Run(t, pick) => IdleRoomIgnores(g.(tasks := g.tasks - multiset{t}), t, pick);
    case StartVote(c, initiator, target) => Population.VoteCallsLeaveRoom(g, a);
    case CastVote(_, _, _) => Population.VoteCallsLeaveRoom(g, a);
    case _ =>
  }

  lemma {:induction false} IdleRoomIgnores(g: Protocol.Game, t: Protocol.Task, pick: string)
    requires g.room.session == None
    ensures Protocol.RunStep(g, t, pick).room == g.room
  {
    match t
    case DecideVote(v, how) => assert Protocol.DecideStep(g, v, how, pick).room == g.room;
    case Exchange =>
    case Advance(_) =>
    case Preserve =>
    case RevealAll =>
    case _ => Population.VoteTasksLeaveRoom(g, t, pick);
  }

  /** Only a reset sends a room back to waiting. */
  lemma {:induction false} OnlyResetWaits(g: Protocol.Game, a: Protocol.Action)
    requires g.room.status != Waiting && !a.ResetGame?
    ensures Protocol.Next(g, a).room.status != Waiting
  {
    match a
    case Run(t, pick) => TaskNeverWaits(g.(tasks := g.tasks - multiset{t}), t, pick);
    case StartVote(_, _, _) => Population.VoteCallsLeaveRoom(g, a);
    case CastVote(_, _, _) => Population.VoteCallsLeaveRoom(g, a);
    case SelectHostages(leader, ids) => assert Protocol.SelectStep(g, leader, ids).room.status == g.room.status;
    case Tick => assert Protocol.TickStep(g).room.status == g.room.status;
    case LeaderReady(leader) => assert Protocol.ReadyStep(g, leader).room.status == g.room.status;
    case _ => LeaderCallNeverWaits(g, a);
  }

  lemma LeaderCallNeverWaits(g: Protocol.Game, a: Protocol.Action)
    requires g.room.status != Waiting && !a.ResetGame? && !a.Run? && !a.SelectHostages? && !a.Tick? && !a.LeaderReady?
    requires !a.StartVote? && !a.CastVote?
    ensures Protocol.Next(g, a).room.status != Waiting
  {
  }

  lemma {:induction false} TaskNeverWaits(g: Protocol.Game, t: Protocol.Task, pick: string)
    requires g.room.status != Waiting
    ensures Protocol.RunStep(g, t, pick).room.status != Waiting
  {
    match t
    case DecideVote(v, how) => assert Protocol.DecideStep(g, v, how, pick).room.status == g.room.status;
    case Exchange =>
    case Advance(_) =>
    case Preserve =>
    case RevealAll =>
    case _ => Population.VoteTasksLeaveRoom(g, t, pick);
  }

  lemma {:induction false} PlayKeepsClean(g: Protocol.Game, a: Protocol.Action)
    requires CleanWhenWaiting(g.room) && !a.EditPlayers?
    ensures CleanWhenWaiting(Protocol.Next(g, a).room)
  {
    if g.room.status == Waiting {
      if !a.StartGame? && !a.ResetGame? {
        IdleRoomStays(g, a);
      }
    } else if !a.ResetGame? {
      OnlyResetWaits(g, a);
    }
  }

  lemma {:induction false} StepKeepsClean(s: Site, m: Move)
    requires s.Live? && CleanWhenWaiting(s.game.room) && Step(s, m).Live?
    requires m.Plays? ==> !m.a.EditPlayers?
    ensures CleanWhenWaiting(Step(s, m).game.room)
  {
    var r := s.game.room;
    match m
    case Plays(a) => PlayKeepsClean(s.game, a);
    case Joins(_) =>
    case Leaves(_) =>
    case Renames(_, _) =>
    case Transfers(_) =>
  }

  /** From its creation on, whatever was played in it and whatever of that is still pending: a room that waits has no
      session, and nobody in it has a role, a team or a room. */
  lemma {:induction false} WaitingIsClean(s: Site, moves: seq<Move>)
    requires s.Live? && CleanWhenWaiting(s.game.room) && IsStay(s, moves) && AfterMoves(s, moves).Live?
    ensures var r := AfterMoves(s, moves).game.room;
            r.status == Waiting ==>
              r.session == None && forall i :: 0 <= i < |r.players| ==>
                r.players[i].role == None && r.players[i].team == NoTeam && r.players[i].room == NoRoom
    decreases |moves|
  {
    if moves == [] {
    } else {
      if Step(s, moves[0]).Closed? {
        ClosedStays(moves[1..]);
      } else {
        StepKeepsClean(s, moves[0]);
        WaitingIsClean(Step(s, moves[0]), moves[1..]);
      }
    }
  }

  lemma {:induction false} CreatedStaysClean(s: Site, moves: seq<Move>)
    requires Created(s) && IsStay(s, moves) && AfterMoves(s, moves).Live?
    ensures CleanWhenWaiting(AfterMoves(s, moves).game.room)
  {
    WaitingIsClean(s, moves);
  }

  // ----- the lobby around the protocol -----

  /** What the protocol takes a lobby move for. */
  function AsAction(s: Site, m: Move): Protocol.Action
    requires s.Live? && Step(s, m).Live?
  {
    if m.Plays? then m.a else Protocol.EditPlayers(Step(s, m).game.room.players)
  }

  lemma MoveIsAction(s: Site, m: Move)
    requires LobbyInv(s) && s.Live? && Allowed(s, m) && Step(s, m).Live?
    ensures Protocol.Enabled(s.game, AsAction(s, m))
    ensures Step(s, m).game == Protocol.Next(s.game, AsAction(s, m))
  {
    StepKeepsLobby(s, m);
    if !m.Plays? && s.game.room.status == InProgress {
      MembershipFrozen(s, m);
    }
  }

  /** Everything proved of all runs of the protocol holds of every room as it is really used: what its players do
      to it from its creation on is one run of the protocol. */
  lemma {:induction false} StayIsRun(s: Site, moves: seq<Move>) returns (acts: seq<Protocol.Action>)
    requires LobbyInv(s) && s.Live? && IsStay(s, moves) && AfterMoves(s, moves).Live?
    ensures Protocol.IsRun(s.game, acts, Protocol.Anything)
    ensures AfterMoves(s, moves).game == Protocol.After(s.game, acts)
    decreases |moves|
  {
    if moves == [] {
      acts := [];
    } else {
      var t := Step(s, moves[0]);
      if t.Closed? {
        ClosedStays(moves[1..]);
      } else {
        MoveIsAction(s, moves[0]);
        StepKeepsLobby(s, moves[0]);
        var rest := StayIsRun(t, moves[1..]);
        acts := [AsAction(s, moves[0])] + rest;
        Protocol.RunMore(s.game, AsAction(s, moves[0]), rest, Protocol.Anything);
      }
    }
  }

  lemma {:induction false} ClosedStays(moves: seq<Move>)
    ensures AfterMoves(Closed, moves) == Closed
    decreases |moves|
  {
    if moves == [] {
    } else {
      ClosedStays(moves[1..]);
    }
  }

  /** So a game's two rooms are evenly filled whenever it is in progress, whoever came and went before it. */
  lemma {:induction false} StayKeepsPopulation(s: Site, moves: seq<Move>)
    requires Created(s) && IsStay(s, moves) && AfterMoves(s, moves).Live?
    ensures var r := AfterMoves(s, moves).game.room;
            r.status == InProgress ==> 6 <= |r.players| <= 30 && EvenSplit(r.players)
  {
    var acts := StayIsRun(s, moves);
    Population.PopAlways(s.game, acts, Protocol.Anything);
    LobbyAlways(s, moves);
  }

  // ----- what the calls do -----

  /** Somebody else in the room goes by this name. */
  predicate CalledSo(ps: seq<PlayerView>, id: Id, name: string) {
    exists i :: 0 <= i < |ps| && ps[i].id != id && ps[i].nickname == name
  }

  /** `given` is what a player who asks for `name` is called: the name itself if nobody else has it, or else the name with
      the first number from 2 on with which nobody else has it, or with 101 if others have it with all numbers to 100. */
  predicate Given(ps: seq<PlayerView>, id: Id, name: string, given: string) {
    if !CalledSo(ps, id, name) then given == name
    else
      exists k: nat :: 2 <= k <= 101 && given == name + " (" + Decimal(k) + ")"
                  && (forall j: nat :: 2 <= j < k ==> CalledSo(ps, id, name + " (" + Decimal(j) + ")"))
                  && (k <= 100 ==> !CalledSo(ps, id, given))
  }

  /** A rename is accepted for a name of 2 to 20 characters. */
  lemma {:induction false} RenameAcceptedIff(r: RoomView, id: Id, name: string)
    requires Distinct(r.players)
    ensures Rename(r, id, name).Ok? <==> 2 <= |name| <= 20 && exists i :: 0 <= i < |r.players| && r.players[i].id == id
    ensures Rename(r, id, name).Err? ==>
              Rename(r, id, name).error == if 2 <= |name| <= 20 then PlayerNotFound else InvalidNickname
  {
    forall i | 0 <= i < |r.players| && r.players[i].id == id ensures IndexOf(r.players, id) == i {
      Population.IndexOfSeat(r.players, i);
    }
  }

  lemma {:induction false} RenameEffect(r: RoomView, id: Id, name: string)
    requires Distinct(r.players) && Rename(r, id, name).Ok?
    ensures Renamed(r, Rename(r, id, name).value, id, name)
  {
    forall i | 0 <= i < |r.players| && r.players[i].id == id ensures IndexOf(r.players, id) == i {
      Population.IndexOfSeat(r.players, i);
    }
    DeduplicatedIsGiven(r.players, id, name);
  }

  /** That player has the name given and is no longer anonymous; nothing else has changed. */
  predicate Renamed(r: RoomView, s: RoomView, id: Id, name: string) {
    && s.status == r.status && s.session == r.session && |s.players| == |r.players|
    && forall i :: 0 <= i < |r.players| ==>
         var p, q := r.players[i], s.players[i];
         && q.(nickname := p.nickname, isAnonymous := p.isAnonymous) == p
         && if p.id == id then !q.isAnonymous && Given(r.players, id, name, q.nickname)
            else q.nickname == p.nickname && q.isAnonymous == p.isAnonymous
  }

  lemma {:induction false} DeduplicatedIsGiven(ps: seq<PlayerView>, id: Id, name: string)
    ensures Given(ps, id, name, Deduplicated(ps, id, name))
  {
    if CalledSo(ps, id, name) {
      var k := FreeNameStops(ps, id, name, 2);
      assert forall j: nat :: Suffixed(name, j) == name + " (" + Decimal(j) + ")";
      assert forall j: nat :: 2 <= j < k ==> Taken(ps, id, Suffixed(name, j));
      assert forall j: nat :: 2 <= j < k ==> CalledSo(ps, id, name + " (" + Decimal(j) + ")");
      assert k <= 100 ==> !CalledSo(ps, id, Suffixed(name, k));
    }
  }

  /** Newcomers come last, anonymous, called by their number and without a part in a game; the first of them owns the
      room. */
  lemma JoinAcceptedIff(r: RoomView, maxPlayers: int, id: Id)
    ensures Join(r, maxPlayers, id).Ok? <==> |r.players| < maxPlayers && r.status != InProgress
    ensures Join(r, maxPlayers, id).Err? ==>
              Join(r, maxPlayers, id).error == if |r.players| < maxPlayers then GameAlreadyStarted else RoomFull
    ensures Join(r, maxPlayers, id).Ok? ==>
              var s, n := Join(r, maxPlayers, id).value, |r.players|;
              && s.status == r.status && s.session == r.session && |s.players| == n + 1 && s.players[..n] == r.players
              && var p := s.players[n];
                && p.id == id && p.nickname == "플레이어" + Decimal(n + 1) && p.isAnonymous && (p.isOwner <==> n == 0)
                && p.role == None && p.team == NoTeam && p.room == NoRoom
  {
  }

  /** Between games a departure takes exactly that player out of the list, and the owner's closes the room; during a game
      nobody goes. */
  lemma {:induction false} LeaveEffect(r: RoomView, id: Id)
    requires Distinct(r.players)
    ensures Leave(r, id).Ok? <==> exists i :: 0 <= i < |r.players| && r.players[i].id == id
    ensures Leave(r, id).Err? ==> Leave(r, id).error == PlayerNotFound
    ensures forall i :: Leave(r, id).Ok? && 0 <= i < |r.players| && r.players[i].id == id ==>
              Leave(r, id).value == if r.status == InProgress then Remains(r)
                                    else if r.players[i].isOwner || |r.players| == 1 then Closes
                                    else Remains(RoomView(r.status, r.players[..i] + r.players[i + 1..], r.session))
  {
    var ps := r.players;
    forall i | 0 <= i < |ps| && ps[i].id == id ensures IndexOf(ps, id) == i {
      Population.IndexOfSeat(ps, i);
    }
  }

  /** The first player who is not the old owner becomes the only owner. */
  lemma {:induction false} NextOwnerIsFirst(ps: seq<PlayerView>, oldOwner: Id)
    ensures NextOwner(ps, oldOwner).None? <==> forall i :: 0 <= i < |ps| ==> ps[i].id == oldOwner
    ensures NextOwner(ps, oldOwner).Some? ==>
              forall i :: 0 <= i < NextOwner(ps, oldOwner).value ==> ps[i].id == oldOwner
    decreases |ps|
  {
    if ps == [] {
    } else if ps[0].id == oldOwner {
      NextOwnerIsFirst(ps[1..], oldOwner);
      assert forall i :: 1 <= i < |ps| ==> ps[i] == ps[1..][i - 1];
    }
  }

  lemma {:induction false} OwnershipEffect(r: RoomView, oldOwner: Id)
    ensures TransferOwnership(r, oldOwner) == Err(NoOtherPlayer) <==>
              forall i :: 0 <= i < |r.players| ==> r.players[i].id == oldOwner
    ensures forall k :: 0 <= k < |r.players| && r.players[k].id != oldOwner
                        && (forall i :: 0 <= i < k ==> r.players[i].id == oldOwner) ==>
              TransferOwnership(r, oldOwner).Ok? && NowOwns(r, TransferOwnership(r, oldOwner).value, k)
  {
    NextOwnerIsFirst(r.players, oldOwner);
  }

  predicate NowOwns(r: RoomView, s: RoomView, k: nat) {
    && s.status == r.status && s.session == r.session && |s.players| == |r.players|
    && forall i :: 0 <= i < |r.players| ==>
         (s.players[i].isOwner <==> i == k) && s.players[i].(isOwner := r.players[i].isOwner) == r.players[i]
  }

  // ----- nicknames -----

  /** A rename keeps nicknames apart. */
  lemma {:induction false} RenameKeepsNames(r: RoomView, id: Id, name: string)
    requires Distinct(r.players) && DistinctNames(r.players) && |r.players| <= LAST_SUFFIX + 1
    requires Rename(r, id, name).Ok?
    ensures DistinctNames(Rename(r, id, name).value.players)
  {
    var ps, k := r.players, IndexOf(r.players, id);
    DeduplicatedIsFree(ps, id, name);
    var qs := Rename(r, id, name).value.players;
    forall i, j | 0 <= i < j < |qs| ensures qs[i].nickname != qs[j].nickname {
      if i == k {
        assert qs[j] == ps[j] && ps[j].id != id;
      } else if j == k {
        assert qs[i] == ps[i] && ps[i].id != id;
      }
    }
  }

  /** A newcomer's name is nobody's exactly when nobody already goes by that number. */
  lemma JoinKeepsNamesIff(r: RoomView, maxPlayers: int, id: Id)
    requires DistinctNames(r.players) && Join(r, maxPlayers, id).Ok?
    ensures DistinctNames(Join(r, maxPlayers, id).value.players) <==>
              forall i :: 0 <= i < |r.players| ==> r.players[i].nickname != AnonymousName(|r.players| + 1)
  {
    var ps, qs := r.players, Join(r, maxPlayers, id).value.players;
    if DistinctNames(qs) {
      forall i | 0 <= i < |ps| ensures ps[i].nickname != AnonymousName(|ps| + 1) {
        assert qs[i] == ps[i] && qs[|ps|].nickname == AnonymousName(|ps| + 1);
      }
    }
  }

  /** Four joins and a leave are enough for two players of the same name. */
  lemma AnonymousNamesClash(s: Site, a: Id, b: Id, c: Id, d: Id)
    requires Created(s) && a != "" && b != "" && c != "" && d != ""
    requires a != b && a != c && a != d && b != c && b != d && c != d
    ensures var moves := [Joins(a), Joins(b), Joins(c), Leaves(b), Joins(d)];
            IsStay(s, moves) && AfterMoves(s, moves).Live? && !DistinctNames(AfterMoves(s, moves).game.room.players)
  {
    var moves := [Joins(a), Joins(b), Joins(c), Leaves(b), Joins(d)];
    var pa := Newcomer([], a);
    var pb := Newcomer([pa], b);
    var pc := Newcomer([pa, pb], c);
    var pd := Newcomer([pa, pc], d);
    var s1, s2, s3 := At(s, [pa]), At(s, [pa, pb]), At(s, [pa, pb, pc]);
    var s4, s5 := At(s, [pa, pc]), At(s, [pa, pc, pd]);
    assert Step(s, Joins(a)) == s1;
    assert Step(s1, Joins(b)) == s2;
    assert Step(s2, Joins(c)) == s3;
    assert IndexOf([pa, pb, pc], b) == 1;
    assert Step(s3, Leaves(b)) == s4;
    assert Step(s4, Joins(d)) == s5;
    StayOne(s4, Joins(d));
    StayMore(s3, Leaves(b), [Joins(d)]);
    StayMore(s2, Joins(c), [Leaves(b), Joins(d)]);
    StayMore(s1, Joins(b), [Joins(c), Leaves(b), Joins(d)]);
    StayMore(s, Joins(a), [Joins(b), Joins(c), Leaves(b), Joins(d)]);
    assert [pa, pc, pd][1].nickname == [pa, pc, pd][2].nickname;
  }

  function At(s: Site, ps: seq<PlayerView>): Site
    requires s.Live?
  {
    s.(game := s.game.(room := s.game.room.(players := ps)))
  }

  lemma StayOne(s: Site, m: Move)
    requires Allowed(s, m)
    ensures IsStay(s, [m]) && AfterMoves(s, [m]) == Step(s, m)
  {
    assert [m][1..] == [];
    assert IsStay(Step(s, m), []) && AfterMoves(Step(s, m), []) == Step(s, m);
  }

  lemma StayMore(s: Site, m: Move, moves: seq<Move>)
    requires Allowed(s, m) && IsStay(Step(s, m), moves)
    ensures IsStay(s, [m] + moves) && AfterMoves(s, [m] + moves) == AfterMoves(Step(s, m), moves)
  {
    assert ([m] + moves)[1..] == moves;
  }
}
