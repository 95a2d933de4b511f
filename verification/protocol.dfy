/** One room's live game as a state machine.  Every service call is a step, but the vote calls are cut at every
    point where they release the lock or sleep; the sections that are left, like the goroutines that have been
    started, are in a bag and may happen at any time and in any order. */
module Protocol {
  import opened Models
  import opened Rules
  import opened Ballots

  datatype Resolver = ByTurnout | ByTimeout

  /** A goroutine that has been spawned, or one that is between two sections. */
  datatype Task =
    | Exchange
    | Advance(round: int)
    | Preserve
    | RevealAll
    | FileVote(session: VoteView, voters: set<Id>)  // a removal request that has passed its checks and will be stored
    | CheckTurnout(vote: VoteId)                 // a cast that has been recorded and will compare the turnout
    | CompleteVote(vote: VoteId)
    | TimeoutVote(vote: VoteId)
    | DecideVote(vote: VoteId, how: Resolver)  // marked the session; will tally and apply the result
    | ReleaseIndex(vote: VoteId)               // will delete the index entry of the session's colour
    | ElectLeader(vote: VoteId, how: Resolver)   // sleeping before the follow-up election

  datatype Event =
    | Resolved(vote: VoteId, how: Resolver)
    | Installed(vote: VoteId, who: Id, place: RoomColor)
    | Opened(vote: VoteId, election: VoteId)
    | RoundBegun(round: int)
    | Ticked
    | RoundEnding(round: int)
    | Advanced(round: int)
    | Revealed

  /** `roll` and `log` are history: who was counted when a vote was opened, and what has happened. */
  datatype Game = Game(room: RoomView, ledger: Ledger, tasks: multiset<Task>, roll: map<VoteId, set<Id>>, log: seq<Event>)

  datatype Action =
    | StartGame(session: Id, dealt: seq<PlayerView>, red: Id, blue: Id)
    | ResetGame
    | EditPlayers(players: seq<PlayerView>)  // join, leave and rename
    | StartRound(round: int)
    | AssignLeaders(red: Id, blue: Id)
    | Transfer(current: Id, next: Id)
    | Disconnect(leader: Id, next: Id)
    | AssignNewLeader(color: RoomColor, exclude: Id, next: Id)
    | SelectHostages(leader: Id, ids: seq<Id>)
    | Tick
    | LeaderReady(leader: Id)
    | StartVote(color: RoomColor, initiator: Id, target: Id)
    | CastVote(vote: VoteId, voter: Id, choice: string)
    | ExpireVote(vote: VoteId)
    | Run(task: Task, pick: string)  // `pick`: the winner of a tally, or a new vote's id

  /** An action can happen: a goroutine runs only if it is pending, new vote ids are fresh, and random
      choices are among the options the code chooses from. */
  ghost predicate Enabled(g: Game, a: Action) {
    var ps := g.room.players;
    match a
    case StartGame(_, dealt, red, blue) => IsDeal(ps, dealt) && red in IdsIn(dealt, RedRoom) && blue in IdsIn(dealt, BlueRoom)
    case EditPlayers(qs) => Distinct(qs) && (g.room.status == InProgress ==> SameSeats(ps, qs))
    case AssignLeaders(red, blue) =>
      && (IdsIn(ps, RedRoom) != {} ==> red in IdsIn(ps, RedRoom))
      && (IdsIn(ps, BlueRoom) != {} ==> blue in IdsIn(ps, BlueRoom))
    case Disconnect(leader, next) =>
      HasRound(g.room) ==>
        var eligible := Eligible(ps, DisconnectedRoom(g.room, leader), leader);
        eligible != {} ==> next in eligible
    case AssignNewLeader(c, exclude, next) => Eligible(ps, c, exclude) != {} ==> next in Eligible(ps, c, exclude)
    case Run(t, pick) =>
      && t in g.tasks
      && (t.DecideVote? && t.vote in g.ledger.heap && g.ledger.heap[t.vote].kind == Election ==>
            Elected(g.ledger.heap[t.vote].votes, pick))
      && (t.FileVote? || t.ElectLeader? ==> pick !in g.ledger.heap && pick !in g.roll)
    case _ => true
  }

  /** Membership is frozen while a game is in progress; only nicknames change. */
  predicate SameSeats(ps: seq<PlayerView>, qs: seq<PlayerView>) {
    |qs| == |ps| && forall i :: 0 <= i < |ps| ==> qs[i].id == ps[i].id && qs[i].room == ps[i].room
  }

  function Spawn(g: Game, t: Task): Game {
    g.(tasks := g.tasks + multiset{t})
  }

  function Record(g: Game, e: Event): Game {
    g.(log := g.log + [e])
  }

  function SetRoom(g: Game, r: Result<RoomView>): Game {
    if r.Ok? then g.(room := r.value) else g
  }

  // ----- steps that do more than update the room -----

  function BeginRound(g: Game, n: int): Game {
    var r := OpenRound(g.room, n);
    if r.Ok? then Record(g.(room := r.value), RoundBegun(n)) else g
  }

  function SelectStep(g: Game, leader: Id, ids: seq<Id>): Game {
    match ChooseHostages(g.room, leader, ids)
    case Err(_) => g
    case Ok(r) => var h := g.(room := r); if BothSelected(TheRound(r)) then Spawn(h, Exchange) else h
  }

  function TickStep(g: Game): Game {
    match TickTimer(g.room)
    case Err(_) => g
    case Ok(r) =>
      if r == g.room then g
      else
        var h := Record(g.(room := r), Ticked);
        if TheRound(r).time == 0 then Record(h, RoundEnding(TheRound(r).number)) else h
  }

  function ReadyStep(g: Game, leader: Id): Game {
    match MarkReady(g.room, leader)
    case Err(_) => g
    case Ok(r) =>
      var h, n := g.(room := r), TheRound(r).number;
      if !BothReady(TheRound(r)) then h
      else Spawn(Record(h, Advanced(n)), if n == 3 then RevealAll else Advance(n + 1))
  }

  function OpenVote(g: Game, v: VoteId, s: VoteView, roll: set<Id>): Game {
    Spawn(g.(ledger := File(g.ledger, v, s), roll := g.roll[v := roll]), TimeoutVote(v))
  }

  /** The checks of a removal request, the last of which asks for an active vote. */
  function StartVoteStep(g: Game, c: RoomColor, initiator: Id, target: Id): Game {
    match RemovalSession(g.room, g.ledger, c, initiator, target)
    case Err(_) => g
    case Ok(s) => Spawn(g, FileVote(s, IdsIn(g.room.players, c)))
  }

  function CastStep(g: Game, v: VoteId, voter: Id, choice: string): Game {
    match RecordVote(g.ledger, v, voter, choice)
    case Err(_) => g
    case Ok(l) => Spawn(g.(ledger := l), CheckTurnout(v))
  }

  function CheckStep(g: Game, v: VoteId): Game {
    if v in g.ledger.heap && |g.ledger.heap[v].votes| == g.ledger.heap[v].total then Spawn(g, CompleteVote(v)) else g
  }

  function CompleteStep(g: Game, v: VoteId): Game {
    if g.ledger.Live(v) then
      Spawn(Record(g.(ledger := MarkCompleted(g.ledger, v)), Resolved(v, ByTurnout)), DecideVote(v, ByTurnout))
    else g
  }

  function TimeoutStep(g: Game, v: VoteId): Game {
    if g.ledger.Live(v) then
      Spawn(Record(g.(ledger := MarkTimedOut(g.ledger, v)), Resolved(v, ByTimeout)), DecideVote(v, ByTimeout))
    else g
  }

  predicate Passes(s: VoteView, how: Resolver) {
    if how == ByTurnout then PassesOnCompletion(s) else PassesOnTimeout(s)
  }

  /** The tally, outside the lock: a passed removal leads to an election, an elected player is installed, and
      a completion that leads to no election goes on to release the index entry. */
  function DecideStep(g: Game, v: VoteId, how: Resolver, winner: string): Game {
    if v !in g.ledger.heap then g else
    var s := g.ledger.heap[v];
    if s.kind == Removal && Passes(s, how) then Spawn(g, ElectLeader(v, how)) else
    var h := if s.kind == Election && winner != "" then InstallStep(g, v, winner) else g;
    if how == ByTurnout then Spawn(h, ReleaseIndex(v)) else h
  }

  function InstallStep(g: Game, v: VoteId, winner: Id): Game
    requires v in g.ledger.heap
  {
    match InstallLeader(g.room, g.ledger.heap[v].color, winner)
    case Err(_) => g
    case Ok(r) => Record(g.(room := r), Installed(v, winner, RoomOf(g.room.players, winner)))
  }

  function ReleaseStep(g: Game, v: VoteId): Game {
    if v in g.ledger.heap then g.(ledger := Unindex(g.ledger, g.ledger.heap[v].color)) else g
  }

  function ElectStep(g: Game, v: VoteId, how: Resolver, e: VoteId): Game {
    if v !in g.ledger.heap then g else
    match ElectionSession(g.room, g.ledger.heap[v].color, g.ledger.heap[v].target)
    case Ok(s) => OpenVote(Record(g, Opened(v, e)), e, s, set x | x in s.candidates)
    case Err(_) => if how == ByTurnout then Spawn(g, ReleaseIndex(v)) else g
  }

  function RunStep(g: Game, t: Task, pick: string): Game {
    match t
    case Exchange => SetRoom(g, ExecuteExchange(g.room))
    case Advance(n) => if g.room.session.Some? && 1 <= n <= 3 then Spawn(BeginRound(g, n), Preserve) else g
    case Preserve => SetRoom(g, PreserveLeaders(g.room))
    case RevealAll => if g.room.session.Some? then Record(SetRoom(g, Reveal(g.room)), Revealed) else g
    case FileVote(s, voters) => OpenVote(g, pick, s, voters)
    case CheckTurnout(v) => CheckStep(g, v)
    case CompleteVote(v) => CompleteStep(g, v)
    case TimeoutVote(v) => TimeoutStep(g, v)
    case DecideVote(v, how) => DecideStep(g, v, how, pick)
    case ReleaseIndex(v) => ReleaseStep(g, v)
    case ElectLeader(v, how) => ElectStep(g, v, how, pick)
  }

  function Next(g: Game, a: Action): Game {
    match a
    case StartGame(id, dealt, red, blue) =>
      var r := DealGame(g.room, id, dealt, red, blue);
      if r.Ok? then Record(g.(room := r.value), RoundBegun(1)) else g
    case ResetGame => SetRoom(g, ClearGame(g.room))
    case EditPlayers(qs) => g.(room := g.room.(players := qs))
    case StartRound(n) => BeginRound(g, n)
    case AssignLeaders(red, blue) => SetRoom(g, AppointLeaders(g.room, red, blue))
    case Transfer(current, next) => SetRoom(g, TransferLeadership(g.room, current, next))
    case Disconnect(leader, next) => SetRoom(g, ReplaceDisconnected(g.room, leader, next))
    case AssignNewLeader(c, exclude, next) => SetRoom(g, Replace(g.room, c, exclude, next))
    case SelectHostages(leader, ids) => SelectStep(g, leader, ids)
    case Tick => TickStep(g)
    case LeaderReady(leader) => ReadyStep(g, leader)
    case StartVote(c, initiator, target) => StartVoteStep(g, c, initiator, target)
    case CastVote(v, voter, choice) => CastStep(g, v, voter, choice)
    case ExpireVote(v) => g.(ledger := Expire(g.ledger, v))
    case Run(t, pick) => RunStep(g.(tasks := g.tasks - multiset{t}), t, pick)
  }

  // ----- runs -----

  /** Which steps a run may take. */
  type Rule = (Game, Action) -> bool

  /** The actions can be taken one after the other from `g`, each of them obeying `rule`. */
  ghost predicate IsRun(g: Game, acts: seq<Action>, rule: Rule)
    decreases |acts|
  {
    acts == [] || (Enabled(g, acts[0]) && rule(g, acts[0]) && IsRun(Next(g, acts[0]), acts[1..], rule))
  }

  function After(g: Game, acts: seq<Action>): Game
    decreases |acts|
  {
    if acts == [] then g else After(Next(g, acts[0]), acts[1..])
  }

  predicate Anything(g: Game, a: Action) {
    true
  }

  // ----- the history is only written -----

  function WithPast(g: Game, past: seq<Event>): Game {
    g.(log := past + g.log)
  }

  lemma RecordAfterPast(g: Game, past: seq<Event>, e: Event)
    ensures Record(WithPast(g, past), e) == WithPast(Record(g, e), past)
  {
    assert past + g.log + [e] == past + (g.log + [e]);
  }

  lemma BeginIgnoresPast(g: Game, past: seq<Event>, n: int)
    ensures BeginRound(WithPast(g, past), n) == WithPast(BeginRound(g, n), past)
  {
    var r := OpenRound(g.room, n);
    if r.Ok? { RecordAfterPast(g.(room := r.value), past, RoundBegun(n)); }
  }

  lemma TickIgnoresPast(g: Game, past: seq<Event>)
    ensures TickStep(WithPast(g, past)) == WithPast(TickStep(g), past)
  {
    var r := TickTimer(g.room);
    if r.Ok? {
      RecordAfterPast(g.(room := r.value), past, Ticked);
      RecordAfterPast(Record(g.(room := r.value), Ticked), past, RoundEnding(TheRound(r.value).number));
    }
  }

  lemma ReadyIgnoresPast(g: Game, past: seq<Event>, leader: Id)
    ensures ReadyStep(WithPast(g, past), leader) == WithPast(ReadyStep(g, leader), past)
  {
    var r := MarkReady(g.room, leader);
    if r.Ok? { RecordAfterPast(g.(room := r.value), past, Advanced(TheRound(r.value).number)); }
  }

  lemma ResolveIgnoresPast(g: Game, past: seq<Event>, v: VoteId)
    ensures CompleteStep(WithPast(g, past), v) == WithPast(CompleteStep(g, v), past)
    ensures TimeoutStep(WithPast(g, past), v) == WithPast(TimeoutStep(g, v), past)
  {
    RecordAfterPast(g.(ledger := MarkCompleted(g.ledger, v)), past, Resolved(v, ByTurnout));
    RecordAfterPast(g.(ledger := MarkTimedOut(g.ledger, v)), past, Resolved(v, ByTimeout));
  }

  lemma DecideIgnoresPast(g: Game, past: seq<Event>, v: VoteId, how: Resolver, winner: string)
    ensures DecideStep(WithPast(g, past), v, how, winner) == WithPast(DecideStep(g, v, how, winner), past)
  {
    if v in g.ledger.heap {
      var r := InstallLeader(g.room, g.ledger.heap[v].color, winner);
      if r.Ok? { RecordAfterPast(g.(room := r.value), past, Installed(v, winner, RoomOf(g.room.players, winner))); }
    }
  }

  lemma ElectIgnoresPast(g: Game, past: seq<Event>, v: VoteId, how: Resolver, e: VoteId)
    ensures ElectStep(WithPast(g, past), v, how, e) == WithPast(ElectStep(g, v, how, e), past)
  {
    RecordAfterPast(g, past, Opened(v, e));
  }

  lemma RunIgnoresPast(g: Game, past: seq<Event>, t: Task, pick: string)
    ensures RunStep(WithPast(g, past), t, pick) == WithPast(RunStep(g, t, pick), past)
  {
    match t
    case Advance(n) => BeginIgnoresPast(g, past, n);
    case RevealAll => RecordAfterPast(SetRoom(g, Reveal(g.room)), past, Revealed);
    case CompleteVote(v) => ResolveIgnoresPast(g, past, v);
    case TimeoutVote(v) => ResolveIgnoresPast(g, past, v);
    case DecideVote(v, how) => DecideIgnoresPast(g, past, v, how, pick);
    case ElectLeader(v, how) => ElectIgnoresPast(g, past, v, how, pick);
    case _ =>
  }

  /** No step reads the history. */
  lemma NextIgnoresPast(g: Game, past: seq<Event>, a: Action)
    ensures Next(WithPast(g, past), a) == WithPast(Next(g, a), past)
    ensures Enabled(WithPast(g, past), a) <==> Enabled(g, a)
  {
    match a
    case StartGame(id, dealt, red, blue) =>
      var r := DealGame(g.room, id, dealt, red, blue);
      if r.Ok? { RecordAfterPast(g.(room := r.value), past, RoundBegun(1)); }
    case StartRound(n) => BeginIgnoresPast(g, past, n);
    case Tick => TickIgnoresPast(g, past);
    case LeaderReady(leader) => ReadyIgnoresPast(g, past, leader);
    case Run(t, pick) => RunIgnoresPast(g.(tasks := g.tasks - multiset{t}), past, t, pick);
    case _ =>
  }

  lemma {:induction false} RunIgnoresHistory(g: Game, past: seq<Event>, acts: seq<Action>, rule: Rule)
    requires forall h, a :: rule(WithPast(h, past), a) == rule(h, a)
    ensures IsRun(WithPast(g, past), acts, rule) <==> IsRun(g, acts, rule)
    ensures After(WithPast(g, past), acts) == WithPast(After(g, acts), past)
    decreases |acts|
  {
    if acts == [] {
    } else {
      NextIgnoresPast(g, past, acts[0]);
      RunIgnoresHistory(Next(g, acts[0]), past, acts[1..], rule);
    }
  }

  // ----- reasoning about runs -----

  /** A property that every allowed step keeps holds at the end of every run. */
  lemma {:induction false} RunKeeps(g: Game, acts: seq<Action>, rule: Rule, inv: Game -> bool)
    requires inv(g) && IsRun(g, acts, rule)
    requires forall h, a :: inv(h) && Enabled(h, a) && rule(h, a) ==> inv(Next(h, a))
    ensures inv(After(g, acts))
    decreases |acts|
  {
    if acts == [] {
    } else {
      RunKeeps(Next(g, acts[0]), acts[1..], rule, inv);
    }
  }

  lemma {:induction false} RunFreely(g: Game, acts: seq<Action>, rule: Rule)
    requires IsRun(g, acts, rule)
    ensures IsRun(g, acts, Anything)
    decreases |acts|
  {
    if acts == [] {
    } else {
      RunFreely(Next(g, acts[0]), acts[1..], rule);
    }
  }

  lemma {:induction false} RunAppend(g: Game, acts: seq<Action>, more: seq<Action>, rule: Rule)
    requires IsRun(g, acts, rule) && IsRun(After(g, acts), more, rule)
    ensures IsRun(g, acts + more, rule) && After(g, acts + more) == After(After(g, acts), more)
    decreases |acts|
  {
    if acts == [] {
      assert acts + more == more;
    } else {
      var h, rest := Next(g, acts[0]), acts[1..];
      assert Enabled(g, acts[0]) && rule(g, acts[0]) && IsRun(h, rest, rule) && After(g, acts) == After(h, rest);
      RunAppend(h, rest, more, rule);
      RunMore(g, acts[0], rest + more, rule);
      HeadFirst(acts, more);
    }
  }

  lemma HeadFirst(acts: seq<Action>, more: seq<Action>)
    requires acts != []
    ensures acts + more == [acts[0]] + (acts[1..] + more)
  {
    assert acts == [acts[0]] + acts[1..];
  }

  lemma RunOne(g: Game, a: Action, rule: Rule)
    requires Enabled(g, a) && rule(g, a)
    ensures IsRun(g, [a], rule) && After(g, [a]) == Next(g, a)
  {
    var h := Next(g, a);
    assert [a][1..] == [];
    assert IsRun(h, [], rule) && After(h, []) == h;
  }

  lemma RunTwo(g: Game, a: Action, b: Action, rule: Rule)
    requires Enabled(g, a) && rule(g, a) && Enabled(Next(g, a), b) && rule(Next(g, a), b)
    ensures IsRun(g, [a] + [b], rule) && After(g, [a] + [b]) == Next(Next(g, a), b)
  {
    RunOne(Next(g, a), b, rule);
    RunMore(g, a, [b], rule);
  }

  lemma RunTwoMore(g: Game, a: Action, b: Action, acts: seq<Action>, rule: Rule)
    requires Enabled(g, a) && rule(g, a) && Enabled(Next(g, a), b) && rule(Next(g, a), b)
    requires IsRun(Next(Next(g, a), b), acts, rule)
    ensures IsRun(g, [a] + ([b] + acts), rule)
    ensures After(g, [a] + ([b] + acts)) == After(Next(Next(g, a), b), acts)
  {
    RunMore(Next(g, a), b, acts, rule);
    RunMore(g, a, [b] + acts, rule);
  }

  lemma RunMore(g: Game, a: Action, acts: seq<Action>, rule: Rule)
    requires Enabled(g, a) && rule(g, a) && IsRun(Next(g, a), acts, rule)
    ensures IsRun(g, [a] + acts, rule) && After(g, [a] + acts) == After(Next(g, a), acts)
  {
    assert ([a] + acts)[1..] == acts;
  }
}
