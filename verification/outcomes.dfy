/** What comes of a vote: the player an election names takes office, and a removal that passed leads to an election among
    everybody else in the room. */
module Outcomes {
  import opened Models
  import opened Rules
  import opened Ballots
  import opened Protocol
  import opened Population
  import opened Resolution
  import opened Calls
  import Elections

  /** The step from `g` to `h` has recorded `e`. */
  ghost predicate Recorded(g: Game, h: Game, e: Event) {
    |g.log| <= |h.log| && e in h.log[|g.log|..]
  }

  // ----- which steps record what -----

  lemma {:induction false} RoomStepRecordsNoVote(g: Game, a: Action, e: Event)
    requires RoomAction(a) && VoteEvent(e)
    ensures !Recorded(g, Next(g, a), e)
  {
    RoomStepLeavesVotes(g, a);
    NothingOfVotes(g.log, Next(g, a).log, e);
  }

  lemma NothingOfVotes(log: seq<Event>, log': seq<Event>, e: Event)
    requires VoteEvent(e)
    requires || log' == log
             || (exists x :: log' == log + [x] && !VoteEvent(x))
             || (exists x, y :: log' == log + [x] + [y] && !VoteEvent(x) && !VoteEvent(y))
    ensures |log| <= |log'| && e !in log'[|log|..]
  {
    if x :| log' == log + [x] && !VoteEvent(x) {
      assert log'[|log|..] == [x];
    } else if x, y :| log' == log + [x] + [y] && !VoteEvent(x) && !VoteEvent(y) {
      assert log'[|log|..] == [x] + [y];
    } else {
      assert log'[|log|..] == [];
    }
  }

  lemma CallRecordsNothing(g: Game, a: Action)
    requires a.StartVote? || a.CastVote? || a.ExpireVote?
    ensures Next(g, a).log == g.log
  {
    match a
    case StartVote(c, initiator, target) => assert StartVoteStep(g, c, initiator, target).log == g.log;
    case CastVote(v, voter, choice) => assert CastStep(g, v, voter, choice).log == g.log;
    case ExpireVote(_) =>
  }

  lemma {:induction false} TaskRecords(g: Game, t: Task, pick: string, e: Event)
    requires VoteTask(t) && Recorded(g, RunStep(g, t, pick), e) && (e.Installed? || e.Opened?)
    ensures e.Installed? ==> t.DecideVote? && t.vote == e.vote
    ensures e.Opened? ==> t.ElectLeader? && t.vote == e.vote && pick == e.election
  {
    var h := RunStep(g, t, pick);
    if h.log != g.log {
      TaskRecordsOne(g, t, pick);
      var x :| h.log == g.log + [x] && (x.Resolved? || TaskOf(x, t, pick));
      assert h.log[|g.log|..] == [x];
    }
  }

  predicate TaskOf(e: Event, t: Task, pick: string) {
    || (e.Installed? && t.DecideVote? && t.vote == e.vote)
    || (e.Opened? && t.ElectLeader? && t.vote == e.vote && pick == e.election)
  }

  lemma {:induction false} TaskRecordsOne(g: Game, t: Task, pick: string)
    requires VoteTask(t)
    ensures var h := RunStep(g, t, pick);
      h.log == g.log || exists x :: h.log == g.log + [x] && (x.Resolved? || TaskOf(x, t, pick))
  {
    var h := RunStep(g, t, pick);
    match t
    case FileVote(_, _) =>
    case CheckTurnout(_) =>
    case CompleteVote(v) => assert h.log == g.log || h.log == g.log + [Resolved(v, ByTurnout)];
    case TimeoutVote(v) => assert h.log == g.log || h.log == g.log + [Resolved(v, ByTimeout)];
    case DecideVote(v, how) => DecideTallies(g, v, how, pick);
    case ReleaseIndex(_) =>
    case ElectLeader(v, how) => assert h.log == g.log || h.log == g.log + [Opened(v, pick)];
  }

  /** Only the tally of an election installs a leader, and only the end of the pause after a removal opens an
      election. */
  lemma {:induction false} WhoRecords(g: Game, a: Action, e: Event)
    requires Enabled(g, a) && Recorded(g, Next(g, a), e) && (e.Installed? || e.Opened?)
    ensures a.Run?
    ensures e.Installed? ==> a.task.DecideVote? && a.task.vote == e.vote
    ensures e.Opened? ==> a.task.ElectLeader? && a.task.vote == e.vote && a.pick == e.election
  {
    if RoomAction(a) {
      RoomStepRecordsNoVote(g, a, e);
    } else if a.Run? {
      TaskRecords(g.(tasks := g.tasks - multiset{a.task}), a.task, a.pick, e);
    } else {
      CallRecordsNothing(g, a);
    }
  }

  // ----- taking office -----

  lemma {:induction false} DecideInstalls(g: Game, v: VoteId, how: Resolver, winner: string, who: Id, place: RoomColor)
    requires Recorded(g, DecideStep(g, v, how, winner), Installed(v, who, place))
    ensures who == winner && NowLeads(g.room, DecideStep(g, v, how, winner).room, place, who)
  {
    var h := DecideStep(g, v, how, winner);
    if h.log != g.log {
      assert h.log == g.log + [Installed(v, winner, RoomOf(g.room.players, winner))];
      assert h.log[|g.log|..] == [Installed(v, winner, RoomOf(g.room.players, winner))];
      InstallEffect(g.room, g.ledger.heap[v].color, winner);
    }
  }

  /** Whenever a run records that somebody was installed, the very step that does so makes them the leader of the room,
      and changes nothing else about the game; they were a candidate with a maximal count, and stand in that room. */
  lemma {:induction false} ElectedTakesOffice(g: Game, acts: seq<Action>, a: Action, e: VoteId, who: Id, place: RoomColor)
    requires NoVotes(g) && IsRun(g, acts, Anything) && Enabled(After(g, acts), a)
    requires Recorded(After(g, acts), Next(After(g, acts), a), Installed(e, who, place))
    ensures var h, k := After(g, acts), Next(After(g, acts), a);
      NowLeads(h.room, k.room, place, who) && Elections.InstalledOk(k.ledger, e, who, place)
  {
    var h := After(g, acts);
    WhoRecords(h, a, Installed(e, who, place));
    DecideInstalls(h.(tasks := h.tasks - multiset{a.task}), e, a.task.how, a.pick, who, place);
    RunOne(h, a, Anything);
    RunAppend(g, acts, [a], Anything);
    assert Installed(e, who, place) in Next(h, a).log;
    Elections.ElectionsInstallCandidates(g, acts + [a], e, who, place);
  }

  /** The winner of an election takes office exactly if there is a round and the winner stands in the room; otherwise the
      room stays as it is. */
  lemma {:induction false} WinnerInstalledIff(g: Game, e: VoteId, how: Resolver, winner: Id)
    requires Distinct(g.room.players) && Enabled(g, Run(DecideVote(e, how), winner)) && winner != ""
    requires e in g.ledger.heap && g.ledger.heap[e].kind == Election && g.ledger.heap[e].color != NoRoom
    ensures var h, c := Next(g, Run(DecideVote(e, how), winner)), g.ledger.heap[e].color;
      && (Recorded(g, h, Installed(e, winner, c)) <==> HasRound(g.room) && winner in IdsIn(g.room.players, c))
      && if Recorded(g, h, Installed(e, winner, c)) then NowLeads(g.room, h.room, c, winner) else h.room == g.room
  {
    var h, c := Next(g, Run(DecideVote(e, how), winner)), g.ledger.heap[e].color;
    InstallAcceptedIff(g.room, c, winner);
    InRoomIff(g.room.players, winner, c);
    if InstallLeader(g.room, c, winner).Ok? {
      assert h.log[|g.log|..] == [Installed(e, winner, c)];
    } else {
      assert h.log[|g.log|..] == [];
    }
  }

  // ----- opening an election -----

  /** The step opened an election among everybody in room `c` but `removed`: they are the candidates, and the voters. */
  ghost predicate OpensToAll(g: Game, h: Game, e: VoteId, c: RoomColor, removed: Id) {
    && e !in g.ledger.heap && h.ledger.Live(e) && c in h.ledger.index && h.ledger.index[c] == e
    && TimeoutVote(e) in h.tasks
    && var s, others := h.ledger.heap[e], IdsIn(g.room.players, c) - {removed};
      && s.kind == Election && s.color == c && s.votes == map[]
      && NoRepeat(s.candidates) && (set x | x in s.candidates) == others && s.total == |others| >= 1
      && e in h.roll && h.roll[e] == others
  }

  /** Whenever a run records that a removal led to an election, the very step that does so opens it to everybody in the
      room but the removed leader. */
  lemma {:induction false} ElectionOpensToAll(g: Game, acts: seq<Action>, a: Action, v: VoteId, e: VoteId)
    requires NoVotes(g) && PopInv(g) && IsRun(g, acts, Anything) && Enabled(After(g, acts), a)
    requires Recorded(After(g, acts), Next(After(g, acts), a), Opened(v, e))
    ensures var h, k := After(g, acts), Next(After(g, acts), a);
      v in h.ledger.heap && OpensToAll(h, k, e, h.ledger.heap[v].color, h.ledger.heap[v].target)
  {
    var h := After(g, acts);
    PopAlways(g, acts, Anything);
    WhoRecords(h, a, Opened(v, e));
    ElectOpens(h.(tasks := h.tasks - multiset{a.task}), v, a.task.how, e);
  }

  lemma {:induction false} ElectOpens(g: Game, v: VoteId, how: Resolver, e: VoteId)
    requires Distinct(g.room.players) && e !in g.ledger.heap && Recorded(g, ElectStep(g, v, how, e), Opened(v, e))
    ensures v in g.ledger.heap && OpensToAll(g, ElectStep(g, v, how, e), e, g.ledger.heap[v].color, g.ledger.heap[v].target)
  {
    var h := ElectStep(g, v, how, e);
    if h.log != g.log {
      ElectionAcceptedIff(g.room, g.ledger.heap[v].color, g.ledger.heap[v].target);
    }
  }

  /** The pause after a passed removal ends in such an election exactly if there is a round and somebody else is in the
      room. */
  lemma {:induction false} ElectionOpensIff(g: Game, v: VoteId, how: Resolver, e: VoteId)
    requires Distinct(g.room.players) && Enabled(g, Run(ElectLeader(v, how), e)) && v in g.ledger.heap
    ensures var h, s := Next(g, Run(ElectLeader(v, how), e)), g.ledger.heap[v];
      Recorded(g, h, Opened(v, e)) <==> HasRound(g.room) && IdsIn(g.room.players, s.color) - {s.target} != {}
  {
    var h, s := Next(g, Run(ElectLeader(v, how), e)), g.ledger.heap[v];
    ElectionAcceptedIff(g.room, s.color, s.target);
    if ElectionSession(g.room, s.color, s.target).Ok? {
      assert h.log[|g.log|..] == [Opened(v, e)];
    } else {
      assert h.log[|g.log|..] == [];
    }
  }

  /** A removal that was decided leads to an election exactly if YES has more than half of the electorate on completion,
      or more ballots than not on the timeout. */
  lemma {:induction false} ElectionDueIff(g: Game, v: VoteId, how: Resolver, pick: string)
    requires Enabled(g, Run(DecideVote(v, how), pick)) && v in g.ledger.heap && ElectLeader(v, how) !in g.tasks
    ensures var s := g.ledger.heap[v];
      var yes := |set k | k in s.votes && s.votes[k] == "YES"|;
      ElectLeader(v, how) in Next(g, Run(DecideVote(v, how), pick)).tasks <==>
        s.kind == Removal && 2 * yes > if how == ByTurnout then s.total else |s.votes|
  {
    PassesIff(g.ledger.heap[v]);
  }
}
