/** A vote is resolved exactly once, whichever of the turnout completion and the 30-second timeout gets there
    first, and however casts, completions, timeouts and the expiry sweep interleave between lock releases. */
module Resolution {
  import opened Models
  import opened Rules
  import opened Ballots
  import opened Protocol

  // ----- what has happened to a vote, and what is still going to -----

  function Resolutions(log: seq<Event>, v: VoteId): nat {
    multiset(log)[Resolved(v, ByTurnout)] + multiset(log)[Resolved(v, ByTimeout)]
  }

  predicate EffectOf(e: Event, v: VoteId) {
    (e.Installed? || e.Opened?) && e.vote == v
  }

  /** Leader changes and follow-up elections that vote `v` has caused. */
  function Effects(log: seq<Event>, v: VoteId): nat {
    if log == [] then 0
    else Effects(log[..|log| - 1], v) + if EffectOf(log[|log| - 1], v) then 1 else 0
  }

  /** Resolvers of `v` that have yet to apply their result. */
  function Undecided(g: Game, v: VoteId): nat {
    g.tasks[DecideVote(v, ByTurnout)] + g.tasks[DecideVote(v, ByTimeout)]
    + g.tasks[ElectLeader(v, ByTurnout)] + g.tasks[ElectLeader(v, ByTimeout)]
  }

  ghost predicate OnceAt(g: Game, v: VoteId) {
    && (if v !in g.ledger.heap || g.ledger.heap[v].status == Open then
          Undecided(g, v) == 0 && g.tasks[ReleaseIndex(v)] == 0 && Effects(g.log, v) == 0 && Resolutions(g.log, v) == 0
        else
          && Resolutions(g.log, v) == 1
          && Undecided(g, v) + g.tasks[ReleaseIndex(v)] <= 1
          && Undecided(g, v) + Effects(g.log, v) <= 1)
    && (g.ledger.Live(v) ==> TimeoutVote(v) in g.tasks)
  }

  /** Sessions that are still to be stored are new. */
  ghost predicate FreshSessions(g: Game) {
    forall t :: t in g.tasks && t.FileVote? ==> t.session.kind == Removal && t.session.votes == map[] && t.session.status == Open
  }

  ghost predicate OnceInv(g: Game) {
    FreshSessions(g) && forall v :: OnceAt(g, v)
  }

  lemma VoteLogGrows(log: seq<Event>, e: Event, v: VoteId)
    ensures Effects(log + [e], v) == Effects(log, v) + if EffectOf(e, v) then 1 else 0
    ensures Resolutions(log + [e], v) == Resolutions(log, v) + if e.Resolved? && e.vote == v then 1 else 0
  {
    assert (log + [e])[..|log|] == log;
    assert multiset(log + [e]) == multiset(log) + multiset{e};
    if e.Resolved? { assert e.how == ByTurnout || e.how == ByTimeout; }
  }

  // ----- steps that leave a vote alone -----

  predicate ResolverTask(t: Task) {
    t.DecideVote? || t.ElectLeader? || t.ReleaseIndex? || t.TimeoutVote?
  }

  ghost predicate VoteUntouched(g: Game, h: Game, v: VoteId) {
    && (v in h.ledger.heap <==> v in g.ledger.heap)
    && (v in g.ledger.heap ==> h.ledger.heap[v].status == g.ledger.heap[v].status)
    && (h.ledger.Live(v) ==> g.ledger.Live(v))
    && (forall t :: ResolverTask(t) && t.vote == v ==> h.tasks[t] == g.tasks[t])
    && Effects(h.log, v) == Effects(g.log, v)
    && Resolutions(h.log, v) == Resolutions(g.log, v)
  }

  lemma UntouchedKeepsOnce(g: Game, h: Game, v: VoteId)
    requires OnceAt(g, v) && VoteUntouched(g, h, v)
    ensures OnceAt(h, v)
  {
  }

  /** A step on the rounds or the room: no vote is concerned. */
  predicate RoomAction(a: Action) {
    !a.StartVote? && !a.CastVote? && !a.ExpireVote? && (a.Run? ==> !VoteTask(a.task))
  }

  predicate VoteTask(t: Task) {
    t.FileVote? || t.CheckTurnout? || t.CompleteVote? || t.TimeoutVote? || t.DecideVote? || t.ReleaseIndex? || t.ElectLeader?
  }

  predicate VoteEvent(e: Event) {
    e.Resolved? || e.Installed? || e.Opened?
  }

  ghost predicate VotesUntouched(g: Game, h: Game) {
    && h.ledger == g.ledger && h.roll == g.roll
    && (forall t :: VoteTask(t) ==> h.tasks[t] == g.tasks[t])
    && (h.log == g.log
        || (exists e :: h.log == g.log + [e] && !VoteEvent(e))
        || (exists e, f :: h.log == g.log + [e] + [f] && !VoteEvent(e) && !VoteEvent(f)))
  }

  lemma {:induction false} RoomStepLeavesVotes(g: Game, a: Action)
    requires RoomAction(a)
    ensures VotesUntouched(g, Next(g, a))
  {
    match a
    case Tick => TickLeavesVotes(g);
    case LeaderReady(leader) => ReadyLeavesVotes(g, leader);
    case SelectHostages(leader, ids) => assert VotesUntouched(g, SelectStep(g, leader, ids));
    case StartRound(n) => assert VotesUntouched(g, BeginRound(g, n));
    case StartGame(_, _, _, _) => StartLeavesVotes(g, a);
    case Run(t, pick) => RoomTaskLeavesVotes(g, t, pick);
    case _ =>
  }

  lemma StartLeavesVotes(g: Game, a: Action)
    requires a.StartGame?
    ensures VotesUntouched(g, Next(g, a))
  {
    var h := Next(g, a);
    assert h.log == g.log || h.log == g.log + [RoundBegun(1)];
  }

  lemma TickLeavesVotes(g: Game)
    ensures VotesUntouched(g, TickStep(g))
  {
    var h := TickStep(g);
    if h.log != g.log {
      var n := TheRound(h.room).number;
      assert h.log == g.log + [Ticked] || h.log == g.log + [Ticked] + [RoundEnding(n)];
    }
  }

  lemma ReadyLeavesVotes(g: Game, leader: Id)
    ensures VotesUntouched(g, ReadyStep(g, leader))
  {
    var h := ReadyStep(g, leader);
    if h.log != g.log {
      assert h.log == g.log + [Advanced(TheRound(h.room).number)];
    }
  }

  lemma AdvanceLeavesVotes(g: Game, n: int, pick: string)
    ensures VotesUntouched(g, Next(g, Run(Advance(n), pick)))
  {
    var h := Next(g, Run(Advance(n), pick));
    assert h.log == g.log || h.log == g.log + [RoundBegun(n)];
  }

  lemma SetRoomLeavesVotes(g: Game, h: Game, t: Task)
    requires !VoteTask(t)
    requires h.ledger == g.ledger && h.roll == g.roll && h.tasks == g.tasks - multiset{t}
    requires h.log == g.log || h.log == g.log + [Revealed]
    ensures VotesUntouched(g, h)
  {
  }

  lemma RoomTaskLeavesVotes(g: Game, t: Task, pick: string)
    requires !VoteTask(t)
    ensures VotesUntouched(g, Next(g, Run(t, pick)))
  {
    match t
    case Exchange => SetRoomLeavesVotes(g, Next(g, Run(t, pick)), t);
    case Preserve => SetRoomLeavesVotes(g, Next(g, Run(t, pick)), t);
    case RevealAll => SetRoomLeavesVotes(g, Next(g, Run(t, pick)), t);
    case Advance(n) => AdvanceLeavesVotes(g, n, pick);
  }

  lemma {:induction false} QuietEvent(log: seq<Event>, e: Event, v: VoteId)
    requires !VoteEvent(e)
    ensures Effects(log + [e], v) == Effects(log, v) && Resolutions(log + [e], v) == Resolutions(log, v)
    ensures forall x :: VoteEvent(x) ==> (x in log + [e] <==> x in log)
  {
    VoteLogGrows(log, e, v);
  }

  lemma {:induction false} VotesUntouchedEach(g: Game, h: Game, v: VoteId)
    requires VotesUntouched(g, h)
    ensures VoteUntouched(g, h, v)
    ensures forall e :: VoteEvent(e) ==> (e in h.log <==> e in g.log)
  {
    if e :| h.log == g.log + [e] && !VoteEvent(e) {
      QuietEvent(g.log, e, v);
    } else if e, f :| h.log == g.log + [e] + [f] && !VoteEvent(e) && !VoteEvent(f) {
      QuietEvent(g.log, e, v);
      QuietEvent(g.log + [e], f, v);
    }
  }

  // ----- the vote steps -----

  lemma OpenKeepsOnce(g: Game, u: VoteId, s: VoteView, roll: set<Id>, v: VoteId)
    requires OnceAt(g, v) && u !in g.ledger.heap && s.status == Open
    ensures OnceAt(OpenVote(g, u, s, roll), v)
  {
    if v != u { UntouchedKeepsOnce(g, OpenVote(g, u, s, roll), v); }
  }

  lemma StartKeepsOnce(g: Game, c: RoomColor, initiator: Id, target: Id, v: VoteId)
    requires OnceAt(g, v)
    ensures OnceAt(StartVoteStep(g, c, initiator, target), v)
  {
    UntouchedKeepsOnce(g, StartVoteStep(g, c, initiator, target), v);
  }

  lemma FileKeepsOnce(g: Game, t: Task, u: VoteId, v: VoteId)
    requires OnceAt(g, v) && FreshSessions(g) && t.FileVote? && t in g.tasks && u !in g.ledger.heap
    ensures OnceAt(OpenVote(g.(tasks := g.tasks - multiset{t}), u, t.session, t.voters), v)
  {
    var g' := g.(tasks := g.tasks - multiset{t});
    UntouchedKeepsOnce(g, g', v);
    OpenKeepsOnce(g', u, t.session, t.voters, v);
  }

  lemma CastKeepsOnce(g: Game, u: VoteId, voter: Id, choice: string, v: VoteId)
    requires OnceAt(g, v)
    ensures OnceAt(CastStep(g, u, voter, choice), v)
  {
    UntouchedKeepsOnce(g, CastStep(g, u, voter, choice), v);
  }

  lemma CallKeepsOnce(g: Game, a: Action, v: VoteId)
    requires OnceAt(g, v) && Enabled(g, a)
    requires a.StartVote? || a.CastVote? || a.ExpireVote?
    ensures OnceAt(Next(g, a), v)
  {
    match a
    case StartVote(c, initiator, target) => StartKeepsOnce(g, c, initiator, target, v);
    case CastVote(u, voter, choice) => CastKeepsOnce(g, u, voter, choice, v);
    case ExpireVote(_) => UntouchedKeepsOnce(g, Next(g, a), v);
  }

  /** Marking a live vote: it is resolved, and its resolver will tally. */
  ghost predicate Marked(g: Game, h: Game, u: VoteId, how: Resolver) {
    && h.ledger.heap.Keys == g.ledger.heap.Keys && h.ledger.dropped == g.ledger.dropped
    && g.ledger.Live(u) && h.ledger.heap[u].status != Open
    && (forall v :: v in g.ledger.heap && v != u ==> h.ledger.heap[v] == g.ledger.heap[v])
    && h.tasks == g.tasks + multiset{DecideVote(u, how)}
    && h.log == g.log + [Resolved(u, how)]
  }

  lemma MarkedKeepsOnce(g: Game, h: Game, u: VoteId, how: Resolver, v: VoteId)
    requires Marked(g, h, u, how)
    requires OnceAt(g, v) || (v == u && OnceAt(g.(tasks := g.tasks + multiset{TimeoutVote(u)}), v))
    ensures OnceAt(h, v)
  {
    VoteLogGrows(g.log, Resolved(u, how), v);
    if v == u {
      assert Undecided(h, v) == Undecided(g, v) + 1;
    } else {
      assert VoteUntouched(g, h, v);
      UntouchedKeepsOnce(g, h, v);
    }
  }

  lemma ResolveMarks(g: Game, u: VoteId)
    requires g.ledger.Live(u)
    ensures Marked(g, CompleteStep(g, u), u, ByTurnout)
    ensures Marked(g, TimeoutStep(g, u), u, ByTimeout)
  {
  }

  lemma MarkingKeepsOnce(g: Game, u: VoteId, how: Resolver, v: VoteId)
    requires OnceAt(g, v) || (v == u && OnceAt(g.(tasks := g.tasks + multiset{TimeoutVote(u)}), v))
    requires g.ledger.Live(u)
    ensures OnceAt(if how == ByTurnout then CompleteStep(g, u) else TimeoutStep(g, u), v)
  {
    ResolveMarks(g, u);
    MarkedKeepsOnce(g, if how == ByTurnout then CompleteStep(g, u) else TimeoutStep(g, u), u, how, v);
  }

  lemma {:induction false} CompleteKeepsOnce(g: Game, u: VoteId, v: VoteId)
    requires OnceAt(g, v)
    ensures OnceAt(CompleteStep(g.(tasks := g.tasks - multiset{CompleteVote(u)}), u), v)
  {
    var g' := g.(tasks := g.tasks - multiset{CompleteVote(u)});
    UntouchedKeepsOnce(g, g', v);
    if g.ledger.Live(u) {
      MarkingKeepsOnce(g', u, ByTurnout, v);
    }
  }

  lemma {:induction false} TimeoutKeepsOnce(g: Game, u: VoteId, v: VoteId)
    requires OnceAt(g, v) && TimeoutVote(u) in g.tasks
    ensures OnceAt(TimeoutStep(g.(tasks := g.tasks - multiset{TimeoutVote(u)}), u), v)
  {
    var g' := g.(tasks := g.tasks - multiset{TimeoutVote(u)});
    assert g'.tasks + multiset{TimeoutVote(u)} == g.tasks;
    if v != u { UntouchedKeepsOnce(g, g', v); }
    if g.ledger.Live(u) {
      MarkingKeepsOnce(g', u, ByTimeout, v);
    }
  }

  ghost predicate PerhapsInstalled(log: seq<Event>, log': seq<Event>, u: VoteId) {
    log' == log || exists who, place :: log' == log + [Installed(u, who, place)]
  }

  /** After the resolver's tally: the vote has an effect and perhaps an index entry to release, or a pending
      election, or nothing more. */
  ghost predicate Tallied(g: Game, h: Game, u: VoteId, how: Resolver) {
    && h.ledger == g.ledger && h.roll == g.roll
    && (|| (h.tasks == g.tasks + multiset{ElectLeader(u, how)} && h.log == g.log)
        || (&& (h.tasks == g.tasks || h.tasks == g.tasks + multiset{ReleaseIndex(u)})
            && PerhapsInstalled(g.log, h.log, u)))
  }

  lemma DecideTallies(g: Game, u: VoteId, how: Resolver, winner: string)
    ensures Tallied(g, DecideStep(g, u, how, winner), u, how)
  {
    var h := DecideStep(g, u, how, winner);
    if h.log != g.log {
      assert h.log == g.log + [Installed(u, winner, RoomOf(g.room.players, winner))];
    }
  }

  lemma {:induction false} ElectionDueKeepsOnce(g: Game, h: Game, u: VoteId, how: Resolver, v: VoteId)
    requires OnceAt(g, v) && DecideVote(u, how) in g.tasks
    requires h.ledger == g.ledger && h.log == g.log
    requires h.tasks == g.tasks - multiset{DecideVote(u, how)} + multiset{ElectLeader(u, how)}
    ensures OnceAt(h, v)
  {
    assert Undecided(h, v) == Undecided(g, v);
  }

  lemma {:induction false} InstalledCounts(log: seq<Event>, log': seq<Event>, u: VoteId, v: VoteId)
    requires PerhapsInstalled(log, log', u)
    ensures Effects(log, v) <= Effects(log', v) <= Effects(log, v) + if v == u then 1 else 0
    ensures Resolutions(log', v) == Resolutions(log, v)
  {
    if who, place :| log' == log + [Installed(u, who, place)] {
      VoteLogGrows(log, Installed(u, who, place), v);
    }
  }

  /** The resolver's task is gone, and it caused at most one effect. */
  lemma {:induction false} EffectKeepsOnce(g: Game, h: Game, u: VoteId, how: Resolver, v: VoteId)
    requires OnceAt(g, v) && DecideVote(u, how) in g.tasks && h.ledger == g.ledger
    requires h.tasks == g.tasks - multiset{DecideVote(u, how)} && PerhapsInstalled(g.log, h.log, u)
    ensures OnceAt(h, v)
  {
    InstalledCounts(g.log, h.log, u, v);
    if v == u {
      assert Undecided(h, v) == Undecided(g, v) - 1;
    } else {
      assert VoteUntouched(g, h, v);
      UntouchedKeepsOnce(g, h, v);
    }
  }

  lemma {:induction false} DecidedKeepsOnce(g: Game, h: Game, u: VoteId, how: Resolver, v: VoteId)
    requires OnceAt(g, v) && DecideVote(u, how) in g.tasks && h.ledger == g.ledger
    requires PerhapsInstalled(g.log, h.log, u)
    requires var ts := g.tasks - multiset{DecideVote(u, how)}; h.tasks == ts || h.tasks == ts + multiset{ReleaseIndex(u)}
    ensures OnceAt(h, v)
  {
    var m := h.(tasks := g.tasks - multiset{DecideVote(u, how)});
    EffectKeepsOnce(g, m, u, how, v);
    if h.tasks == m.tasks + multiset{ReleaseIndex(u)} {
      assert Undecided(h, v) == Undecided(m, v);
      assert v == u ==> Undecided(m, v) == Undecided(g, v) - 1;
    }
  }

  lemma {:induction false} TalliedKeepsOnce(g: Game, g': Game, h: Game, u: VoteId, how: Resolver, v: VoteId)
    requires OnceAt(g, v) && DecideVote(u, how) in g.tasks
    requires g' == g.(tasks := g.tasks - multiset{DecideVote(u, how)}) && Tallied(g', h, u, how)
    ensures OnceAt(h, v)
  {
    if h.tasks == g'.tasks + multiset{ElectLeader(u, how)} && h.log == g.log {
      ElectionDueKeepsOnce(g, h, u, how, v);
    } else {
      DecidedKeepsOnce(g, h, u, how, v);
    }
  }

  lemma {:induction false} OpenedKeepsOnce(g: Game, u: VoteId, how: Resolver, e: VoteId, v: VoteId)
    requires OnceAt(g, v) && ElectLeader(u, how) in g.tasks
    ensures OnceAt(Record(g.(tasks := g.tasks - multiset{ElectLeader(u, how)}), Opened(u, e)), v)
  {
    VoteLogGrows(g.log, Opened(u, e), v);
    var g' := g.(tasks := g.tasks - multiset{ElectLeader(u, how)});
    assert g.tasks == g'.tasks + multiset{ElectLeader(u, how)};
    assert v == u ==> Undecided(g, v) == Undecided(g', v) + 1;
    assert v != u ==> Undecided(g, v) == Undecided(g', v);
  }

  lemma {:induction false} NoElectionKeepsOnce(g: Game, h: Game, u: VoteId, how: Resolver, v: VoteId)
    requires OnceAt(g, v) && ElectLeader(u, how) in g.tasks
    requires h.ledger == g.ledger && h.log == g.log
    requires var ts := g.tasks - multiset{ElectLeader(u, how)}; h.tasks == ts || h.tasks == ts + multiset{ReleaseIndex(u)}
    ensures OnceAt(h, v)
  {
    assert v == u ==> Undecided(g, v) == Undecided(h, v) + 1;
    assert v != u ==> Undecided(g, v) == Undecided(h, v);
  }

  lemma {:induction false} ElectKeepsOnce(g: Game, u: VoteId, how: Resolver, e: VoteId, v: VoteId)
    requires OnceAt(g, v) && ElectLeader(u, how) in g.tasks && e !in g.ledger.heap
    ensures OnceAt(ElectStep(g.(tasks := g.tasks - multiset{ElectLeader(u, how)}), u, how, e), v)
  {
    var g' := g.(tasks := g.tasks - multiset{ElectLeader(u, how)});
    var h := ElectStep(g', u, how, e);
    if u in g.ledger.heap && ElectionSession(g.room, g.ledger.heap[u].color, g.ledger.heap[u].target).Ok? {
      var s := ElectionSession(g.room, g.ledger.heap[u].color, g.ledger.heap[u].target).value;
      OpenedKeepsOnce(g, u, how, e, v);
      OpenKeepsOnce(Record(g', Opened(u, e)), e, s, (set x | x in s.candidates), v);
    } else {
      NoElectionKeepsOnce(g, h, u, how, v);
    }
  }

  lemma DecideKeepsOnce(g: Game, u: VoteId, how: Resolver, pick: string, v: VoteId)
    requires OnceAt(g, v) && DecideVote(u, how) in g.tasks
    ensures OnceAt(DecideStep(g.(tasks := g.tasks - multiset{DecideVote(u, how)}), u, how, pick), v)
  {
    var g' := g.(tasks := g.tasks - multiset{DecideVote(u, how)});
    DecideTallies(g', u, how, pick);
    TalliedKeepsOnce(g, g', DecideStep(g', u, how, pick), u, how, v);
  }

  lemma CheckKeepsOnce(g: Game, u: VoteId, v: VoteId)
    requires OnceAt(g, v)
    ensures OnceAt(CheckStep(g.(tasks := g.tasks - multiset{CheckTurnout(u)}), u), v)
  {
    UntouchedKeepsOnce(g, CheckStep(g.(tasks := g.tasks - multiset{CheckTurnout(u)}), u), v);
  }

  lemma {:induction false} LateTaskKeepsOnce(g: Game, t: Task, pick: string, v: VoteId)
    requires OnceAt(g, v) && t in g.tasks && LateTask(t) && (t.ElectLeader? ==> pick !in g.ledger.heap)
    ensures OnceAt(RunStep(g.(tasks := g.tasks - multiset{t}), t, pick), v)
  {
    match t
    case DecideVote(u, how) => DecideKeepsOnce(g, u, how, pick, v);
    case ReleaseIndex(u) => ReleaseKeepsOnce(g, u, v);
    case ElectLeader(u, how) => ElectKeepsOnce(g, u, how, pick, v);
  }

  lemma FileTaskKeepsOnce(g: Game, t: Task, u: VoteId, v: VoteId)
    requires OnceAt(g, v) && FreshSessions(g) && t.FileVote? && t in g.tasks && u !in g.ledger.heap
    ensures OnceAt(RunStep(g.(tasks := g.tasks - multiset{t}), t, u), v)
  {
    FileKeepsOnce(g, t, u, v);
  }

  lemma CompleteTaskKeepsOnce(g: Game, u: VoteId, pick: string, v: VoteId)
    requires OnceAt(g, v)
    ensures OnceAt(RunStep(g.(tasks := g.tasks - multiset{CompleteVote(u)}), CompleteVote(u), pick), v)
  {
    CompleteKeepsOnce(g, u, v);
  }

  lemma TimeoutTaskKeepsOnce(g: Game, u: VoteId, pick: string, v: VoteId)
    requires OnceAt(g, v) && TimeoutVote(u) in g.tasks
    ensures OnceAt(RunStep(g.(tasks := g.tasks - multiset{TimeoutVote(u)}), TimeoutVote(u), pick), v)
  {
    TimeoutKeepsOnce(g, u, v);
  }

  lemma CheckTaskKeepsOnce(g: Game, u: VoteId, pick: string, v: VoteId)
    requires OnceAt(g, v)
    ensures OnceAt(RunStep(g.(tasks := g.tasks - multiset{CheckTurnout(u)}), CheckTurnout(u), pick), v)
  {
    CheckKeepsOnce(g, u, v);
  }

  lemma {:induction false} EarlyTaskKeepsOnce(g: Game, t: Task, pick: string, v: VoteId)
    requires OnceAt(g, v) && FreshSessions(g) && t in g.tasks && VoteTask(t) && !LateTask(t)
    requires t.FileVote? ==> pick !in g.ledger.heap
    ensures OnceAt(RunStep(g.(tasks := g.tasks - multiset{t}), t, pick), v)
  {
    match t
    case FileVote(_, _) => FileTaskKeepsOnce(g, t, pick, v);
    case CheckTurnout(u) => CheckTaskKeepsOnce(g, u, pick, v);
    case CompleteVote(u) => CompleteTaskKeepsOnce(g, u, pick, v);
    case TimeoutVote(u) => TimeoutTaskKeepsOnce(g, u, pick, v);
  }

  lemma {:induction false} TaskKeepsOnce(g: Game, t: Task, pick: string, v: VoteId)
    requires OnceAt(g, v) && FreshSessions(g) && Enabled(g, Run(t, pick)) && VoteTask(t)
    ensures OnceAt(RunStep(g.(tasks := g.tasks - multiset{t}), t, pick), v)
  {
    if LateTask(t) {
      LateTaskKeepsOnce(g, t, pick, v);
    } else {
      EarlyTaskKeepsOnce(g, t, pick, v);
    }
  }

  lemma ReleaseKeepsOnce(g: Game, u: VoteId, v: VoteId)
    requires OnceAt(g, v) && ReleaseIndex(u) in g.tasks
    ensures OnceAt(ReleaseStep(g.(tasks := g.tasks - multiset{ReleaseIndex(u)}), u), v)
  {
    var h := ReleaseStep(g.(tasks := g.tasks - multiset{ReleaseIndex(u)}), u);
    assert h.log == g.log && h.ledger.heap == g.ledger.heap;
  }

  /** No vote task asks for a new removal session. */
  ghost predicate SameFilings(g: Game, h: Game) {
    forall t: Task :: t.FileVote? ==> h.tasks[t] == g.tasks[t]
  }

  lemma ElectFilesNothing(g: Game, u: VoteId, how: Resolver, e: VoteId)
    ensures SameFilings(g, ElectStep(g, u, how, e))
  {
  }

  lemma MarkFilesNothing(g: Game, u: VoteId)
    ensures SameFilings(g, CheckStep(g, u)) && SameFilings(g, CompleteStep(g, u)) && SameFilings(g, TimeoutStep(g, u))
    ensures SameFilings(g, ReleaseStep(g, u))
  {
  }

  lemma DecideFilesNothing(g: Game, u: VoteId, how: Resolver, winner: string)
    ensures SameFilings(g, DecideStep(g, u, how, winner))
  {
    DecideTallies(g, u, how, winner);
  }

  lemma OpenFilesNothing(g: Game, u: VoteId, s: VoteView, roll: set<Id>)
    ensures SameFilings(g, OpenVote(g, u, s, roll))
  {
  }

  /** The goroutines of a resolver that has taken its vote. */
  predicate LateTask(t: Task) {
    t.DecideVote? || t.ReleaseIndex? || t.ElectLeader?
  }

  lemma LateTaskFilesNothing(g: Game, t: Task, pick: string)
    requires LateTask(t)
    ensures SameFilings(g, RunStep(g, t, pick))
  {
    match t
    case DecideVote(u, how) => DecideFilesNothing(g, u, how, pick);
    case ElectLeader(u, how) => ElectFilesNothing(g, u, how, pick);
    case ReleaseIndex(u) => MarkFilesNothing(g, u);
  }

  lemma EarlyTaskFilesNothing(g: Game, t: Task, pick: string)
    requires VoteTask(t) && !LateTask(t)
    ensures SameFilings(g, RunStep(g, t, pick))
  {
    match t
    case FileVote(s, voters) => OpenFilesNothing(g, pick, s, voters);
    case CheckTurnout(u) => MarkFilesNothing(g, u);
    case CompleteVote(u) => MarkFilesNothing(g, u);
    case TimeoutVote(u) => MarkFilesNothing(g, u);
  }

  lemma TaskFilesNothing(g: Game, t: Task, pick: string)
    requires VoteTask(t)
    ensures SameFilings(g, RunStep(g, t, pick))
  {
    if LateTask(t) {
      LateTaskFilesNothing(g, t, pick);
    } else {
      EarlyTaskFilesNothing(g, t, pick);
    }
  }

  lemma StepKeepsFresh(g: Game, a: Action)
    requires FreshSessions(g)
    ensures FreshSessions(Next(g, a))
  {
    var h := Next(g, a);
    if RoomAction(a) {
      RoomStepLeavesVotes(g, a);
      forall t | t in h.tasks && t.FileVote? ensures t in g.tasks {
        assert VoteTask(t);
      }
    } else {
      match a
      case StartVote(c, initiator, target) =>
        assert h == StartVoteStep(g, c, initiator, target);
      case CastVote(v, voter, choice) =>
        assert h == CastStep(g, v, voter, choice);
      case ExpireVote(_) =>
      case Run(t, pick) => TaskFilesNothing(g.(tasks := g.tasks - multiset{t}), t, pick);
    }
  }

  lemma {:induction false} StepKeepsOnce(g: Game, a: Action)
    requires OnceInv(g) && Enabled(g, a)
    ensures OnceInv(Next(g, a))
  {
    StepKeepsFresh(g, a);
    forall v ensures OnceAt(Next(g, a), v) {
      assert OnceAt(g, v);
      if RoomAction(a) {
        RoomStepLeavesVotes(g, a);
        VotesUntouchedEach(g, Next(g, a), v);
        UntouchedKeepsOnce(g, Next(g, a), v);
      } else if a.Run? {
        TaskKeepsOnce(g, a.task, a.pick, v);
      } else {
        CallKeepsOnce(g, a, v);
      }
    }
  }

  // ----- the theorems -----

  /** No votes yet, none of their goroutines, and nothing about votes in the history. */
  ghost predicate NoVotes(g: Game) {
    && g.ledger.heap == map[]
    && (forall t :: t in g.tasks ==> !VoteTask(t))
    && (forall e :: e in g.log ==> !VoteEvent(e))
  }

  lemma {:induction false} QuietLog(log: seq<Event>, v: VoteId)
    requires forall e :: e in log ==> !VoteEvent(e)
    ensures Effects(log, v) == 0 && Resolutions(log, v) == 0
  {
    if log == [] {
    } else {
      var front, last := log[..|log| - 1], log[|log| - 1];
      assert log == front + [last] && last in log;
      QuietLog(front, v);
      VoteLogGrows(front, last, v);
    }
  }

  lemma NoVotesIsOnce(g: Game)
    requires NoVotes(g)
    ensures OnceInv(g)
  {
    forall v ensures OnceAt(g, v) {
      QuietLog(g.log, v);
    }
  }

  /** A step on the room opens no vote. */
  lemma RoomStepOpensNoVote(g: Game, a: Action)
    requires NoVotes(g) && RoomAction(a)
    ensures NoVotes(Next(g, a))
  {
    var h := Next(g, a);
    RoomStepLeavesVotes(g, a);
    VotesUntouchedEach(g, h, "");
    assert forall t :: VoteTask(t) ==> h.tasks[t] == g.tasks[t];
  }

  /** In every run, a vote leaves ACTIVE at most once, causes at most one leader change or follow-up election,
      causes one only after it was resolved, and has a timeout armed as long as it is stored and ACTIVE. */
  lemma {:induction false} ResolvedExactlyOnce(g: Game, acts: seq<Action>, v: VoteId)
    requires NoVotes(g) && IsRun(g, acts, Anything)
    ensures var h := After(g, acts);
      && Resolutions(h.log, v) == (if v in h.ledger.heap && h.ledger.heap[v].status != Open then 1 else 0)
      && Effects(h.log, v) <= Resolutions(h.log, v)
      && (h.ledger.Live(v) ==> TimeoutVote(v) in h.tasks)
  {
    NoVotesIsOnce(g);
    OnceAlways(g, acts, Anything);
    assert OnceAt(After(g, acts), v);
  }

  lemma OnceAlways(g: Game, acts: seq<Action>, rule: Rule)
    requires OnceInv(g) && IsRun(g, acts, rule)
    ensures OnceInv(After(g, acts))
  {
    forall h, a | OnceInv(h) && Enabled(h, a) ensures OnceInv(Next(h, a)) { StepKeepsOnce(h, a); }
    RunKeeps(g, acts, rule, OnceInv);
  }

  /** What never changes about a session. */
  predicate SameBallot(s: VoteView, s': VoteView) {
    s' == s.(votes := s'.votes, status := s'.status)
  }

  /** A session keeps its terms; once it has left ACTIVE nothing about it changes, so the tally that the
      resolver takes after releasing the lock is the tally at the moment of resolution. */
  lemma {:induction false} StepKeepsBallot(g: Game, a: Action, v: VoteId)
    requires v in g.ledger.heap && Enabled(g, a)
    ensures v in Next(g, a).ledger.heap
    ensures SameBallot(g.ledger.heap[v], Next(g, a).ledger.heap[v])
    ensures g.ledger.heap[v].status != Open ==> Next(g, a).ledger.heap[v] == g.ledger.heap[v]
  {
    if RoomAction(a) {
      RoomStepLeavesVotes(g, a);
    } else {
      match a
      case StartVote(c, initiator, target) => assert StartVoteStep(g, c, initiator, target).ledger == g.ledger;
      case CastVote(u, voter, choice) => assert v in CastStep(g, u, voter, choice).ledger.heap;
      case ExpireVote(_) =>
      case Run(t, pick) => TaskKeepsBallot(g.(tasks := g.tasks - multiset{t}), t, pick, v);
    }
  }

  lemma {:induction false} TaskKeepsBallot(g: Game, t: Task, pick: string, v: VoteId)
    requires v in g.ledger.heap && VoteTask(t) && (t.FileVote? || t.ElectLeader? ==> pick !in g.ledger.heap)
    ensures v in RunStep(g, t, pick).ledger.heap
    ensures SameBallot(g.ledger.heap[v], RunStep(g, t, pick).ledger.heap[v])
    ensures g.ledger.heap[v].status != Open ==> RunStep(g, t, pick).ledger.heap[v] == g.ledger.heap[v]
  {
    match t
    case DecideVote(u, how) => assert DecideStep(g, u, how, pick).ledger == g.ledger;
    case ElectLeader(u, how) => assert v in ElectStep(g, u, how, pick).ledger.heap;
    case _ =>
  }

  lemma {:induction false} VotesFrozenOnceResolved(g: Game, acts: seq<Action>, v: VoteId)
    requires v in g.ledger.heap && g.ledger.heap[v].status != Open && IsRun(g, acts, Anything)
    ensures v in After(g, acts).ledger.heap && After(g, acts).ledger.heap[v] == g.ledger.heap[v]
    decreases |acts|
  {
    if acts == [] {
    } else {
      StepKeepsBallot(g, acts[0], v);
      VotesFrozenOnceResolved(Next(g, acts[0]), acts[1..], v);
    }
  }
}
