/** The race of the two resolvers of a vote: a completion and the timeout may both be pending, and whichever runs
    first takes the vote and decides it by its own rule. */
module Race {
  import opened Models
  import opened Rules
  import opened Ballots
  import opened Protocol
  import opened Population
  import opened Resolution
  import opened Turnout
  import opened Sets

  // ----- the two verdicts -----

  /** The two rules agree: it is an election, or the YES votes are no majority of the electorate, or they are a
      majority of the ballots as well. */
  predicate OneVerdict(s: VoteView) {
    s.kind == Election || 2 * CountFor(s.votes, YES) <= s.total || |s.votes| < 2 * CountFor(s.votes, YES)
  }

  /** The two verdicts on a removal differ exactly when twice the YES votes lie between the number of votes and the
      number of voters; in particular they agree on a full turnout. */
  lemma VerdictsDifferIff(s: VoteView)
    ensures (PassesOnCompletion(s) != PassesOnTimeout(s)) <==>
      (|| |s.votes| < 2 * CountFor(s.votes, YES) <= s.total
       || s.total < 2 * CountFor(s.votes, YES) <= |s.votes|)
  {
  }

  /** A removal leads to an election by the rule of the resolver that took it. */
  predicate Elects(s: VoteView, how: Resolver) {
    s.kind == Removal && Passes(s, how)
  }

  /** With all voters' ballots in, the rules differ only on a YES majority of the electorate that is none of the
      ballots. */
  lemma SameVerdictIff(s: VoteView)
    requires s.total <= |s.votes|
    ensures (Elects(s, ByTurnout) == Elects(s, ByTimeout)) <==> OneVerdict(s)
    ensures !OneVerdict(s) ==> Elects(s, ByTurnout)
  {
    VerdictsDifferIff(s);
  }

  /** What a tally does to the room and the history, whichever resolver makes it. */
  datatype Outcome = Outcome(room: RoomView, events: seq<Event>)

  function OutcomeOf(r: RoomView, s: VoteView, v: VoteId, winner: string): Outcome {
    if s.kind == Removal || winner == "" then Outcome(r, [])
    else match InstallLeader(r, s.color, winner)
      case Err(_) => Outcome(r, [])
      case Ok(r') => Outcome(r', [Installed(v, winner, RoomOf(r.players, winner))])
  }

  // ----- a resolver's own sections -----

  function Resolving(v: VoteId, how: Resolver): Task {
    if how == ByTurnout then CompleteVote(v) else TimeoutVote(v)
  }

  function Other(how: Resolver): Resolver {
    if how == ByTurnout then ByTimeout else ByTurnout
  }

  /** A resolver takes the vote and decides it. */
  function Resolve(v: VoteId, how: Resolver, winner: string): seq<Action> {
    [Run(Resolving(v, how), "")] + [Run(DecideVote(v, how), winner)]
  }

  function Taken(s: VoteView, how: Resolver): VoteView {
    s.(status := if how == ByTurnout then Completed else TimedOut)
  }

  /** What a resolver leaves to do: an election after a removal that passed, or the release of the table entry. */
  function LeftToDo(v: VoteId, how: Resolver, elects: bool): multiset<Task> {
    if elects then multiset{ElectLeader(v, how)}
    else if how == ByTurnout then multiset{ReleaseIndex(v)}
    else multiset{}
  }

  /** The game after a resolver has taken and decided the vote. */
  function Decided(h: Game, v: VoteId, how: Resolver, winner: string): Game
    requires v in h.ledger.heap
  {
    var s, d := Taken(h.ledger.heap[v], how), OutcomeOf(h.room, h.ledger.heap[v], v, winner);
    var index := if how == ByTurnout then h.ledger.index else h.ledger.index - {s.color};
    Game(d.room,
         Ledger(h.ledger.heap[v := s], h.ledger.dropped, index),
         h.tasks - multiset{Resolving(v, how)} + LeftToDo(v, how, Elects(s, how)),
         h.roll,
         h.log + [Resolved(v, how)] + d.events)
  }

  lemma ResolverEffect(h: Game, v: VoteId, how: Resolver)
    requires h.ledger.Live(v) && Resolving(v, how) in h.tasks
    ensures var k, s := Next(h, Run(Resolving(v, how), "")), Taken(h.ledger.heap[v], how);
      && k.room == h.room && k.roll == h.roll && k.log == h.log + [Resolved(v, how)]
      && k.ledger.heap == h.ledger.heap[v := s] && k.ledger.dropped == h.ledger.dropped
      && k.ledger.index == (if how == ByTurnout then h.ledger.index else h.ledger.index - {s.color})
      && k.tasks == h.tasks - multiset{Resolving(v, how)} + multiset{DecideVote(v, how)}
  {
  }

  lemma TallyOutcome(h: Game, v: VoteId, how: Resolver, winner: string)
    requires v in h.ledger.heap
    ensures var d, k := OutcomeOf(h.room, h.ledger.heap[v], v, winner), DecideStep(h, v, how, winner);
      && k.ledger == h.ledger && k.roll == h.roll && k.room == d.room && k.log == h.log + d.events
      && k.tasks == h.tasks + LeftToDo(v, how, Elects(h.ledger.heap[v], how))
  {
  }

  lemma ResolveIsRun(h: Game, v: VoteId, how: Resolver, winner: string, rule: Rule)
    requires h.ledger.Live(v) && Resolving(v, how) in h.tasks
    requires h.ledger.heap[v].kind == Election ==> Elected(h.ledger.heap[v].votes, winner)
    requires forall g, t, pick :: rule(g, Run(t, pick))
    ensures IsRun(h, Resolve(v, how, winner), rule)
    ensures After(h, Resolve(v, how, winner)) == Decided(h, v, how, winner)
  {
    var take, decide := Run(Resolving(v, how), ""), Run(DecideVote(v, how), winner);
    TakeAndDecide(h, v, how, winner);
    RunTwo(h, take, decide, rule);
  }

  lemma TakeAndDecide(h: Game, v: VoteId, how: Resolver, winner: string)
    requires h.ledger.Live(v) && Resolving(v, how) in h.tasks
    requires h.ledger.heap[v].kind == Election ==> Elected(h.ledger.heap[v].votes, winner)
    ensures var take, decide := Run(Resolving(v, how), ""), Run(DecideVote(v, how), winner);
      && Enabled(h, take) && Enabled(Next(h, take), decide)
      && Next(Next(h, take), decide) == Decided(h, v, how, winner)
  {
    var k := Next(h, Run(Resolving(v, how), ""));
    ResolverEffect(h, v, how);
    assert k.tasks - multiset{DecideVote(v, how)} == h.tasks - multiset{Resolving(v, how)};
    DeciderEffect(k, v, how, winner);
  }

  lemma DeciderEffect(k: Game, v: VoteId, how: Resolver, winner: string)
    requires v in k.ledger.heap && DecideVote(v, how) in k.tasks
    ensures var d := OutcomeOf(k.room, k.ledger.heap[v], v, winner);
      Next(k, Run(DecideVote(v, how), winner))
      == Game(d.room, k.ledger, k.tasks - multiset{DecideVote(v, how)} + LeftToDo(v, how, Elects(k.ledger.heap[v], how)),
              k.roll, k.log + d.events)
  {
    TallyOutcome(k.(tasks := k.tasks - multiset{DecideVote(v, how)}), v, how, winner);
  }

  // ----- what comes after -----

  /** The entry of the table is gone, and an election may follow. */
  function Cleared(h: Game, v: VoteId, how: Resolver, winner: string): Game
    requires v in h.ledger.heap
  {
    var k := Decided(h, v, how, winner);
    k.(tasks := h.tasks - multiset{Resolving(v, how)}, ledger := Unindex(k.ledger, h.ledger.heap[v].color))
  }

  function Followed(k: Game, v: VoteId, e: VoteId, elects: bool): Game
    requires v in k.ledger.heap
  {
    if !elects then k else
    match ElectionSession(k.room, k.ledger.heap[v].color, k.ledger.heap[v].target)
    case Ok(s) => OpenVote(Record(k, Opened(v, e)), e, s, set x | x in s.candidates)
    case Err(_) => k
  }

  /** What a resolver still does once it has decided: the election, if one is due, and the release of the entry
      if there is to be none. */
  function Rest(h: Game, v: VoteId, how: Resolver, winner: string, e: VoteId): seq<Action>
    requires v in h.ledger.heap
  {
    var k, s := Decided(h, v, how, winner), h.ledger.heap[v];
    var opens := Elects(s, how) && ElectionSession(k.room, s.color, s.target).Ok?;
    (if Elects(s, how) then [Run(ElectLeader(v, how), e)] else [])
    + (if how == ByTurnout && !opens then [Run(ReleaseIndex(v), "")] else [])
  }

  /** Storing a session overwrites the entry of its colour. */
  lemma FileOverwrites(l: Ledger, index: map<RoomColor, VoteId>, e: VoteId, s: VoteView)
    requires l.index == index - {s.color}
    ensures File(l, e, s) == File(l.(index := index), e, s)
  {
    assert index[s.color := e] == (index - {s.color})[s.color := e];
  }

  /** The game after the decision, but for the task and the table entry. */
  lemma DecidedButCleared(h: Game, v: VoteId, how: Resolver, winner: string)
    requires v in h.ledger.heap
    ensures var k, c := Decided(h, v, how, winner), Cleared(h, v, how, winner);
      && k == c.(tasks := c.tasks + LeftToDo(v, how, Elects(h.ledger.heap[v], how)),
                 ledger := c.ledger.(index := k.ledger.index))
      && c.ledger.index == k.ledger.index - {h.ledger.heap[v].color}
      && (how == ByTimeout ==> c.ledger.index == k.ledger.index)
      && c.ledger.heap[v] == Taken(h.ledger.heap[v], how)
      && (h.ledger.heap[v].kind == Removal ==> c.room == h.room)
  {
  }

  lemma ElectionRuns(h: Game, v: VoteId, how: Resolver, winner: string, e: VoteId)
    requires v in h.ledger.heap && e !in h.ledger.heap && e !in h.roll && Elects(h.ledger.heap[v], how)
    requires ElectionSession(h.room, h.ledger.heap[v].color, h.ledger.heap[v].target).Ok?
    ensures var k, elect := Decided(h, v, how, winner), Run(ElectLeader(v, how), e);
      && Enabled(k, elect) && Next(k, elect) == Followed(Cleared(h, v, how, winner), v, e, true)
  {
    var k, c := Decided(h, v, how, winner), Cleared(h, v, how, winner);
    DecidedButCleared(h, v, how, winner);
    ElectionOpens(c, k.ledger.index, v, how, e);
  }

  lemma ElectionOpens(c: Game, index: map<RoomColor, VoteId>, v: VoteId, how: Resolver, e: VoteId)
    requires v in c.ledger.heap && c.ledger.index == index - {c.ledger.heap[v].color}
    requires e !in c.ledger.heap && e !in c.roll
    requires ElectionSession(c.room, c.ledger.heap[v].color, c.ledger.heap[v].target).Ok?
    ensures var elect, t := Run(ElectLeader(v, how), e), ElectLeader(v, how);
      var k := c.(tasks := c.tasks + multiset{t}, ledger := c.ledger.(index := index));
      Enabled(k, elect) && Next(k, elect) == Followed(c, v, e, true)
  {
    var s := ElectionSession(c.room, c.ledger.heap[v].color, c.ledger.heap[v].target).value;
    assert c.tasks + multiset{ElectLeader(v, how)} - multiset{ElectLeader(v, how)} == c.tasks;
    FileOverwrites(c.ledger, index, e, s);
  }

  lemma ReleaseRuns(k: Game, v: VoteId, c: RoomColor)
    requires v in k.ledger.heap && k.ledger.heap[v].color == c && ReleaseIndex(v) in k.tasks
    ensures Enabled(k, Run(ReleaseIndex(v), ""))
    ensures Next(k, Run(ReleaseIndex(v), ""))
            == k.(tasks := k.tasks - multiset{ReleaseIndex(v)}, ledger := Unindex(k.ledger, c))
  {
  }

  lemma NoElectionDue(h: Game, v: VoteId, how: Resolver, winner: string, e: VoteId)
    requires v in h.ledger.heap && !Elects(h.ledger.heap[v], how)
    ensures var k := Decided(h, v, how, winner);
      && IsRun(k, Rest(h, v, how, winner, e), Anything)
      && After(k, Rest(h, v, how, winner, e)) == Cleared(h, v, how, winner)
  {
    var k, release := Decided(h, v, how, winner), Run(ReleaseIndex(v), "");
    DecidedButCleared(h, v, how, winner);
    if how == ByTurnout {
      ReleaseRuns(k, v, h.ledger.heap[v].color);
      RunOne(k, release, Anything);
      assert Rest(h, v, how, winner, e) == [release];
    }
  }

  lemma {:induction false} RestRuns(h: Game, v: VoteId, how: Resolver, winner: string, e: VoteId)
    requires v in h.ledger.heap && e !in h.ledger.heap && e !in h.roll
    ensures var k := Decided(h, v, how, winner);
      && IsRun(k, Rest(h, v, how, winner, e), Anything)
      && After(k, Rest(h, v, how, winner, e))
         == Followed(Cleared(h, v, how, winner), v, e, Elects(h.ledger.heap[v], how))
  {
    var k, s, elect := Decided(h, v, how, winner), h.ledger.heap[v], Run(ElectLeader(v, how), e);
    if !Elects(s, how) {
      NoElectionDue(h, v, how, winner, e);
    } else if ElectionSession(h.room, s.color, s.target).Ok? {
      ElectionRuns(h, v, how, winner, e);
      RunOne(k, elect, Anything);
      assert Rest(h, v, how, winner, e) == [elect];
    } else {
      NoElectionRuns(h, v, how, winner, e);
    }
  }

  lemma NoElectionRuns(h: Game, v: VoteId, how: Resolver, winner: string, e: VoteId)
    requires v in h.ledger.heap && e !in h.ledger.heap && e !in h.roll && Elects(h.ledger.heap[v], how)
    requires ElectionSession(h.room, h.ledger.heap[v].color, h.ledger.heap[v].target).Err?
    ensures var k := Decided(h, v, how, winner);
      && IsRun(k, Rest(h, v, how, winner, e), Anything)
      && After(k, Rest(h, v, how, winner, e)) == Cleared(h, v, how, winner)
  {
    var k := Decided(h, v, how, winner);
    var elect, release := Run(ElectLeader(v, how), e), Run(ReleaseIndex(v), "");
    ElectionFails(h, v, how, winner, e);
    if how == ByTurnout {
      RunTwo(k, elect, release, Anything);
      assert Rest(h, v, how, winner, e) == [elect] + [release];
    } else {
      RunOne(k, elect, Anything);
      assert Rest(h, v, how, winner, e) == [elect];
    }
  }

  lemma ElectionFails(h: Game, v: VoteId, how: Resolver, winner: string, e: VoteId)
    requires v in h.ledger.heap && e !in h.ledger.heap && e !in h.roll && Elects(h.ledger.heap[v], how)
    requires ElectionSession(h.room, h.ledger.heap[v].color, h.ledger.heap[v].target).Err?
    ensures var k, elect, release := Decided(h, v, how, winner), Run(ElectLeader(v, how), e), Run(ReleaseIndex(v), "");
      && Enabled(k, elect)
      && if how == ByTurnout then
           Enabled(Next(k, elect), release) && Next(Next(k, elect), release) == Cleared(h, v, how, winner)
         else
           Next(k, elect) == Cleared(h, v, how, winner)
  {
    var k, c := Decided(h, v, how, winner), Cleared(h, v, how, winner);
    DecidedButCleared(h, v, how, winner);
    ElectionIsOff(c, k.ledger.index, v, how, e);
    if how == ByTurnout {
      ReleaseRuns(Next(k, Run(ElectLeader(v, how), e)), v, h.ledger.heap[v].color);
    }
  }

  lemma ElectionIsOff(c: Game, index: map<RoomColor, VoteId>, v: VoteId, how: Resolver, e: VoteId)
    requires v in c.ledger.heap && e !in c.ledger.heap && e !in c.roll
    requires ElectionSession(c.room, c.ledger.heap[v].color, c.ledger.heap[v].target).Err?
    ensures var elect, t := Run(ElectLeader(v, how), e), ElectLeader(v, how);
      var k := c.(tasks := c.tasks + multiset{t}, ledger := c.ledger.(index := index));
      && Enabled(k, elect)
      && Next(k, elect) == c.(tasks := c.tasks + LeftToDo(v, how, false), ledger := c.ledger.(index := index))
  {
    assert c.tasks + multiset{ElectLeader(v, how)} - multiset{ElectLeader(v, how)} == c.tasks;
  }

  /** One resolver runs to its end, and the other then finds the vote taken. */
  function Settle(h: Game, v: VoteId, how: Resolver, winner: string, e: VoteId): seq<Action>
    requires v in h.ledger.heap
  {
    Resolve(v, how, winner) + (Rest(h, v, how, winner, e) + [Run(Resolving(v, Other(how)), "")])
  }

  function Settled(h: Game, v: VoteId, how: Resolver, winner: string, e: VoteId): Game
    requires v in h.ledger.heap
  {
    var elects := Elects(h.ledger.heap[v], how);
    var m := Followed(Cleared(h, v, how, winner), v, e, elects);
    m.(tasks := m.tasks - multiset{Resolving(v, Other(how))})
  }

  lemma LoserIdles(m: Game, v: VoteId, how: Resolver)
    requires v in m.ledger.heap && m.ledger.heap[v].status != Open && Resolving(v, how) in m.tasks
    ensures Enabled(m, Run(Resolving(v, how), ""))
    ensures Next(m, Run(Resolving(v, how), "")) == m.(tasks := m.tasks - multiset{Resolving(v, how)})
  {
  }

  lemma {:induction false} SettleIsRun(h: Game, v: VoteId, how: Resolver, winner: string, e: VoteId)
    requires h.ledger.Live(v) && CompleteVote(v) in h.tasks && TimeoutVote(v) in h.tasks
    requires e !in h.ledger.heap && e !in h.roll
    requires h.ledger.heap[v].kind == Election ==> Elected(h.ledger.heap[v].votes, winner)
    ensures IsRun(h, Settle(h, v, how, winner, e), Anything)
    ensures After(h, Settle(h, v, how, winner, e)) == Settled(h, v, how, winner, e)
  {
    var k, rest, last := Decided(h, v, how, winner), Rest(h, v, how, winner, e), Run(Resolving(v, Other(how)), "");
    var elects := Elects(h.ledger.heap[v], how);
    var m := Followed(Cleared(h, v, how, winner), v, e, elects);
    assert IsRun(k, rest, Anything) && After(k, rest) == m by { RestRuns(h, v, how, winner, e); }
    LoserRuns(h, v, how, winner, e);
    assert IsRun(m, [last], Anything) && After(m, [last]) == Settled(h, v, how, winner, e) by { RunOne(m, last, Anything); }
    RunAppend(k, rest, [last], Anything);
    ResolveIsRun(h, v, how, winner, Anything);
    RunAppend(h, Resolve(v, how, winner), rest + [last], Anything);
  }

  lemma LoserRuns(h: Game, v: VoteId, how: Resolver, winner: string, e: VoteId)
    requires v in h.ledger.heap && CompleteVote(v) in h.tasks && TimeoutVote(v) in h.tasks && e !in h.ledger.heap
    ensures var elects := Elects(h.ledger.heap[v], how);
      var m, last := Followed(Cleared(h, v, how, winner), v, e, elects), Run(Resolving(v, Other(how)), "");
      Enabled(m, last) && Next(m, last) == Settled(h, v, how, winner, e)
  {
    var elects := Elects(h.ledger.heap[v], how);
    var k := Cleared(h, v, how, winner);
    var m := Followed(k, v, e, elects);
    assert Resolving(v, Other(how)) in k.tasks;
    FollowedKeeps(k, v, e, elects, Resolving(v, Other(how)));
    LoserIdles(m, v, Other(how));
  }

  lemma FollowedKeeps(k: Game, v: VoteId, e: VoteId, elects: bool, t: Task)
    requires v in k.ledger.heap && e != v && t in k.tasks
    ensures var m := Followed(k, v, e, elects);
      v in m.ledger.heap && m.ledger.heap[v] == k.ledger.heap[v] && t in m.tasks
  {
  }

  // ----- when a completion is pending -----

  /** Whoever votes: a completion is only pending for a vote with at least as many ballots as voters were counted. */
  ghost predicate FullAt(g: Game, v: VoteId) {
    CompleteVote(v) in g.tasks ==> v in g.ledger.heap && g.ledger.heap[v].total <= |g.ledger.heap[v].votes|
  }

  ghost predicate FullInv(g: Game) {
    forall v :: FullAt(g, v)
  }

  predicate EveryoneVoted(g: Game, v: VoteId) {
    v in g.ledger.heap && |g.ledger.heap[v].votes| == g.ledger.heap[v].total
  }

  /** Only the turnout check of a full vote launches a completion. */
  lemma {:induction false} CompletionFromCheck(g: Game, a: Action, v: VoteId)
    requires Enabled(g, a)
    ensures CompleteVote(v) in Next(g, a).tasks ==> CompleteVote(v) in g.tasks || EveryoneVoted(g, v)
  {
    if RoomAction(a) {
      RoomStepLeavesVotes(g, a);
      assert VoteTask(CompleteVote(v));
    } else {
      match a
      case StartVote(c, initiator, target) =>
        assert StartVoteStep(g, c, initiator, target).tasks[CompleteVote(v)] == g.tasks[CompleteVote(v)];
      case CastVote(u, voter, choice) =>
        assert CastStep(g, u, voter, choice).tasks[CompleteVote(v)] == g.tasks[CompleteVote(v)];
      case ExpireVote(_) =>
      case Run(t, pick) => TaskCompletion(g.(tasks := g.tasks - multiset{t}), t, pick, v);
    }
  }

  lemma {:induction false} TaskCompletion(g: Game, t: Task, pick: string, v: VoteId)
    requires VoteTask(t)
    ensures CompleteVote(v) in RunStep(g, t, pick).tasks ==> CompleteVote(v) in g.tasks || EveryoneVoted(g, v)
  {
    match t
    case FileVote(s, voters) => assert OpenVote(g, pick, s, voters).tasks == g.tasks + multiset{TimeoutVote(pick)};
    case CheckTurnout(u) =>
    case CompleteVote(u) => assert CompleteStep(g, u).tasks[CompleteVote(v)] == g.tasks[CompleteVote(v)];
    case TimeoutVote(u) => assert TimeoutStep(g, u).tasks[CompleteVote(v)] == g.tasks[CompleteVote(v)];
    case DecideVote(u, how) => DecideTallies(g, u, how, pick);
    case ReleaseIndex(u) =>
    case ElectLeader(u, how) => assert ElectStep(g, u, how, pick).tasks[CompleteVote(v)] == g.tasks[CompleteVote(v)];
  }

  /** Ballots only come in. */
  lemma {:induction false} BallotsGrow(g: Game, a: Action, v: VoteId)
    requires v in g.ledger.heap && Enabled(g, a)
    ensures v in Next(g, a).ledger.heap
    ensures Next(g, a).ledger.heap[v].total == g.ledger.heap[v].total
    ensures |g.ledger.heap[v].votes| <= |Next(g, a).ledger.heap[v].votes|
  {
    StepKeepsBallot(g, a, v);
    var votes, votes' := g.ledger.heap[v].votes, Next(g, a).ledger.heap[v].votes;
    forall x | x in votes ensures x in votes' {
      StepKeepsCast(g, a, v, x);
    }
    SubsetSize(votes.Keys, votes'.Keys);
  }

  lemma {:induction false} StepKeepsFull(g: Game, a: Action)
    requires FullInv(g) && Enabled(g, a)
    ensures FullInv(Next(g, a))
  {
    forall v ensures FullAt(Next(g, a), v) {
      if CompleteVote(v) in Next(g, a).tasks {
        assert FullAt(g, v);
        CompletionFromCheck(g, a, v);
        BallotsGrow(g, a, v);
      }
    }
  }

  lemma FullAlways(g: Game, acts: seq<Action>)
    requires NoVotes(g) && IsRun(g, acts, Anything)
    ensures FullInv(After(g, acts)) && OnceInv(After(g, acts))
  {
    NoVotesIsOnce(g);
    OnceAlways(g, acts, Anything);
    assert FullInv(g) by {
      assert forall t :: t in g.tasks ==> !VoteTask(t);
    }
    forall h, a | FullInv(h) && Enabled(h, a) ensures FullInv(Next(h, a)) { StepKeepsFull(h, a); }
    RunKeeps(g, acts, Anything, FullInv);
  }

  // ----- the theorems -----

  /** At the end of any run, whoever voted in it: a completion is pending for an ACTIVE vote.  Then so is the timeout,
      and the two agree on the room, and on whether an election follows, exactly unless the YES votes are a majority of
      the electorate and none of the ballots. */
  lemma {:induction false} RaceConfluentIff(g: Game, acts: seq<Action>, v: VoteId, winner: string)
    requires NoVotes(g) && IsRun(g, acts, Anything)
    requires After(g, acts).ledger.Live(v) && CompleteVote(v) in After(g, acts).tasks
    requires var s := After(g, acts).ledger.heap[v]; s.kind == Election ==> Elected(s.votes, winner)
    ensures TimeoutVote(v) in After(g, acts).tasks
    ensures IsRun(After(g, acts), Resolve(v, ByTurnout, winner), Anything)
    ensures IsRun(After(g, acts), Resolve(v, ByTimeout, winner), Anything)
    ensures var h := After(g, acts);
      var x, y := After(h, Resolve(v, ByTurnout, winner)), After(h, Resolve(v, ByTimeout, winner));
      && x.room == y.room
      && ((ElectLeader(v, ByTurnout) in x.tasks <==> ElectLeader(v, ByTimeout) in y.tasks) <==> OneVerdict(h.ledger.heap[v]))
  {
    FullAlways(g, acts);
    var h := After(g, acts);
    var s := h.ledger.heap[v];
    assert FullAt(h, v) && OnceAt(h, v);
    ResolveIsRun(h, v, ByTurnout, winner, Anything);
    ResolveIsRun(h, v, ByTimeout, winner, Anything);
    ElectionDueIff(h, v, ByTurnout, winner);
    ElectionDueIff(h, v, ByTimeout, winner);
    SameVerdictIff(s);
  }

  lemma ElectionDueIff(h: Game, v: VoteId, how: Resolver, winner: string)
    requires h.ledger.Live(v) && OnceAt(h, v)
    ensures ElectLeader(v, how) in Decided(h, v, how, winner).tasks <==> Elects(h.ledger.heap[v], how)
    ensures Decided(h, v, how, winner).room == OutcomeOf(h.room, h.ledger.heap[v], v, winner).room
  {
  }

  /** Two games that only differ in how the vote was resolved. */
  ghost predicate SameButHow(x: Game, y: Game, log: seq<Event>, v: VoteId) {
    && x.room == y.room && x.tasks == y.tasks && x.roll == y.roll
    && v in y.ledger.heap && x.ledger == y.ledger.(heap := y.ledger.heap[v := Taken(y.ledger.heap[v], ByTurnout)])
    && exists events :: x.log == log + [Resolved(v, ByTurnout)] + events && y.log == log + [Resolved(v, ByTimeout)] + events
  }

  /** Letting the winner of the race run to its end, with the election if one follows, and the loser after it: the two
      games are the same but for the vote's final status, exactly if the verdicts agree or no election could open. */
  lemma {:induction false} RaceSettlesIff(g: Game, acts: seq<Action>, v: VoteId, winner: string, e: VoteId)
    requires NoVotes(g) && IsRun(g, acts, Anything)
    requires After(g, acts).ledger.Live(v) && CompleteVote(v) in After(g, acts).tasks
    requires var s := After(g, acts).ledger.heap[v]; s.kind == Election ==> Elected(s.votes, winner)
    requires e !in After(g, acts).ledger.heap && e !in After(g, acts).roll
    ensures var h := After(g, acts);
      && IsRun(h, Settle(h, v, ByTurnout, winner, e), Anything)
      && IsRun(h, Settle(h, v, ByTimeout, winner, e), Anything)
      && var s := h.ledger.heap[v];
         SameButHow(After(h, Settle(h, v, ByTurnout, winner, e)), After(h, Settle(h, v, ByTimeout, winner, e)), h.log, v)
         <==> OneVerdict(s) || ElectionSession(h.room, s.color, s.target).Err?
  {
    FullAlways(g, acts);
    var h := After(g, acts);
    assert FullAt(h, v) && OnceAt(h, v);
    SettleIsRun(h, v, ByTurnout, winner, e);
    SettleIsRun(h, v, ByTimeout, winner, e);
    SettledAlikeIff(h, v, winner, e);
  }

  lemma {:induction false} SettledAlikeIff(h: Game, v: VoteId, winner: string, e: VoteId)
    requires v in h.ledger.heap && h.ledger.heap[v].total <= |h.ledger.heap[v].votes| && e !in h.ledger.heap
    requires CompleteVote(v) in h.tasks && TimeoutVote(v) in h.tasks
    ensures var s := h.ledger.heap[v];
      SameButHow(Settled(h, v, ByTurnout, winner, e), Settled(h, v, ByTimeout, winner, e), h.log, v)
      <==> OneVerdict(s) || ElectionSession(h.room, s.color, s.target).Err?
  {
    var s := h.ledger.heap[v];
    SameVerdictIff(s);
    if OneVerdict(s) || ElectionSession(h.room, s.color, s.target).Err? {
      SettledAlike(h, v, winner, e);
    } else {
      assert e in Settled(h, v, ByTurnout, winner, e).ledger.heap;
      assert e !in Settled(h, v, ByTimeout, winner, e).ledger.heap;
    }
  }

  lemma ClearedAlike(h: Game, v: VoteId, winner: string)
    requires v in h.ledger.heap
    ensures var x, y := Cleared(h, v, ByTurnout, winner), Cleared(h, v, ByTimeout, winner);
      && x.room == y.room && x.roll == y.roll
      && x.ledger == y.ledger.(heap := y.ledger.heap[v := Taken(y.ledger.heap[v], ByTurnout)])
    ensures var events := OutcomeOf(h.room, h.ledger.heap[v], v, winner).events;
      && Cleared(h, v, ByTurnout, winner).log == h.log + [Resolved(v, ByTurnout)] + events
      && Cleared(h, v, ByTimeout, winner).log == h.log + [Resolved(v, ByTimeout)] + events
  {
    var s := h.ledger.heap[v];
    assert h.ledger.index - {s.color} - {s.color} == h.ledger.index - {s.color};
    assert h.ledger.heap[v := Taken(s, ByTurnout)]
           == h.ledger.heap[v := Taken(s, ByTimeout)][v := Taken(Taken(s, ByTimeout), ByTurnout)];
  }

  /** Two games that differ in how the vote was resolved, and perhaps in what is pending, still do after what follows. */
  lemma FollowedAlike(x: Game, y: Game, log: seq<Event>, events: seq<Event>, v: VoteId, e: VoteId, elects: bool)
    requires x.room == y.room && x.roll == y.roll && e != v
    requires v in y.ledger.heap && x.ledger == y.ledger.(heap := y.ledger.heap[v := Taken(y.ledger.heap[v], ByTurnout)])
    requires x.log == log + [Resolved(v, ByTurnout)] + events && y.log == log + [Resolved(v, ByTimeout)] + events
    ensures var m, n := Followed(x, v, e, elects), Followed(y, v, e, elects);
      && m.tasks == x.tasks + Follower(x, v, e, elects) && n.tasks == y.tasks + Follower(x, v, e, elects)
      && SameButHow(m.(tasks := multiset{}), n.(tasks := multiset{}), log, v)
  {
    var c, target := y.ledger.heap[v].color, y.ledger.heap[v].target;
    if elects && ElectionSession(y.room, c, target).Ok? {
      var s := ElectionSession(y.room, c, target).value;
      var events' := events + [Opened(v, e)];
      assert x.log + [Opened(v, e)] == log + [Resolved(v, ByTurnout)] + events';
      assert y.log + [Opened(v, e)] == log + [Resolved(v, ByTimeout)] + events';
      assert x.ledger.heap[e := s] == y.ledger.heap[e := s][v := Taken(y.ledger.heap[v], ByTurnout)];
    }
  }

  /** The timeout of the election that follows, if one does. */
  function Follower(k: Game, v: VoteId, e: VoteId, elects: bool): multiset<Task>
    requires v in k.ledger.heap
  {
    if elects && ElectionSession(k.room, k.ledger.heap[v].color, k.ledger.heap[v].target).Ok? then multiset{TimeoutVote(e)}
    else multiset{}
  }

  lemma BothTaken(ts: multiset<Task>, more: multiset<Task>, v: VoteId)
    requires CompleteVote(v) in ts && TimeoutVote(v) in ts
    ensures ts - multiset{CompleteVote(v)} + more - multiset{TimeoutVote(v)}
            == ts - multiset{TimeoutVote(v)} + more - multiset{CompleteVote(v)}
  {
  }

  lemma {:induction false} SettledAlike(h: Game, v: VoteId, winner: string, e: VoteId)
    requires v in h.ledger.heap && h.ledger.heap[v].total <= |h.ledger.heap[v].votes| && e !in h.ledger.heap
    requires CompleteVote(v) in h.tasks && TimeoutVote(v) in h.tasks
    requires var s := h.ledger.heap[v]; OneVerdict(s) || ElectionSession(h.room, s.color, s.target).Err?
    ensures SameButHow(Settled(h, v, ByTurnout, winner, e), Settled(h, v, ByTimeout, winner, e), h.log, v)
  {
    var s := h.ledger.heap[v];
    var x, y := Cleared(h, v, ByTurnout, winner), Cleared(h, v, ByTimeout, winner);
    SameVerdictIff(s);
    ClearedAlike(h, v, winner);
    FollowedAlike(x, y, h.log, OutcomeOf(h.room, s, v, winner).events, v, e, Elects(s, ByTurnout));
    assert Followed(y, v, e, Elects(s, ByTurnout)) == Followed(y, v, e, Elects(s, ByTimeout));
    BothTaken(h.tasks, Follower(x, v, e, Elects(s, ByTurnout)), v);
  }

  /** In a run where only counted players' votes are accepted the race is harmless. */
  lemma {:induction false} RaceConfluent(g: Game, acts: seq<Action>, v: VoteId, winner: string, e: VoteId)
    requires NoVotes(g) && PopInv(g) && IsRun(g, acts, Rolled)
    requires After(g, acts).ledger.Live(v) && CompleteVote(v) in After(g, acts).tasks
    requires var s := After(g, acts).ledger.heap[v]; s.kind == Election ==> Elected(s.votes, winner)
    requires e !in After(g, acts).ledger.heap && e !in After(g, acts).roll
    ensures OneVerdict(After(g, acts).ledger.heap[v]) && TimeoutVote(v) in After(g, acts).tasks
    ensures var h := After(g, acts);
      && IsRun(h, Settle(h, v, ByTurnout, winner, e), Anything)
      && IsRun(h, Settle(h, v, ByTimeout, winner, e), Anything)
      && SameButHow(After(h, Settle(h, v, ByTurnout, winner, e)), After(h, Settle(h, v, ByTimeout, winner, e)), h.log, v)
  {
    TurnoutAlways(g, acts);
    assert TurnoutAt(After(g, acts), v);
    RunFreely(g, acts, Rolled);
    RaceConfluentIff(g, acts, v, winner);
    RaceSettlesIff(g, acts, v, winner, e);
  }

  /** A vote that was completed had its full turnout, so a timeout would have decided it the same way. */
  lemma {:induction false} CompletedAsIfTimedOut(g: Game, acts: seq<Action>, v: VoteId)
    requires NoVotes(g) && PopInv(g) && IsRun(g, acts, Rolled)
    requires Resolved(v, ByTurnout) in After(g, acts).log
    ensures var h := After(g, acts);
      && v in h.ledger.heap && |h.ledger.heap[v].votes| == h.ledger.heap[v].total
      && (PassesOnCompletion(h.ledger.heap[v]) <==> PassesOnTimeout(h.ledger.heap[v]))
  {
    TurnoutAlways(g, acts);
    assert TurnoutAt(After(g, acts), v);
    VerdictsDifferIff(After(g, acts).ledger.heap[v]);
  }
}
