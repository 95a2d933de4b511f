/** From a passed removal to the new leader: who can be a candidate, who can win, and who can be installed. */
module Elections {
  import opened Models
  import opened Rules
  import opened Ballots
  import opened Protocol
  import opened Resolution

  predicate BallotOk(s: VoteView) {
    && (s.kind == Removal ==> forall k :: k in s.votes ==> s.votes[k] == YES || s.votes[k] == NO)
    && (s.kind == Election ==> forall k :: k in s.votes ==> s.votes[k] in s.candidates)
  }

  /** An installed leader was a candidate with a maximal count, and stood in the room of the vote. */
  ghost predicate InstalledOk(l: Ledger, v: VoteId, who: Id, place: RoomColor) {
    && v in l.heap
    && l.heap[v].kind == Election && l.heap[v].status != Open
    && who in l.heap[v].candidates && Elected(l.heap[v].votes, who)
    && place == l.heap[v].color
  }

  /** A follow-up election is for the room of a removal that passed, and the removed leader is no candidate. */
  ghost predicate OpenedOk(l: Ledger, log: seq<Event>, v: VoteId, e: VoteId) {
    && v in l.heap && e in l.heap
    && l.heap[v].kind == Removal && l.heap[v].status != Open && l.heap[e].kind == Election
    && l.heap[e].color == l.heap[v].color
    && l.heap[v].target !in l.heap[e].candidates
    && (exists how :: Resolved(v, how) in log && Passes(l.heap[v], how))
  }

  ghost predicate EventOk(l: Ledger, log: seq<Event>, e: Event) {
    match e
    case Installed(v, who, place) => InstalledOk(l, v, who, place)
    case Opened(v, el) => OpenedOk(l, log, v, el)
    case _ => true
  }

  ghost predicate TaskOk(l: Ledger, log: seq<Event>, t: Task) {
    match t
    case FileVote(s, _) => BallotOk(s)
    case DecideVote(v, how) => v in l.heap && l.heap[v].status != Open && Resolved(v, how) in log
    case ElectLeader(v, how) =>
      && v in l.heap && l.heap[v].status != Open && Resolved(v, how) in log
      && l.heap[v].kind == Removal && Passes(l.heap[v], how)
    case _ => true
  }

  ghost predicate PipelineInv(g: Game) {
    && (forall v :: v in g.ledger.heap ==> BallotOk(g.ledger.heap[v]))
    && (forall e :: e in g.log ==> EventOk(g.ledger, g.log, e))
    && (forall t :: t in g.tasks ==> TaskOk(g.ledger, g.log, t))
  }

  // ----- preservation -----

  /** The later ledger knows every earlier session, on the same terms, and unchanged once resolved. */
  ghost predicate Extends(l: Ledger, l': Ledger) {
    forall v :: v in l.heap ==>
      && v in l'.heap && SameBallot(l.heap[v], l'.heap[v])
      && (l.heap[v].status != Open ==> l'.heap[v] == l.heap[v])
  }

  lemma {:induction false} OldStaysOk(l: Ledger, l': Ledger, log: seq<Event>, log': seq<Event>)
    requires Extends(l, l') && forall e :: e in log ==> e in log'
    ensures forall e :: EventOk(l, log, e) ==> EventOk(l', log', e)
    ensures forall t :: TaskOk(l, log, t) ==> TaskOk(l', log', t)
  {
    forall e | EventOk(l, log, e) ensures EventOk(l', log', e) {
      if e.Opened? {
        var how :| Resolved(e.vote, how) in log && Passes(l.heap[e.vote], how);
        assert Resolved(e.vote, how) in log' && Passes(l'.heap[e.vote], how);
      }
    }
  }

  /** A step keeps the invariant if what it adds is in order. */
  lemma {:induction false} AddedKeepsPipeline(g: Game, h: Game)
    requires PipelineInv(g) && Extends(g.ledger, h.ledger)
    requires forall e :: e in g.log ==> e in h.log
    requires forall v :: v in h.ledger.heap ==> BallotOk(h.ledger.heap[v])
    requires forall e :: e in h.log ==> e in g.log || EventOk(h.ledger, h.log, e)
    requires forall t :: t in h.tasks ==> t in g.tasks || TaskOk(h.ledger, h.log, t)
    ensures PipelineInv(h)
  {
    OldStaysOk(g.ledger, h.ledger, g.log, h.log);
  }

  lemma {:induction false} RoomStepKeepsPipeline(g: Game, a: Action)
    requires PipelineInv(g) && RoomAction(a)
    ensures PipelineInv(Next(g, a))
  {
    var h := Next(g, a);
    RoomStepLeavesVotes(g, a);
    VotesUntouchedEach(g, h, "");
    forall e | e in h.log ensures EventOk(h.ledger, h.log, e) {
      if VoteEvent(e) {
        assert EventOk(g.ledger, g.log, e);
        if e.Opened? {
          var how :| Resolved(e.vote, how) in g.log && Passes(g.ledger.heap[e.vote], how);
          assert Resolved(e.vote, how) in h.log;
        }
      }
    }
    forall t | t in h.tasks ensures TaskOk(h.ledger, h.log, t) {
      if VoteTask(t) { assert t in g.tasks && TaskOk(g.ledger, g.log, t); }
    }
  }

  lemma {:induction false} OpenKeepsPipeline(g: Game, u: VoteId, s: VoteView, roll: set<Id>)
    requires PipelineInv(g) && u !in g.ledger.heap && BallotOk(s)
    ensures PipelineInv(OpenVote(g, u, s, roll))
  {
    AddedKeepsPipeline(g, OpenVote(g, u, s, roll));
  }

  lemma {:induction false} StartKeepsPipeline(g: Game, c: RoomColor, initiator: Id, target: Id)
    requires PipelineInv(g)
    ensures PipelineInv(StartVoteStep(g, c, initiator, target))
  {
    AddedKeepsPipeline(g, StartVoteStep(g, c, initiator, target));
  }

  lemma {:induction false} CastKeepsPipeline(g: Game, u: VoteId, voter: Id, choice: string)
    requires PipelineInv(g)
    ensures PipelineInv(CastStep(g, u, voter, choice))
  {
    var h := CastStep(g, u, voter, choice);
    if RecordVote(g.ledger, u, voter, choice).Ok? {
      AddedKeepsPipeline(g, h);
    }
  }

  lemma CompleteKeepsPipeline(g: Game, u: VoteId)
    requires PipelineInv(g)
    ensures PipelineInv(CompleteStep(g, u))
  {
    if g.ledger.Live(u) {
      AddedKeepsPipeline(g, CompleteStep(g, u));
    }
  }

  lemma TimeoutKeepsPipeline(g: Game, u: VoteId)
    requires PipelineInv(g)
    ensures PipelineInv(TimeoutStep(g, u))
  {
    if g.ledger.Live(u) {
      AddedKeepsPipeline(g, TimeoutStep(g, u));
    }
  }

  lemma {:induction false} InstalledIsOk(g: Game, u: VoteId, winner: string)
    requires u in g.ledger.heap && BallotOk(g.ledger.heap[u])
    requires g.ledger.heap[u].kind == Election && g.ledger.heap[u].status != Open
    requires winner != "" && Elected(g.ledger.heap[u].votes, winner)
    requires InstallLeader(g.room, g.ledger.heap[u].color, winner).Ok?
    ensures InstalledOk(g.ledger, u, winner, RoomOf(g.room.players, winner))
  {
  }

  /** The tally adds an installation in order, or nothing, to the history. */
  lemma {:induction false} DecideInstalls(g: Game, u: VoteId, how: Resolver, winner: string)
    requires u in g.ledger.heap && g.ledger.heap[u].status != Open && BallotOk(g.ledger.heap[u])
    requires g.ledger.heap[u].kind == Election ==> Elected(g.ledger.heap[u].votes, winner)
    ensures var h, e := DecideStep(g, u, how, winner), Installed(u, winner, RoomOf(g.room.players, winner));
            h.log == g.log || (h.log == g.log + [e] && EventOk(g.ledger, h.log, e))
  {
    var s := g.ledger.heap[u];
    if s.kind == Election && winner != "" && InstallLeader(g.room, s.color, winner).Ok? {
      InstalledIsOk(g, u, winner);
    }
  }

  lemma {:induction false} DecideSpawns(g: Game, u: VoteId, how: Resolver, winner: string)
    requires u in g.ledger.heap
    ensures var h, s := DecideStep(g, u, how, winner), g.ledger.heap[u];
      && h.ledger == g.ledger
      && (forall t :: t in h.tasks ==>
            || t in g.tasks || t == ReleaseIndex(u)
            || (t == ElectLeader(u, how) && s.kind == Removal && Passes(s, how)))
  {
  }

  lemma {:induction false} DecideKeepsPipeline(g: Game, u: VoteId, how: Resolver, winner: string)
    requires PipelineInv(g) && TaskOk(g.ledger, g.log, DecideVote(u, how))
    requires g.ledger.heap[u].kind == Election ==> Elected(g.ledger.heap[u].votes, winner)
    ensures PipelineInv(DecideStep(g, u, how, winner))
  {
    var h := DecideStep(g, u, how, winner);
    DecideInstalls(g, u, how, winner);
    DecideSpawns(g, u, how, winner);
    assert forall e :: e in g.log ==> e in h.log;
    forall t | t in h.tasks ensures t in g.tasks || TaskOk(h.ledger, h.log, t) {
      if t == ElectLeader(u, how) {
        assert Resolved(u, how) in h.log;
      }
    }
    AddedKeepsPipeline(g, h);
  }

  lemma ElectionOpens(g: Game, u: VoteId, how: Resolver, e: VoteId, s: VoteView)
    requires TaskOk(g.ledger, g.log, ElectLeader(u, how)) && e !in g.ledger.heap
    requires ElectionSession(g.room, g.ledger.heap[u].color, g.ledger.heap[u].target) == Ok(s)
    ensures var h := ElectStep(g, u, how, e);
      && h.ledger == File(g.ledger, e, s) && BallotOk(s)
      && h.log == g.log + [Opened(u, e)] && OpenedOk(h.ledger, h.log, u, e)
      && h.tasks == g.tasks + multiset{TimeoutVote(e)}
  {
    var h := ElectStep(g, u, how, e);
    assert h.log == g.log + [Opened(u, e)];
    assert Resolved(u, how) in h.log && Passes(h.ledger.heap[u], how);
  }

  lemma OpenedKeepsPipeline(g: Game, h: Game, u: VoteId, e: VoteId, s: VoteView)
    requires PipelineInv(g) && e !in g.ledger.heap && BallotOk(s) && h.ledger == File(g.ledger, e, s)
    requires h.log == g.log + [Opened(u, e)] && OpenedOk(h.ledger, h.log, u, e)
    requires h.tasks == g.tasks + multiset{TimeoutVote(e)}
    ensures PipelineInv(h)
  {
    AddedKeepsPipeline(g, h);
  }

  lemma {:induction false} ElectKeepsPipeline(g: Game, u: VoteId, how: Resolver, e: VoteId)
    requires PipelineInv(g) && TaskOk(g.ledger, g.log, ElectLeader(u, how)) && e !in g.ledger.heap
    ensures PipelineInv(ElectStep(g, u, how, e))
  {
    var h := ElectStep(g, u, how, e);
    match ElectionSession(g.room, g.ledger.heap[u].color, g.ledger.heap[u].target)
    case Ok(s) =>
      ElectionOpens(g, u, how, e, s);
      OpenedKeepsPipeline(g, h, u, e, s);
    case Err(_) =>
      AddedKeepsPipeline(g, h);
  }

  lemma TakenKeepsPipeline(g: Game, t: Task)
    requires PipelineInv(g) && t in g.tasks
    ensures PipelineInv(g.(tasks := g.tasks - multiset{t})) && TaskOk(g.ledger, g.log, t)
  {
  }

  lemma CheckKeepsPipeline(g: Game, u: VoteId)
    requires PipelineInv(g)
    ensures PipelineInv(CheckStep(g, u))
  {
    AddedKeepsPipeline(g, CheckStep(g, u));
  }

  lemma ReleaseKeepsPipeline(g: Game, u: VoteId)
    requires PipelineInv(g)
    ensures PipelineInv(ReleaseStep(g, u))
  {
    AddedKeepsPipeline(g, ReleaseStep(g, u));
  }

  lemma {:induction false} EarlyTaskKeepsPipeline(g: Game, t: Task, pick: string)
    requires PipelineInv(g) && Enabled(g, Run(t, pick))
    requires t.FileVote? || t.CheckTurnout? || t.CompleteVote? || t.TimeoutVote?
    ensures PipelineInv(Next(g, Run(t, pick)))
  {
    var g' := g.(tasks := g.tasks - multiset{t});
    TakenKeepsPipeline(g, t);
    match t
    case FileVote(s, voters) => OpenKeepsPipeline(g', pick, s, voters);
    case CheckTurnout(u) => CheckKeepsPipeline(g', u);
    case CompleteVote(u) => CompleteKeepsPipeline(g', u);
    case TimeoutVote(u) => TimeoutKeepsPipeline(g', u);
  }

  lemma {:induction false} LateTaskKeepsPipeline(g: Game, t: Task, pick: string)
    requires PipelineInv(g) && Enabled(g, Run(t, pick))
    requires t.DecideVote? || t.ReleaseIndex? || t.ElectLeader?
    ensures PipelineInv(Next(g, Run(t, pick)))
  {
    var g' := g.(tasks := g.tasks - multiset{t});
    TakenKeepsPipeline(g, t);
    match t
    case DecideVote(u, how) => DecideKeepsPipeline(g', u, how, pick);
    case ReleaseIndex(u) => ReleaseKeepsPipeline(g', u);
    case ElectLeader(u, how) => ElectKeepsPipeline(g', u, how, pick);
  }

  lemma {:induction false} StepKeepsPipeline(g: Game, a: Action)
    requires PipelineInv(g) && Enabled(g, a)
    ensures PipelineInv(Next(g, a))
  {
    if RoomAction(a) {
      RoomStepKeepsPipeline(g, a);
    } else {
      match a
      case StartVote(c, initiator, target) => StartKeepsPipeline(g, c, initiator, target);
      case CastVote(u, voter, choice) => CastKeepsPipeline(g, u, voter, choice);
      case ExpireVote(_) => AddedKeepsPipeline(g, Next(g, a));
      case Run(t, pick) =>
        if t.DecideVote? || t.ReleaseIndex? || t.ElectLeader? {
          LateTaskKeepsPipeline(g, t, pick);
        } else {
          EarlyTaskKeepsPipeline(g, t, pick);
        }
    }
  }

  // ----- the theorems -----

  /** In every run: whoever an election installs is one of its candidates, has a maximal count, and stands in
      that room; an election that follows a removal never installs the leader who was removed. */
  lemma {:induction false} ElectionsInstallCandidates(g: Game, acts: seq<Action>, e: VoteId, who: Id, place: RoomColor)
    requires NoVotes(g) && IsRun(g, acts, Anything)
    requires Installed(e, who, place) in After(g, acts).log
    ensures var h := After(g, acts);
      && InstalledOk(h.ledger, e, who, place)
      && (forall v :: Opened(v, e) in h.log ==>
            v in h.ledger.heap && h.ledger.heap[v].target != who && h.ledger.heap[v].color == place)
  {
    assert PipelineInv(g) by {
      assert forall e :: e in g.log ==> !VoteEvent(e);
      assert forall t :: t in g.tasks ==> !VoteTask(t);
    }
    forall h, a | PipelineInv(h) && Enabled(h, a) ensures PipelineInv(Next(h, a)) { StepKeepsPipeline(h, a); }
    RunKeeps(g, acts, Anything, PipelineInv);
    var h := After(g, acts);
    assert EventOk(h.ledger, h.log, Installed(e, who, place));
    forall v | Opened(v, e) in h.log
      ensures v in h.ledger.heap && h.ledger.heap[v].target != who && h.ledger.heap[v].color == place
    {
      assert EventOk(h.ledger, h.log, Opened(v, e));
    }
  }

  /** Some candidate has a maximal count as soon as one vote was cast. */
  lemma {:induction false} WinnerExists(votes: map<Id, string>)
    ensures exists w :: Elected(votes, w)
  {
    if votes == map[] {
      assert Elected(votes, "");
    } else {
      var k := BestKey(votes, votes.Keys);
      assert Elected(votes, votes[k]);
    }
  }

  lemma {:induction false} BestKey(votes: map<Id, string>, ks: set<Id>) returns (best: Id)
    requires ks != {} && ks <= votes.Keys
    ensures best in ks && forall k :: k in ks ==> CountFor(votes, votes[k]) <= CountFor(votes, votes[best])
  {
    var x :| x in ks;
    if ks == {x} {
      best := x;
    } else {
      var y := BestKey(votes, ks - {x});
      best := if CountFor(votes, votes[x]) > CountFor(votes, votes[y]) then x else y;
    }
  }
}
