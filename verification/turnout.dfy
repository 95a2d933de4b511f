/** When only counted voters vote: the turnout never exceeds the electorate, and a full turnout is never lost. */
module Turnout {
  import opened Models
  import opened Rules
  import opened Ballots
  import opened Protocol
  import opened Population
  import opened Resolution
  import opened Sets

  predicate Counted(g: Game, v: VoteId, voter: Id) {
    v in g.roll && voter in g.roll[v]
  }

  /** The hypothesis on runs: the votes that are accepted are those of players counted when the session was opened. */
  ghost predicate Rolled(g: Game, a: Action) {
    a.CastVote? && RecordVote(g.ledger, a.vote, a.voter, a.choice).Ok? ==> Counted(g, a.vote, a.voter)
  }

  ghost predicate TurnoutAt(g: Game, v: VoteId) {
    if v !in g.ledger.heap then
      CheckTurnout(v) !in g.tasks && CompleteVote(v) !in g.tasks && Resolved(v, ByTurnout) !in g.log
    else
      var s := g.ledger.heap[v];
      && v in g.roll && s.total == |g.roll[v]| && s.total >= 1 && s.votes.Keys <= g.roll[v]
      && (g.ledger.Live(v) && |s.votes| == s.total ==> CheckTurnout(v) in g.tasks || CompleteVote(v) in g.tasks)
      && (CompleteVote(v) in g.tasks || Resolved(v, ByTurnout) in g.log ==> |s.votes| == s.total)
  }

  /** A session still to be stored has its electorate counted. */
  ghost predicate FiledCounted(g: Game) {
    forall t :: t in g.tasks && t.FileVote? ==> t.session.votes == map[] && t.session.total == |t.voters| >= 1
  }

  ghost predicate TurnoutInv(g: Game) {
    && PopInv(g) && FiledCounted(g)
    && forall v :: TurnoutAt(g, v)
  }

  // ----- preservation -----

  lemma OpenKeepsTurnout(g: Game, u: VoteId, s: VoteView, roll: set<Id>, v: VoteId)
    requires TurnoutAt(g, v) && u !in g.ledger.heap
    requires u == v ==> s.votes == map[] && s.total == |roll| && s.total >= 1
    ensures TurnoutAt(OpenVote(g, u, s, roll), v)
  {
  }

  lemma RemovalIsCounted(r: RoomView, l: Ledger, c: RoomColor, initiator: Id, target: Id)
    requires Distinct(r.players) && RemovalSession(r, l, c, initiator, target).Ok?
    ensures var s := RemovalSession(r, l, c, initiator, target).value;
      s.votes == map[] && s.total == |IdsIn(r.players, c)| >= 1
  {
    StandingIsIdsIn(r.players, c);
    SetSize(Standing(r.players, c));
  }

  lemma StartKeepsTurnout(g: Game, c: RoomColor, initiator: Id, target: Id, v: VoteId)
    requires TurnoutAt(g, v)
    ensures TurnoutAt(StartVoteStep(g, c, initiator, target), v)
  {
  }

  lemma FileKeepsTurnout(g: Game, t: Task, u: VoteId, v: VoteId)
    requires FiledCounted(g) && TurnoutAt(g, v) && t.FileVote? && t in g.tasks && u !in g.ledger.heap
    ensures TurnoutAt(Next(g, Run(t, u)), v)
  {
    OpenKeepsTurnout(g.(tasks := g.tasks - multiset{t}), u, t.session, t.voters, v);
  }

  lemma StepKeepsFiled(g: Game, a: Action)
    requires PopInv(g) && FiledCounted(g)
    ensures FiledCounted(Next(g, a))
  {
    var h := Next(g, a);
    if RoomAction(a) {
      RoomStepLeavesVotes(g, a);
      forall t | t in h.tasks && t.FileVote? ensures t in g.tasks {
        assert VoteTask(t);
      }
    } else {
      match a
      case StartVote(c, initiator, target) =>
        if RemovalSession(g.room, g.ledger, c, initiator, target).Ok? {
          RemovalIsCounted(g.room, g.ledger, c, initiator, target);
        }
      case CastVote(v, voter, choice) => assert SameFilings(g, CastStep(g, v, voter, choice));
      case ExpireVote(_) =>
      case Run(t, pick) => TaskFilesNothing(g.(tasks := g.tasks - multiset{t}), t, pick);
    }
  }

  lemma {:induction false} CastKeepsTurnout(g: Game, u: VoteId, voter: Id, choice: string, v: VoteId)
    requires TurnoutAt(g, v) && Rolled(g, CastVote(u, voter, choice))
    ensures TurnoutAt(CastStep(g, u, voter, choice), v)
  {
    var h := CastStep(g, u, voter, choice);
    if u == v && RecordVote(g.ledger, v, voter, choice).Ok? {
      var s, s' := g.ledger.heap[v], h.ledger.heap[v];
      assert s'.votes.Keys == s.votes.Keys + {voter};
      SubsetSize(s.votes.Keys, g.roll[v]);
      SubsetSize(s'.votes.Keys, g.roll[v]);
    }
  }

  lemma {:induction false} ElectKeepsTurnout(g: Game, u: VoteId, how: Resolver, e: VoteId, v: VoteId)
    requires Distinct(g.room.players) && TurnoutAt(g, v) && e !in g.ledger.heap
    ensures TurnoutAt(ElectStep(g, u, how, e), v)
  {
    if u in g.ledger.heap {
      var c, target := g.ledger.heap[u].color, g.ledger.heap[u].target;
      match ElectionSession(g.room, c, target)
      case Ok(s) =>
        StandingIsIdsIn(g.room.players, c);
        WithoutDistinct(Standing(g.room.players, c), target);
        SetSize(s.candidates);
        OpenKeepsTurnout(Record(g, Opened(u, e)), e, s, (set x | x in s.candidates), v);
      case Err(_) =>
    }
  }

  lemma CompleteKeepsTurnout(g: Game, u: VoteId, pick: string, v: VoteId)
    requires TurnoutAt(g, v) && CompleteVote(u) in g.tasks
    ensures TurnoutAt(Next(g, Run(CompleteVote(u), pick)), v)
  {
  }

  lemma {:induction false} CheckKeepsTurnout(g: Game, u: VoteId, pick: string, v: VoteId)
    requires TurnoutAt(g, v) && CheckTurnout(u) in g.tasks
    ensures TurnoutAt(Next(g, Run(CheckTurnout(u), pick)), v)
  {
  }

  lemma DecideKeepsTurnout(g: Game, u: VoteId, how: Resolver, pick: string, v: VoteId)
    requires TurnoutAt(g, v)
    ensures TurnoutAt(DecideStep(g, u, how, pick), v)
  {
    DecideTallies(g, u, how, pick);
  }

  lemma TimeoutKeepsTurnout(g: Game, u: VoteId, v: VoteId)
    requires TurnoutAt(g, v)
    ensures TurnoutAt(TimeoutStep(g, u), v)
  {
  }

  lemma {:induction false} TaskKeepsTurnout(g: Game, t: Task, pick: string, v: VoteId)
    requires Distinct(g.room.players) && FiledCounted(g) && TurnoutAt(g, v) && Enabled(g, Run(t, pick)) && VoteTask(t)
    ensures TurnoutAt(Next(g, Run(t, pick)), v)
  {
    var g' := g.(tasks := g.tasks - multiset{t});
    if t.FileVote? {
      FileKeepsTurnout(g, t, pick, v);
    } else if t.CheckTurnout? {
      CheckKeepsTurnout(g, t.vote, pick, v);
    } else if t.CompleteVote? {
      CompleteKeepsTurnout(g, t.vote, pick, v);
    } else {
      assert TurnoutAt(g', v);
      match t
      case TimeoutVote(u) => TimeoutKeepsTurnout(g', u, v);
      case DecideVote(u, how) => DecideKeepsTurnout(g', u, how, pick, v);
      case ReleaseIndex(u) =>
      case ElectLeader(u, how) => ElectKeepsTurnout(g', u, how, pick, v);
    }
  }

  lemma {:induction false} StepKeepsTurnout(g: Game, a: Action)
    requires TurnoutInv(g) && Enabled(g, a) && Rolled(g, a)
    ensures TurnoutInv(Next(g, a))
  {
    StepKeepsPop(g, a);
    StepKeepsFiled(g, a);
    forall v ensures TurnoutAt(Next(g, a), v) {
      assert TurnoutAt(g, v);
      StepKeepsTurnoutAt(g, a, v);
    }
  }

  lemma {:induction false} StepKeepsTurnoutAt(g: Game, a: Action, v: VoteId)
    requires Distinct(g.room.players) && FiledCounted(g) && TurnoutAt(g, v) && Enabled(g, a) && Rolled(g, a)
    ensures TurnoutAt(Next(g, a), v)
  {
    if RoomAction(a) {
      RoomStepLeavesVotes(g, a);
      VotesUntouchedEach(g, Next(g, a), v);
    } else {
      match a
      case StartVote(c, initiator, target) => StartKeepsTurnout(g, c, initiator, target, v);
      case CastVote(u, voter, choice) => CastKeepsTurnout(g, u, voter, choice, v);
      case ExpireVote(_) =>
      case Run(t, pick) => TaskKeepsTurnout(g, t, pick, v);
    }
  }

  // ----- the theorems -----

  /** If every cast comes from a counted voter, a vote has at most as many ballots as voters; and whenever a
      stored ACTIVE vote has them all, somebody is about to notice or a completion is already pending. */
  lemma {:induction false} FullTurnoutNotLost(g: Game, acts: seq<Action>, v: VoteId)
    requires NoVotes(g) && PopInv(g) && IsRun(g, acts, Rolled)
    requires v in After(g, acts).ledger.heap
    ensures var h := After(g, acts);
      var s := h.ledger.heap[v];
      && |s.votes| <= s.total
      && (h.ledger.Live(v) && |s.votes| == s.total ==> CheckTurnout(v) in h.tasks || CompleteVote(v) in h.tasks)
  {
    TurnoutAlways(g, acts);
    var h := After(g, acts);
    assert TurnoutAt(h, v);
    SubsetSize(h.ledger.heap[v].votes.Keys, h.roll[v]);
  }

  lemma TurnoutAlways(g: Game, acts: seq<Action>)
    requires NoVotes(g) && PopInv(g) && IsRun(g, acts, Rolled)
    ensures TurnoutInv(After(g, acts))
  {
    assert forall t :: t in g.tasks ==> !VoteTask(t);
    assert forall e :: e in g.log ==> !VoteEvent(e);
    TurnoutFrom(g, acts);
  }

  lemma TurnoutFrom(g: Game, acts: seq<Action>)
    requires TurnoutInv(g) && IsRun(g, acts, Rolled)
    ensures TurnoutInv(After(g, acts))
  {
    forall h, a | TurnoutInv(h) && Enabled(h, a) && Rolled(h, a) ensures TurnoutInv(Next(h, a)) { StepKeepsTurnout(h, a); }
    RunKeeps(g, acts, Rolled, TurnoutInv);
  }

  /** Over every run from here in which only counted players' votes are accepted, the turnout of `v` stays within
      its electorate. */
  ghost predicate StaysWithin(g: Game, v: VoteId) {
    forall acts :: IsRun(g, acts, Rolled) && v in After(g, acts).ledger.heap ==>
      |After(g, acts).ledger.heap[v].votes| <= After(g, acts).ledger.heap[v].total
  }

  predicate Votable(l: Ledger, v: VoteId, choice: string) {
    && l.Live(v)
    && (l.heap[v].kind == Removal ==> choice == YES || choice == NO)
    && (l.heap[v].kind == Election ==> choice in l.heap[v].candidates)
  }

  lemma CastEffect(g: Game, v: VoteId, voter: Id, choice: string)
    requires RecordVote(g.ledger, v, voter, choice).Ok?
    ensures var h, s := Next(g, CastVote(v, voter, choice)), g.ledger.heap[v];
      && h.room == g.room && h.roll == g.roll && v in h.ledger.heap && h.ledger.heap[v] == s.(votes := s.votes[voter := choice])
      && h.ledger.heap[v].votes.Keys == s.votes.Keys + {voter}
      && Votable(h.ledger, v, choice)
  {
  }

  /** The counted players who have not voted yet vote, one after the other. */
  lemma {:induction false} RestVotes(g: Game, v: VoteId, choice: string) returns (acts: seq<Action>)
    requires Votable(g.ledger, v, choice) && v in g.roll
    ensures IsRun(g, acts, Rolled) && Votable(After(g, acts).ledger, v, choice) && After(g, acts).room == g.room
    ensures var s, s' := g.ledger.heap[v], After(g, acts).ledger.heap[v];
      && s' == s.(votes := s'.votes) && g.roll[v] + s.votes.Keys <= s'.votes.Keys
      && (forall x :: x in s'.votes ==> s'.votes[x] == if x in s.votes then s.votes[x] else choice)
    decreases g.roll[v] - g.ledger.heap[v].votes.Keys
  {
    if g.roll[v] <= g.ledger.heap[v].votes.Keys {
      acts := [];
    } else {
      var voter :| voter in g.roll[v] && voter !in g.ledger.heap[v].votes;
      var a := CastVote(v, voter, choice);
      var h := Next(g, a);
      CastEffect(g, v, voter, choice);
      var rest := RestVotes(h, v, choice);
      RunMore(g, a, rest, Rolled);
      acts := [a] + rest;
      MoreVotes(g.ledger.heap[v], h.ledger.heap[v], After(h, rest).ledger.heap[v], voter, choice);
    }
  }

  lemma MoreVotes(s: VoteView, m: VoteView, s': VoteView, voter: Id, choice: string)
    requires voter !in s.votes && m == s.(votes := s.votes[voter := choice]) && s' == m.(votes := s'.votes)
    requires m.votes.Keys <= s'.votes.Keys
    requires forall x :: x in s'.votes ==> s'.votes[x] == if x in m.votes then m.votes[x] else choice
    ensures s' == s.(votes := s'.votes) && s.votes.Keys <= s'.votes.Keys
    ensures forall x :: x in s'.votes ==> s'.votes[x] == if x in s.votes then s.votes[x] else choice
  {
  }

  lemma OutsiderOverfills(g: Game, v: VoteId, voter: Id, choice: string)
    requires TurnoutInv(g) && RecordVote(g.ledger, v, voter, choice).Ok? && !Counted(g, v, voter)
    ensures !StaysWithin(Next(g, CastVote(v, voter, choice)), v)
  {
    assert TurnoutAt(g, v);
    var h := Next(g, CastVote(v, voter, choice));
    CastEffect(g, v, voter, choice);
    var acts := RestVotes(h, v, choice);
    Overfull(g.roll[v], voter, After(h, acts).ledger.heap[v]);
  }

  lemma Overfull(counted: set<Id>, outsider: Id, s: VoteView)
    requires outsider !in counted && counted <= s.votes.Keys && outsider in s.votes && s.total == |counted|
    ensures |s.votes| > s.total
  {
    SubsetSize(counted + {outsider}, s.votes.Keys);
    assert |s.votes| == |s.votes.Keys|;
  }

  /** The code accepts a vote from anybody.  Accepting one leaves the turnout within the electorate for ever exactly
      when the voter was counted; after an outsider's vote the counted players themselves can pass the number at
      which the code would notice that everybody has voted. */
  lemma {:induction false} OutsiderCastIff(g: Game, v: VoteId, voter: Id, choice: string)
    requires TurnoutInv(g) && RecordVote(g.ledger, v, voter, choice).Ok?
    ensures StaysWithin(Next(g, CastVote(v, voter, choice)), v) <==> Counted(g, v, voter)
  {
    var h := Next(g, CastVote(v, voter, choice));
    if Counted(g, v, voter) {
      StepKeepsTurnout(g, CastVote(v, voter, choice));
      forall acts | IsRun(h, acts, Rolled) && v in After(h, acts).ledger.heap
        ensures |After(h, acts).ledger.heap[v].votes| <= After(h, acts).ledger.heap[v].total
      {
        TurnoutFrom(h, acts);
        assert TurnoutAt(After(h, acts), v);
        SubsetSize(After(h, acts).ledger.heap[v].votes.Keys, After(h, acts).roll[v]);
      }
    } else {
      OutsiderOverfills(g, v, voter, choice);
    }
  }

  /** A removal that has just been requested and stored. */
  lemma {:induction false} RemovalOpens(g: Game, c: RoomColor, initiator: Id, target: Id)
    returns (acts: seq<Action>, v: VoteId)
    requires NoVotes(g) && RemovalSession(g.room, g.ledger, c, initiator, target).Ok?
    ensures IsRun(g, acts, Rolled) && After(g, acts).ledger.Live(v) && After(g, acts).room == g.room
    ensures After(g, acts).ledger.heap[v] == RemovalSession(g.room, g.ledger, c, initiator, target).value
  {
    var request := StartVote(c, initiator, target);
    var session := RemovalSession(g.room, g.ledger, c, initiator, target).value;
    var h, t := Next(g, request), FileVote(session, IdsIn(g.room.players, c));
    v := FreshId(g.ledger.heap.Keys + g.roll.Keys);
    var file := Run(t, v);
    assert t in h.tasks && Enabled(h, file);
    assert Next(h, file).ledger == File(g.ledger, v, t.session);
    RunTwoMore(g, request, file, [], Rolled);
    acts := [request] + ([file] + []);
  }

  /** Wherever a removal can be requested, a vote can be open in which the code counts an outsider. */
  lemma {:induction false} OutsiderCastHappens(g: Game, c: RoomColor, initiator: Id, target: Id)
    returns (acts: seq<Action>, v: VoteId, voter: Id)
    requires NoVotes(g) && PopInv(g) && RemovalSession(g.room, g.ledger, c, initiator, target).Ok?
    ensures IsRun(g, acts, Rolled)
    ensures RecordVote(After(g, acts).ledger, v, voter, YES).Ok?
    ensures !StaysWithin(Next(After(g, acts), CastVote(v, voter, YES)), v)
  {
    acts, v := RemovalOpens(g, c, initiator, target);
    TurnoutAlways(g, acts);
    var h := After(g, acts);
    assert TurnoutAt(h, v);
    voter := FreshId(h.roll[v]);
    OutsiderCastIff(h, v, voter, YES);
  }

  /** No recorded vote is ever overwritten, in any run. */
  lemma {:induction false} VotesNeverOverwritten(g: Game, acts: seq<Action>, v: VoteId, voter: Id)
    requires v in g.ledger.heap && voter in g.ledger.heap[v].votes && IsRun(g, acts, Anything)
    ensures v in After(g, acts).ledger.heap
    ensures voter in After(g, acts).ledger.heap[v].votes
    ensures After(g, acts).ledger.heap[v].votes[voter] == g.ledger.heap[v].votes[voter]
    decreases |acts|
  {
    if acts == [] {
    } else {
      StepKeepsBallot(g, acts[0], v);
      StepKeepsCast(g, acts[0], v, voter);
      VotesNeverOverwritten(Next(g, acts[0]), acts[1..], v, voter);
    }
  }

  lemma CastKeepsCast(g: Game, u: VoteId, who: Id, choice: string, v: VoteId, voter: Id)
    requires v in g.ledger.heap && voter in g.ledger.heap[v].votes
    ensures var l := CastStep(g, u, who, choice).ledger;
      v in l.heap && voter in l.heap[v].votes && l.heap[v].votes[voter] == g.ledger.heap[v].votes[voter]
  {
  }

  lemma {:induction false} StepKeepsCast(g: Game, a: Action, v: VoteId, voter: Id)
    requires v in g.ledger.heap && voter in g.ledger.heap[v].votes && Enabled(g, a)
    requires v in Next(g, a).ledger.heap
    ensures voter in Next(g, a).ledger.heap[v].votes
    ensures Next(g, a).ledger.heap[v].votes[voter] == g.ledger.heap[v].votes[voter]
  {
    if RoomAction(a) {
      RoomStepLeavesVotes(g, a);
    } else {
      match a
      case StartVote(c, initiator, target) => assert StartVoteStep(g, c, initiator, target).ledger == g.ledger;
      case CastVote(u, who, choice) => CastKeepsCast(g, u, who, choice, v, voter);
      case ExpireVote(_) =>
      case Run(t, pick) =>
        var g' := g.(tasks := g.tasks - multiset{t});
        TaskKeepsVotes(g', t, pick, v);
    }
  }

  lemma {:induction false} TaskKeepsVotes(g: Game, t: Task, pick: string, v: VoteId)
    requires v in g.ledger.heap && VoteTask(t) && (t.FileVote? || t.ElectLeader? ==> pick !in g.ledger.heap)
    ensures v in RunStep(g, t, pick).ledger.heap
    ensures RunStep(g, t, pick).ledger.heap[v].votes == g.ledger.heap[v].votes
  {
    match t
    case DecideVote(u, how) => assert DecideStep(g, u, how, pick).ledger == g.ledger;
    case ElectLeader(u, how) =>
      assert v in ElectStep(g, u, how, pick).ledger.heap && ElectStep(g, u, how, pick).ledger.heap[v] == g.ledger.heap[v];
    case _ =>
  }
}
