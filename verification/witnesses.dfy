/** Runs of accepted calls, from every lobby that can start a game, into the states that break a hypothesis of the
    theorems on votes. */
module Witnesses {
  import opened Models
  import opened Rules
  import opened Ballots
  import opened Protocol
  import opened Population
  import opened Resolution
  import opened Turnout
  import opened Race
  import opened Sets
  import Leaders
  import Promotions
  import VoteIndex

  /** A lobby that can start a game, in which nobody has voted yet. */
  ghost predicate FreshLobby(g: Game) {
    InLobby(g) && NoVotes(g) && |g.room.players| >= 6
  }

  /** A member of the red room calls for the removal of its leader as soon as the game has started. */
  lemma RemovalCanBeRequested(g: Game) returns (start: Action, initiator: Id, target: Id)
    requires FreshLobby(g)
    ensures start.StartGame? && Enabled(g, start)
    ensures var h := Next(g, start);
      NoVotes(h) && PopInv(h) && h.ledger == g.ledger && RemovalSession(h.room, h.ledger, RedRoom, initiator, target).Ok?
  {
    var dealt := Promotions.SomeDeal(g.room.players);
    Promotions.DealExists(g.room.players);
    assert IdsIn(dealt, RedRoom) != {} && IdsIn(dealt, BlueRoom) != {};
    var red :| red in IdsIn(dealt, RedRoom);
    var blue :| blue in IdsIn(dealt, BlueRoom);
    start := StartGame("", dealt, red, blue);
    var h := Next(g, start);
    Promotions.StartInLobby(g, "", dealt, red, blue);
    RoomStepOpensNoVote(g, start);
    RoomStepLeavesVotes(g, start);
    initiator := RequestInRoom(h.room, h.ledger);
    target := red;
  }

  lemma RequestInRoom(r: RoomView, l: Ledger) returns (initiator: Id)
    requires Distinct(r.players) && r.status == InProgress && Seated(r) && Leaders.Located(r)
    requires TheRound(r).status == Active && l.heap == map[] && |r.players| >= 6
    ensures RemovalSession(r, l, RedRoom, initiator, TheRound(r).redLeader).Ok?
  {
    initiator := AnotherIn(r.players, RedRoom, TheRound(r).redLeader);
    NoPartyFault(r, initiator);
    StandingCount(r.players, RedRoom);
  }

  lemma AnotherIn(ps: seq<PlayerView>, c: RoomColor, x: Id) returns (other: Id)
    requires |IdsIn(ps, c)| >= 2
    ensures other in IdsIn(ps, c) && other != x
  {
    var ids := IdsIn(ps, c);
    if ids <= {x} {
      SubsetSize(ids, {x});
      assert false;
    }
    other :| other in ids && other !in {x};
  }

  lemma NoPartyFault(r: RoomView, initiator: Id)
    requires Distinct(r.players) && HasRound(r) && Leaders.Located(r)
    requires initiator in IdsIn(r.players, RedRoom) && initiator != TheRound(r).redLeader
    ensures PartyFault(r.players, TheRound(r), RedRoom, initiator, TheRound(r).redLeader) == None
  {
    var rd := TheRound(r);
    InRoomIff(r.players, initiator, RedRoom);
    InRoomIff(r.players, rd.redLeader, RedRoom);
    InRoomIff(r.players, rd.blueLeader, BlueRoom);
  }

  // ----- an outsider's vote -----

  /** The code accepts an outsider's vote, after which there can be more ballots than voters. */
  lemma OutsiderVotes(g: Game) returns (acts: seq<Action>, v: VoteId, voter: Id)
    requires FreshLobby(g)
    ensures IsRun(g, acts, Rolled)
    ensures RecordVote(After(g, acts).ledger, v, voter, YES).Ok?
    ensures !StaysWithin(Next(After(g, acts), CastVote(v, voter, YES)), v)
  {
    var start, initiator, target := RemovalCanBeRequested(g);
    var rest: seq<Action>;
    rest, v, voter := OutsiderCastHappens(Next(g, start), RedRoom, initiator, target);
    RunMore(g, start, rest, Rolled);
    acts := [start] + rest;
  }

  // ----- a removal request too early -----

  /** A removal passes, and the code accepts the next request before its election begins. */
  lemma EarlyRequest(g: Game) returns (acts: seq<Action>, initiator: Id, target: Id)
    requires FreshLobby(g) && g.ledger.index == map[]
    ensures IsRun(g, acts, VoteIndex.Patient)
    ensures var h := After(g, acts);
      && RemovalSession(h.room, h.ledger, RedRoom, initiator, target).Ok?
      && !VoteIndex.StaysIndexed(Next(h, StartVote(RedRoom, initiator, target)))
  {
    var start: Action;
    start, initiator, target := RemovalCanBeRequested(g);
    var rest := VoteIndex.EarlyVoteHappens(Next(g, start), RedRoom, initiator, target);
    RunMore(g, start, rest, VoteIndex.Patient);
    acts := [start] + rest;
  }

  /** The code accepts a second request before the first is stored. */
  lemma SecondRequest(g: Game) returns (acts: seq<Action>, initiator: Id, target: Id)
    requires FreshLobby(g) && g.ledger.index == map[]
    ensures IsRun(g, acts, VoteIndex.Patient)
    ensures var h := After(g, acts);
      && RemovalSession(h.room, h.ledger, RedRoom, initiator, target).Ok?
      && !VoteIndex.StaysIndexed(Next(h, StartVote(RedRoom, initiator, target)))
  {
    var start: Action;
    start, initiator, target := RemovalCanBeRequested(g);
    var request := StartVote(RedRoom, initiator, target);
    VoteIndex.TwoRequestsHappen(Next(g, start), RedRoom, initiator, target);
    RunMore(g, start, [request], VoteIndex.Patient);
    acts := [start] + [request];
  }

  // ----- a race that matters -----

  lemma CountAfterNo(votes: map<Id, string>, x: Id)
    requires x !in votes
    ensures CountFor(votes[x := NO], YES) == CountFor(votes, YES) && |votes[x := NO]| == |votes| + 1
  {
    var votes' := votes[x := NO];
    assert (set k | k in votes' && votes'[k] == YES) == (set k | k in votes && votes[k] == YES);
    assert votes'.Keys == votes.Keys + {x};
    assert |votes'| == |votes'.Keys| && |votes| == |votes.Keys|;
  }

  /** `n` more voters, counted or not, vote NO. */
  lemma {:induction false} NoVotesCome(g: Game, v: VoteId, n: nat) returns (acts: seq<Action>)
    requires Votable(g.ledger, v, NO) && g.ledger.heap[v].kind == Removal && CompleteVote(v) in g.tasks
    ensures IsRun(g, acts, Anything) && After(g, acts).room == g.room
    ensures var h := After(g, acts);
      && h.ledger.Live(v) && CompleteVote(v) in h.tasks
      && var s, s' := g.ledger.heap[v], h.ledger.heap[v];
        && s' == s.(votes := s'.votes) && |s'.votes| == |s.votes| + n && CountFor(s'.votes, YES) == CountFor(s.votes, YES)
    decreases n
  {
    if n == 0 {
      acts := [];
    } else {
      var voter := FreshId(g.ledger.heap[v].votes.Keys);
      var a := CastVote(v, voter, NO);
      var h := Next(g, a);
      CastEffect(g, v, voter, NO);
      CountAfterNo(g.ledger.heap[v].votes, voter);
      assert CompleteVote(v) in h.tasks;
      var rest := NoVotesCome(h, v, n - 1);
      RunMore(g, a, rest, Anything);
      acts := [a] + rest;
    }
  }

  /** All counted players vote YES, and the last of them launches a completion. */
  lemma {:induction false} AllVoteYes(g: Game, v: VoteId) returns (acts: seq<Action>)
    requires TurnoutInv(g) && g.ledger.Live(v) && g.ledger.heap[v].kind == Removal && g.ledger.heap[v].votes == map[]
    ensures IsRun(g, acts, Anything) && After(g, acts).room == g.room
    ensures var h := After(g, acts);
      && h.ledger.Live(v) && CompleteVote(v) in h.tasks
      && var s, s' := g.ledger.heap[v], h.ledger.heap[v];
        s' == s.(votes := s'.votes) && |s'.votes| == s.total == CountFor(s'.votes, YES) && s.total >= 1
  {
    assert TurnoutAt(g, v);
    var votes := RestVotes(g, v, YES);
    TurnoutFrom(g, votes);
    RunFreely(g, votes, Rolled);
    var h := After(g, votes);
    assert TurnoutAt(h, v);
    Unanimous(h.ledger.heap[v], g.roll[v], h.roll[v]);
    var check := TurnoutNoticed(h, v);
    RunAppend(g, votes, check, Anything);
    acts := votes + check;
  }

  lemma TurnoutNoticed(g: Game, v: VoteId) returns (acts: seq<Action>)
    requires EveryoneVoted(g, v) && (CheckTurnout(v) in g.tasks || CompleteVote(v) in g.tasks)
    ensures IsRun(g, acts, Anything)
    ensures var h := After(g, acts); h.room == g.room && h.ledger == g.ledger && CompleteVote(v) in h.tasks
  {
    acts := [];
    if CompleteVote(v) !in g.tasks {
      var check := Run(CheckTurnout(v), "");
      assert Next(g, check) == CheckStep(g.(tasks := g.tasks - multiset{CheckTurnout(v)}), v);
      RunOne(g, check, Anything);
      acts := [check];
    }
  }

  lemma Unanimous(s: VoteView, roll: set<Id>, roll': set<Id>)
    requires roll <= s.votes.Keys <= roll' && s.total == |roll| == |roll'|
    requires forall x :: x in s.votes ==> s.votes[x] == YES
    ensures |s.votes| == s.total == CountFor(s.votes, YES)
  {
    SubsetSize(roll, s.votes.Keys);
    SubsetSize(s.votes.Keys, roll');
    assert (set k | k in s.votes && s.votes[k] == YES) == s.votes.Keys;
    assert |s.votes| == |s.votes.Keys|;
  }

  /** The YES of all counted players, and then the NO of as many others. */
  lemma {:induction false} VoteSplits(g: Game, initiator: Id, target: Id) returns (acts: seq<Action>, v: VoteId)
    requires NoVotes(g) && PopInv(g) && RemovalSession(g.room, g.ledger, RedRoom, initiator, target).Ok?
    ensures IsRun(g, acts, Anything) && After(g, acts).room == g.room
    ensures var h := After(g, acts);
      && h.ledger.Live(v) && CompleteVote(v) in h.tasks
      && var s := h.ledger.heap[v]; s.kind == Removal && s.color == RedRoom && s.target == target && !OneVerdict(s)
  {
    var opening: seq<Action>;
    opening, v := RemovalOpens(g, RedRoom, initiator, target);
    TurnoutAlways(g, opening);
    RunFreely(g, opening, Rolled);
    var h := After(g, opening);
    VoteIndex.SessionShape(g.room, g.ledger, RedRoom, initiator, target);
    var yes := AllVoteYes(h, v);
    var full := After(h, yes);
    var no := NoVotesCome(full, v, |full.ledger.heap[v].votes|);
    RunAppend(h, yes, no, Anything);
    RunAppend(g, opening, yes + no, Anything);
    acts := opening + (yes + no);
  }

  lemma ElectionPossible(r: RoomView, l: Ledger, initiator: Id, target: Id)
    requires Distinct(r.players) && RemovalSession(r, l, RedRoom, initiator, target).Ok?
    ensures ElectionSession(r, RedRoom, target).Ok?
  {
    VoteIndex.CandidatesExist(r, RedRoom, target);
  }

  /** A completion is pending after a unanimous YES; as many outsiders vote NO before it runs.  If it takes the vote the
      removal passes and leads to an election; if the timeout does, it fails. */
  lemma {:induction false} RaceDiverges(g: Game) returns (acts: seq<Action>, v: VoteId, e: VoteId)
    requires FreshLobby(g)
    ensures IsRun(g, acts, Anything)
    ensures var h := After(g, acts);
      && h.ledger.Live(v) && CompleteVote(v) in h.tasks && h.ledger.heap[v].kind == Removal
      && !OneVerdict(h.ledger.heap[v])
      && IsRun(h, Settle(h, v, ByTurnout, "", e), Anything)
      && IsRun(h, Settle(h, v, ByTimeout, "", e), Anything)
      && !SameButHow(After(h, Settle(h, v, ByTurnout, "", e)), After(h, Settle(h, v, ByTimeout, "", e)), h.log, v)
  {
    var start, initiator, target := RemovalCanBeRequested(g);
    var begun, rest := Next(g, start), [];
    rest, v := VoteSplits(begun, initiator, target);
    ElectionPossible(begun.room, begun.ledger, initiator, target);
    RunMore(g, start, rest, Anything);
    acts := [start] + rest;
    var h := After(g, acts);
    e := FreshId(h.ledger.heap.Keys + h.roll.Keys);
    RaceSettlesIff(g, acts, v, "", e);
  }
}
