/** The voting service for one room, section by section: each method is one stretch of a call between taking
    and releasing the lock, or the tally a resolver makes after releasing it. */
module VotingService {
  import opened Models
  import opened Ballots
  import Rules
  import Protocol
  import LeaderService
  import Calls

  class VoteSession {
    const kind: VoteKind
    const color: RoomColor
    const target: Id
    const initiator: Id
    const candidates: seq<Id>
    const total: int
    var votes: map<Id, string>
    var status: VoteStatus

    constructor (kind: VoteKind, color: RoomColor, target: Id, initiator: Id, candidates: seq<Id>, total: int)
      ensures View() == VoteView(kind, color, target, initiator, candidates, total, map[], Open)
    {
      this.kind, this.color, this.target, this.initiator := kind, color, target, initiator;
      this.candidates, this.total, votes, status := candidates, total, map[], Open;
    }

    ghost function View(): (v: VoteView)
      reads this
    {
      VoteView(kind, color, target, initiator, candidates, total, votes, status)
    }
  }

  // ----- tallies -----

  function CountAmong(votes: map<Id, string>, ks: set<Id>, choice: string): nat {
    |set k | k in ks && k in votes && votes[k] == choice|
  }

  lemma CountOneMore(votes: map<Id, string>, ks: set<Id>, k: Id, choice: string)
    requires k in votes && k !in ks
    ensures CountAmong(votes, ks + {k}, choice) == CountAmong(votes, ks, choice) + if votes[k] == choice then 1 else 0
  {
    var before, after := set x | x in ks && x in votes && votes[x] == choice,
                         set x | x in ks + {k} && x in votes && votes[x] == choice;
    if votes[k] == choice {
      assert after == before + {k};
    } else {
      assert after == before;
    }
  }

  lemma CountAll(votes: map<Id, string>, choice: string)
    ensures CountAmong(votes, votes.Keys, choice) == CountFor(votes, choice)
  {
    assert (set k | k in votes.Keys && k in votes && votes[k] == choice) == set k | k in votes && votes[k] == choice;
  }

  /** YES votes and all others, over the votes in any order. */
  method TallyRemoval(votes: map<Id, string>) returns (yes: nat, no: nat)
    ensures yes == CountFor(votes, YES) && yes + no == |votes|
  {
    yes, no := 0, 0;
    var todo, done := votes.Keys, {};
    while todo != {}
      invariant done + todo == votes.Keys && done !! todo
      invariant yes == CountAmong(votes, done, YES) && yes + no == |done|
    {
      var k :| k in todo;
      CountOneMore(votes, done, k, YES);
      todo, done := todo - {k}, done + {k};
      if votes[k] == YES {
        yes := yes + 1;
      } else {
        no := no + 1;
      }
    }
    assert done == votes.Keys && |votes| == |votes.Keys|;
    CountAll(votes, YES);
  }

  /** How many votes each choice has received, over the votes in any order. */
  method CountVotes(votes: map<Id, string>) returns (counts: map<string, nat>)
    ensures counts.Keys == votes.Values
    ensures forall choice :: choice in counts ==> counts[choice] == CountFor(votes, choice) && counts[choice] > 0
  {
    counts := map[];
    var todo, done := votes.Keys, {};
    while todo != {}
      invariant done + todo == votes.Keys && done !! todo
      invariant forall choice :: choice in counts <==> exists k :: k in done && votes[k] == choice
      invariant forall choice :: choice in counts ==> counts[choice] == CountAmong(votes, done, choice) > 0
    {
      var k :| k in todo;
      var choice := votes[k];
      if choice !in counts {
        assert (set x | x in done && x in votes && votes[x] == choice) == {};
      }
      forall c | c in counts || c == choice
        ensures CountAmong(votes, done + {k}, c) == CountAmong(votes, done, c) + if c == choice then 1 else 0
      {
        CountOneMore(votes, done, k, c);
      }
      counts := counts[choice := (if choice in counts then counts[choice] else 0) + 1];
      todo, done := todo - {k}, done + {k};
    }
    assert done == votes.Keys;
    forall choice | choice in counts ensures counts[choice] == CountFor(votes, choice) {
      CountAll(votes, choice);
    }
  }

  predicate Leads(counts: map<string, nat>, winner: string) {
    if counts == map[] then winner == ""
    else winner in counts && forall choice :: choice in counts ==> counts[choice] <= counts[winner]
  }

  /** The first choice with the largest count, over the counts in any order. */
  method MostVoted(counts: map<string, nat>) returns (winner: string)
    requires forall choice :: choice in counts ==> counts[choice] > 0
    ensures Leads(counts, winner)
  {
    var most := 0;
    winner := "";
    var todo := counts.Keys;
    while todo != {}
      invariant todo <= counts.Keys
      invariant if most == 0 then winner == "" && todo == counts.Keys else winner in counts && most == counts[winner]
      invariant forall choice :: choice in counts && choice !in todo ==> counts[choice] <= most
    {
      var choice :| choice in todo;
      todo := todo - {choice};
      if counts[choice] > most {
        most, winner := counts[choice], choice;
      }
    }
  }

  method TallyElection(votes: map<Id, string>) returns (winner: string)
    ensures Elected(votes, winner)
  {
    var counts := CountVotes(votes);
    winner := MostVoted(counts);
    MostCounted(votes, counts, winner);
  }

  lemma MostCounted(votes: map<Id, string>, counts: map<string, nat>, winner: string)
    requires counts.Keys == votes.Values
    requires forall choice :: choice in counts ==> counts[choice] == CountFor(votes, choice)
    requires Leads(counts, winner)
    ensures Elected(votes, winner)
  {
    if votes != map[] {
      var k :| k in votes;
      assert votes[k] in counts;
      forall k | k in votes ensures CountFor(votes, votes[k]) <= CountFor(votes, winner) {
        assert votes[k] in counts;
      }
    } else {
      assert counts.Keys == {};
    }
  }

  // ----- electorates -----

  method StandingIn(ps: seq<Player>, c: RoomColor) returns (ids: seq<Id>)
    ensures ids == Rules.Standing(Views(ps), c)
  {
    ids := [];
    ghost var vs := Views(ps);
    for i := 0 to |ps|
      invariant ids + Rules.Standing(vs[i..], c) == Rules.Standing(vs, c)
    {
      StandingNext(vs, i, c, ids);
      if ps[i].currentRoom == c {
        ids := ids + [ps[i].id];
      }
    }
  }

  lemma StandingNext(vs: seq<PlayerView>, i: nat, c: RoomColor, ids: seq<Id>)
    requires i < |vs|
    ensures ids + Rules.Standing(vs[i..], c)
            == (if vs[i].room == c then ids + [vs[i].id] else ids) + Rules.Standing(vs[i + 1..], c)
  {
    assert vs[i..][1..] == vs[i + 1..];
  }

  method CandidatesIn(ps: seq<Player>, c: RoomColor, exclude: Id) returns (ids: seq<Id>)
    ensures ids == Without(Rules.Standing(Views(ps), c), exclude)
  {
    ids := [];
    ghost var vs := Views(ps);
    for i := 0 to |ps|
      invariant ids + Without(Rules.Standing(vs[i..], c), exclude) == Without(Rules.Standing(vs, c), exclude)
    {
      CandidatesNext(vs, i, c, exclude, ids);
      if ps[i].currentRoom == c && ps[i].id != exclude {
        ids := ids + [ps[i].id];
      }
    }
  }

  lemma CandidatesNext(vs: seq<PlayerView>, i: nat, c: RoomColor, exclude: Id, ids: seq<Id>)
    requires i < |vs|
    ensures ids + Without(Rules.Standing(vs[i..], c), exclude)
            == (if vs[i].room == c && vs[i].id != exclude then ids + [vs[i].id] else ids)
               + Without(Rules.Standing(vs[i + 1..], c), exclude)
  {
    var rest := Rules.Standing(vs[i + 1..], c);
    StandingNext(vs, i, c, []);
    if vs[i].room == c {
      assert Rules.Standing(vs[i..], c) == [vs[i].id] + rest;
      assert Rules.Standing(vs[i..], c)[1..] == rest;
    } else {
      assert Rules.Standing(vs[i..], c) == rest;
    }
  }

  method Contains(ids: seq<Id>, id: Id) returns (found: bool)
    ensures found <==> id in ids
  {
    for i := 0 to |ids|
      invariant id !in ids[..i]
    {
      if ids[i] == id { return true; }
    }
    return false;
  }

  method CheckParties(ps: seq<Player>, rs: RoundState, c: RoomColor, initiatorID: Id, targetID: Id)
    returns (fault: Option<Error>)
    ensures fault == PartyFault(Views(ps), rs.View(), c, initiatorID, targetID)
  {
    var initiator := LeaderService.FindPlayer(ps, initiatorID);
    var target := LeaderService.FindPlayer(ps, targetID);
    if initiator == null { return Some(InitiatorNotFound); }
    if initiator.currentRoom != c { return Some(InitiatorElsewhere); }
    if rs.redLeaderID == initiatorID || rs.blueLeaderID == initiatorID { return Some(InitiatorIsLeader); }
    if rs.redLeaderID != targetID && rs.blueLeaderID != targetID { return Some(TargetNotLeader); }
    if target == null || target.currentRoom != c { return Some(TargetElsewhere); }
    return None;
  }

  method CheckRequest(room: Room, initiatorID: Id, targetID: Id, c: RoomColor)
    returns (fault: Option<Error>, voters: nat)
    ensures fault == RequestFault(room.View(), c, initiatorID, targetID)
    ensures fault == None ==> voters == |Rules.Standing(Views(room.players), c)|
  {
    voters := 0;
    if room.gameSession == null || room.gameSession.roundState == null { return Some(NoActiveRound), voters; }
    var rs := room.gameSession.roundState;
    if rs.status == Selecting { return Some(DuringSelection), voters; }
    fault := CheckParties(room.players, rs, c, initiatorID, targetID);
    if fault.Some? { return; }
    var players := StandingIn(room.players, c);
    voters := |players|;
    if voters < 3 { return Some(TooFewVoters), voters; }
    return None, voters;
  }

  /** A call filed the session `spec` describes under `v`, or refused it for the same reason. */
  ghost predicate Files(before: Ledger, after: Ledger, v: VoteId, error: Option<Error>, spec: Result<VoteView>) {
    match spec
    case Ok(s) => error == None && after == File(before, v, s)
    case Err(e) => error == Some(e) && after == before
  }

  // ----- the service -----

  class Service {
    var sessions: map<VoteId, VoteSession>
    var roomVotes: map<RoomColor, VoteId>
    /** Every session ever created: goroutines hold on to sessions that are no longer stored. */
    ghost var heap: map<VoteId, VoteSession>

    ghost predicate Valid()
      reads this
    {
      && (forall v :: v in sessions ==> v in heap && sessions[v] == heap[v])
      && (forall u, v :: u in heap && v in heap && u != v ==> heap[u] != heap[v])
    }

    ghost function Table(): (l: Ledger)
      reads this, heap.Values
    {
      Ledger(map v | v in heap :: heap[v].View(), heap.Keys - sessions.Keys, roomVotes)
    }

    constructor ()
      ensures Valid() && Table() == Ledger(map[], {}, map[]) && heap == map[]
    {
      sessions, roomVotes, heap := map[], map[], map[];
    }

    /** The storing section of a vote call: a new session becomes the active one of its colour, whatever the table
        named before. */
    method Store(v: VoteId, session: VoteSession)
      requires Valid() && v !in heap && session !in heap.Values
      modifies this
      ensures Valid() && heap == old(heap)[v := session]
      ensures Table() == File(old(Table()), v, session.View())
    {
      heap := heap[v := session];
      sessions := sessions[v := session];
      roomVotes := roomVotes[session.color := v];
      assert Table().heap == old(Table().heap)[v := session.View()];
      assert Table().dropped == old(Table().dropped) - {v};
    }

    method HasActiveVote(c: RoomColor) returns (active: bool)
      requires Valid()
      ensures active == Ballots.HasActiveVote(Table(), c)
    {
      if c !in roomVotes { return false; }
      var v := roomVotes[c];
      active := v in sessions && sessions[v].status == Open;
    }

    method GetActiveVoteForRoom(c: RoomColor) returns (session: VoteSession?)
      requires Valid()
      ensures session != null ==> session in heap.Values
      ensures ActiveVote(Table(), c) == if session == null then None else Some(session.View())
    {
      if c !in roomVotes { return null; }
      var v := roomVotes[c];
      if v !in sessions || sessions[v].status != Open { return null; }
      return sessions[v];
    }

    /** The checking section of a removal vote, the last check of which asks for an active vote, and the count of its
        electorate. */
    method CheckRemoval(room: Room, initiatorID: Id, targetID: Id, c: RoomColor)
      returns (error: Option<Error>, voters: nat)
      requires Valid()
      ensures match RemovalSession(room.View(), Table(), c, initiatorID, targetID)
              case Ok(s) => error == None && s == VoteView(Removal, c, targetID, initiatorID, [], voters, map[], Open)
              case Err(e) => error == Some(e)
    {
      error, voters := CheckRequest(room, initiatorID, targetID, c);
      if error == None {
        var busy := HasActiveVote(c);
        error := if busy then Some(VoteInProgress) else None;
      }
    }

    /** Both sections of a removal vote, when no other call comes between them. */
    method StartVote(room: Room?, v: VoteId, initiatorID: Id, targetID: Id, c: RoomColor) returns (error: Option<Error>)
      requires Valid() && v !in heap
      modifies this
      ensures Valid()
      ensures room == null ==> error == Some(RoomNotFound) && Table() == old(Table())
      ensures room != null ==>
                Files(old(Table()), Table(), v, error, RemovalSession(old(room.View()), old(Table()), c, initiatorID, targetID))
    {
      if room == null { return Some(RoomNotFound); }
      var voters: nat;
      error, voters := CheckRemoval(room, initiatorID, targetID, c);
      if error == None {
        var session := new VoteSession(Removal, c, targetID, initiatorID, [], voters);
        Store(v, session);
      }
    }

    /** Opens the election that follows the removal of `exclude`, under the fresh id `v`. */
    method StartElectionVote(room: Room?, v: VoteId, c: RoomColor, exclude: Id) returns (error: Option<Error>)
      requires Valid() && v !in heap
      modifies this
      ensures Valid()
      ensures room == null ==> error == Some(RoomNotFound) && Table() == old(Table())
      ensures room != null ==> Files(old(Table()), Table(), v, error, ElectionSession(old(room.View()), c, exclude))
    {
      if room == null { return Some(RoomNotFound); }
      if room.gameSession == null || room.gameSession.roundState == null { return Some(NoActiveRound); }
      var candidates := CandidatesIn(room.players, c, exclude);
      if |candidates| == 0 { return Some(NoCandidates); }
      var session := new VoteSession(Election, c, "", "", candidates, |candidates|);
      Store(v, session);
      return None;
    }

    /** The first section of a cast: `session` is then compared for turnout. */
    method RecordVote(v: VoteId, voter: Id, choice: string) returns (error: Option<Error>, session: VoteSession?)
      requires Valid()
      modifies heap.Values
      ensures Valid() && unchanged(this)
      ensures match Ballots.RecordVote(old(Table()), v, voter, choice)
              case Ok(l) => error == None && session != null && v in heap && session == heap[v] && Table() == l
              case Err(e) => error == Some(e) && session == null && Table() == old(Table())
    {
      if v !in sessions { return Some(VoteNotFound), null; }
      session := sessions[v];
      if session.status != Open { return Some(VoteNotActive), null; }
      if voter in session.votes { return Some(AlreadyVoted), null; }
      if session.kind == Removal {
        if choice != YES && choice != NO { return Some(InvalidChoice), null; }
      } else {
        var valid := Contains(session.candidates, choice);
        if !valid { return Some(InvalidChoice), null; }
      }
      session.votes := session.votes[voter := choice];
      assert Table().heap == old(Table().heap)[v := session.View()];
      error := None;
    }

    /** The first section of a completion; the winner of the race goes on to tally the session. */
    method MarkCompleted(v: VoteId) returns (won: VoteSession?)
      requires Valid()
      modifies heap.Values
      ensures Valid() && unchanged(this)
      ensures Table() == Ballots.MarkCompleted(old(Table()), v)
      ensures won == if old(Table()).Live(v) then heap[v] else null
    {
      if v !in sessions || sessions[v].status != Open { return null; }
      won := sessions[v];
      won.status := Completed;
      assert Table().heap == old(Table().heap)[v := won.View()];
    }

    /** The first section of a timeout, which releases the index entry at once. */
    method MarkTimedOut(v: VoteId) returns (won: VoteSession?)
      requires Valid()
      modifies this`roomVotes, heap.Values
      ensures Valid()
      ensures Table() == Ballots.MarkTimedOut(old(Table()), v)
      ensures won == if old(Table()).Live(v) then heap[v] else null
    {
      if v !in sessions || sessions[v].status != Open { return null; }
      won := sessions[v];
      won.status := TimedOut;
      roomVotes := roomVotes - {won.color};
      assert Table().heap == old(Table().heap)[v := won.View()];
    }

    method ReleaseIndex(c: RoomColor)
      requires Valid()
      modifies this`roomVotes
      ensures Valid() && Table() == Unindex(old(Table()), c)
    {
      roomVotes := roomVotes - {c};
    }

    /** The expiry sweep drops one session. */
    method ExpireSession(v: VoteId)
      requires Valid() && v in sessions
      modifies this`sessions
      ensures Valid() && Table() == Expire(old(Table()), v)
    {
      sessions := sessions - {v};
      assert Table().dropped == old(Table().dropped) + {v};
    }
  }

  /** The last section of a cast: a completion is launched when everybody counted has voted. */
  method CheckTurnout(v: VoteId, session: VoteSession) returns (launched: Option<Protocol.Task>)
    ensures forall g: Protocol.Game :: v in g.ledger.heap && g.ledger.heap[v] == session.View() ==>
              Protocol.CheckStep(g, v) == if launched.Some? then Protocol.Spawn(g, launched.value) else g
  {
    if |session.votes| == session.total {
      return Some(Protocol.CompleteVote(v));
    }
    return None;
  }

  /** What a resolver does after the lock is released: `elect` says that the removal passed, and otherwise the
      winner of an election is put in office. */
  method Decide(room: Room?, session: VoteSession, how: Protocol.Resolver)
    returns (elect: bool, winner: string, error: Option<Error>)
    modifies RoundFrame(room)
    ensures elect <==> session.kind == Removal && Protocol.Passes(session.View(), how)
    ensures session.kind == Removal ==> winner == ""
    ensures session.kind == Election ==> Elected(session.View().votes, winner)
    ensures room == null && winner != "" ==> error == Some(RoomNotFound)
    ensures room != null ==>
              if winner == "" then error == None && room.View() == old(room.View())
              else Refines(old(room.View()), room.View(), error, Rules.InstallLeader(old(room.View()), session.color, winner))
    ensures room != null && winner != "" && error == None ==>
              Calls.NowLeads(old(room.View()), room.View(), session.color, winner)
  {
    elect, winner, error := false, "", None;
    if session.kind == Removal {
      var yes, no := TallyRemoval(session.votes);
      if how == Protocol.ByTurnout {
        elect := yes > session.total / 2;
      } else {
        elect := yes > no;
      }
    } else {
      winner := TallyElection(session.votes);
      if winner != "" {
        error := LeaderService.SetLeader(room, session.color, winner);
      }
    }
  }
}
