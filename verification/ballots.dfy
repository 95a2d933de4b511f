/** Vote sessions and the tables of the voting service, as values; each function is one section of the
    service that runs under its lock, or the tally that runs after the lock is released. */
module Ballots {
  import opened Models
  import opened Rules

  type VoteId = string

  const YES: string := "YES"
  const NO: string := "NO"

  datatype VoteKind = Removal | Election

  datatype VoteStatus = Open | Completed | TimedOut

  datatype VoteView = VoteView(
    kind: VoteKind, color: RoomColor, target: Id, initiator: Id, candidates: seq<Id>,
    total: int, votes: map<Id, string>, status: VoteStatus)

  /** `heap` has every session ever created, since the goroutines hold on to them; a session is stored
      until the expiry sweep drops it.  `index` is the active-vote table of the room, keyed by colour. */
  datatype Ledger = Ledger(heap: map<VoteId, VoteView>, dropped: set<VoteId>, index: map<RoomColor, VoteId>) {
    predicate Stored(v: VoteId) {
      v in heap && v !in dropped
    }

    predicate Live(v: VoteId) {
      Stored(v) && heap[v].status == Open
    }
  }

  // ----- tallies -----

  function CountFor(votes: map<Id, string>, choice: string): nat {
    |set k | k in votes && votes[k] == choice|
  }

  /** `winner` holds a maximal count; the empty string when nobody voted. */
  predicate Elected(votes: map<Id, string>, winner: string) {
    if votes == map[] then winner == ""
    else (exists k :: k in votes && votes[k] == winner)
         && (forall k :: k in votes ==> CountFor(votes, votes[k]) <= CountFor(votes, winner))
  }

  /** Removal passes at completion with more than half of the electorate, at timeout with more YES than NO. */
  predicate PassesOnCompletion(s: VoteView) {
    CountFor(s.votes, YES) > s.total / 2
  }

  predicate PassesOnTimeout(s: VoteView) {
    CountFor(s.votes, YES) > |s.votes| - CountFor(s.votes, YES)
  }

  // ----- sections -----

  predicate HasActiveVote(l: Ledger, c: RoomColor) {
    c in l.index && l.Live(l.index[c])
  }

  function ActiveVote(l: Ledger, c: RoomColor): Option<VoteView> {
    if c !in l.index then None
    else if !l.Live(l.index[c]) then None
    else Some(l.heap[l.index[c]])
  }

  /** The first objection to who calls for a removal and whom it is to remove. */
  function PartyFault(ps: seq<PlayerView>, rd: RoundView, c: RoomColor, initiator: Id, target: Id): Option<Error> {
    if !Has(ps, initiator) then Some(InitiatorNotFound)
    else if RoomOf(ps, initiator) != c then Some(InitiatorElsewhere)
    else if IsLeader(rd, initiator) then Some(InitiatorIsLeader)
    else if !IsLeader(rd, target) then Some(TargetNotLeader)
    else if !Has(ps, target) || RoomOf(ps, target) != c then Some(TargetElsewhere)
    else None
  }

  /** The first objection to a removal request, apart from an active vote. */
  function RequestFault(r: RoomView, c: RoomColor, initiator: Id, target: Id): Option<Error> {
    if !HasRound(r) then Some(NoActiveRound)
    else if TheRound(r).status == Selecting then Some(DuringSelection)
    else
      var fault := PartyFault(r.players, TheRound(r), c, initiator, target);
      if fault.Some? then fault
      else if |Standing(r.players, c)| < 3 then Some(TooFewVoters)
      else None
  }

  function RemovalSession(r: RoomView, l: Ledger, c: RoomColor, initiator: Id, target: Id): Result<VoteView> {
    var fault := RequestFault(r, c, initiator, target);
    if fault.Some? then Err(fault.value)
    else if HasActiveVote(l, c) then Err(VoteInProgress)
    else Ok(VoteView(Removal, c, target, initiator, [], |Standing(r.players, c)|, map[], Open))
  }

  function Without(ids: seq<Id>, x: Id): (r: seq<Id>)
    ensures forall y :: y in r <==> y in ids && y != x
  {
    if ids == [] then [] else (if ids[0] == x then [] else [ids[0]]) + Without(ids[1..], x)
  }

  function ElectionSession(r: RoomView, c: RoomColor, exclude: Id): Result<VoteView> {
    if !HasRound(r) then Err(NoActiveRound) else
    var candidates := Without(Standing(r.players, c), exclude);
    if candidates == [] then Err(NoCandidates)
    else Ok(VoteView(Election, c, "", "", candidates, |candidates|, map[], Open))
  }

  function File(l: Ledger, v: VoteId, s: VoteView): Ledger {
    Ledger(l.heap[v := s], l.dropped - {v}, l.index[s.color := v])
  }

  function RecordVote(l: Ledger, v: VoteId, voter: Id, choice: string): Result<Ledger> {
    if !l.Stored(v) then Err(VoteNotFound) else
    var s := l.heap[v];
    if s.status != Open then Err(VoteNotActive)
    else if voter in s.votes then Err(AlreadyVoted)
    else if s.kind == Removal && choice != YES && choice != NO then Err(InvalidChoice)
    else if s.kind == Election && choice !in s.candidates then Err(InvalidChoice)
    else Ok(l.(heap := l.heap[v := s.(votes := s.votes[voter := choice])]))
  }

  function MarkCompleted(l: Ledger, v: VoteId): Ledger {
    if l.Live(v) then l.(heap := l.heap[v := l.heap[v].(status := Completed)]) else l
  }

  function MarkTimedOut(l: Ledger, v: VoteId): Ledger {
    if l.Live(v) then
      l.(heap := l.heap[v := l.heap[v].(status := TimedOut)], index := l.index - {l.heap[v].color})
    else l
  }

  function Unindex(l: Ledger, c: RoomColor): Ledger {
    l.(index := l.index - {c})
  }

  function Expire(l: Ledger, v: VoteId): Ledger {
    l.(dropped := l.dropped + {v})
  }
}
