/** The calls on a room as their callers see them: exactly when each is accepted, why it is refused otherwise, and
    everything that it changes. */
module Calls {
  import opened Models
  import opened Rules
  import opened Ballots
  import opened Population
  import Protocol

  predicate Leading(r: RoomView, x: Id)
    requires HasRound(r)
  {
    x == TheRound(r).redLeader || x == TheRound(r).blueLeader
  }

  /** Nothing has changed outside the round. */
  predicate OnlyRound(r: RoomView, s: RoomView) {
    && r.session.Some? && r.session.value.round.Some? && s.session.Some? && s.session.value.round.Some?
    && s.status == r.status && s.players == r.players
    && s.session.value.id == r.session.value.id && s.session.value.currentRound == r.session.value.currentRound
  }

  /** `x` leads room `c` now, and that is all that has changed. */
  predicate NowLeads(r: RoomView, s: RoomView, c: RoomColor, x: Id) {
    && OnlyRound(r, s)
    && var rd, rd' := r.session.value.round.value, s.session.value.round.value;
      && (c == RedRoom ==> rd'.redLeader == x && rd'.blueLeader == rd.blueLeader)
      && (c != RedRoom ==> rd'.blueLeader == x && rd'.redLeader == rd.redLeader)
      && rd'.(redLeader := rd.redLeader, blueLeader := rd.blueLeader) == rd
  }

  // ----- leaders -----

  lemma InstallAcceptedIff(r: RoomView, c: RoomColor, x: Id)
    requires Distinct(r.players) && c != NoRoom
    ensures InstallLeader(r, c, x).Ok? <==> HasRound(r) && x in IdsIn(r.players, c)
    ensures InstallLeader(r, c, x).Err? ==>
              InstallLeader(r, c, x).error
              == if !HasRound(r) then NoActiveRound
                 else if forall i :: 0 <= i < |r.players| ==> r.players[i].id != x then PlayerNotFound
                 else DifferentRoom
  {
    InRoomIff(r.players, x, c);
  }

  lemma InstallEffect(r: RoomView, c: RoomColor, x: Id)
    requires InstallLeader(r, c, x).Ok?
    ensures NowLeads(r, InstallLeader(r, c, x).value, c, x)
  {
  }

  /** Leadership can be handed over to somebody in the same room who leads nothing, except while hostages are selected;
      the new leader leads the room the old one stands in. */
  lemma TransferAcceptedIff(r: RoomView, current: Id, next: Id)
    requires Distinct(r.players)
    ensures TransferLeadership(r, current, next).Ok? <==>
              && HasRound(r) && Leading(r, current) && !Leading(r, next) && TheRound(r).status != Selecting
              && exists c :: current in IdsIn(r.players, c) && next in IdsIn(r.players, c)
    ensures forall c :: TransferLeadership(r, current, next).Ok? && current in IdsIn(r.players, c) ==>
              NowLeads(r, TransferLeadership(r, current, next).value, c, next)
  {
    var c := RoomOf(r.players, current);
    InRoomIff(r.players, current, c);
    InRoomIff(r.players, next, c);
    forall d | current in IdsIn(r.players, d) ensures d == c && (next in IdsIn(r.players, d) ==> RoomOf(r.players, next) == c) {
      InRoomIff(r.players, current, d);
      InRoomIff(r.players, next, d);
    }
    if TransferLeadership(r, current, next).Ok? {
      assert current in IdsIn(r.players, c) && next in IdsIn(r.players, c);
    }
  }

  /** Every refusal of a handover states a fact. */
  lemma TransferRefusals(r: RoomView, current: Id, next: Id)
    requires Distinct(r.players) && TransferLeadership(r, current, next).Err?
    ensures match TransferLeadership(r, current, next).error
            case NoActiveRound => !HasRound(r)
            case NotALeader => HasRound(r) && !Leading(r, current)
            case DuringSelection => HasRound(r) && TheRound(r).status == Selecting
            case LeaderNotFound => forall c :: current !in IdsIn(r.players, c)
            case NewLeaderNotFound => forall c :: next !in IdsIn(r.players, c)
            case DifferentRoom => forall c :: !(current in IdsIn(r.players, c) && next in IdsIn(r.players, c))
            case AlreadyALeader => HasRound(r) && Leading(r, next)
            case _ => false
  {
    forall c ensures current in IdsIn(r.players, c) <==> Has(r.players, current) && RoomOf(r.players, current) == c {
      InRoomIff(r.players, current, c);
    }
    forall c ensures next in IdsIn(r.players, c) <==> Has(r.players, next) && RoomOf(r.players, next) == c {
      InRoomIff(r.players, next, c);
    }
  }

  /** A leader can be replaced as long as somebody else stands in the room. */
  lemma ReplaceAcceptedIff(r: RoomView, c: RoomColor, exclude: Id, next: Id)
    ensures Replace(r, c, exclude, next).Ok? <==> HasRound(r) && exists x :: x in IdsIn(r.players, c) && x != exclude
    ensures Replace(r, c, exclude, next).Ok? ==> NowLeads(r, Replace(r, c, exclude, next).value, c, next)
  {
    if x :| x in IdsIn(r.players, c) && x != exclude {
      assert x in IdsIn(r.players, c) - {exclude};
    }
  }

  /** A leader who drops out is replaced in the room they lead; for anybody else nothing happens. */
  lemma DisconnectEffect(r: RoomView, leader: Id, next: Id)
    requires HasRound(r)
    ensures var s, rd := ReplaceDisconnected(r, leader, next), TheRound(r);
      if leader == rd.redLeader then
        if exists x :: x in IdsIn(r.players, RedRoom) && x != leader then s.Ok? && NowLeads(r, s.value, RedRoom, next)
        else s == Err(NoEligiblePlayer)
      else if leader == rd.blueLeader then
        if exists x :: x in IdsIn(r.players, BlueRoom) && x != leader then s.Ok? && NowLeads(r, s.value, BlueRoom, next)
        else s == Err(NoEligiblePlayer)
      else s == Ok(r)
  {
    ReplaceAcceptedIff(r, RedRoom, leader, next);
    ReplaceAcceptedIff(r, BlueRoom, leader, next);
  }

  /** Leaders can be appointed as long as both rooms have players; the round is then on. */
  lemma AppointAcceptedIff(r: RoomView, red: Id, blue: Id)
    ensures AppointLeaders(r, red, blue).Ok? <==>
              && HasRound(r) && red != blue
              && (exists x :: x in IdsIn(r.players, RedRoom)) && (exists x :: x in IdsIn(r.players, BlueRoom))
    ensures AppointLeaders(r, red, blue).Ok? ==>
              var s := AppointLeaders(r, red, blue).value;
              && OnlyRound(r, s)
              && TheRound(s).redLeader == red && TheRound(s).blueLeader == blue && TheRound(s).status == Active
              && var rd := TheRound(r);
                TheRound(s).(redLeader := rd.redLeader, blueLeader := rd.blueLeader, status := rd.status) == rd
  {
  }

  lemma PreserveAcceptedIff(r: RoomView)
    requires Distinct(r.players)
    ensures PreserveLeaders(r).Ok? <==>
              && HasRound(r)
              && (exists i :: 0 <= i < |r.players| && r.players[i].id == TheRound(r).redLeader)
              && (exists i :: 0 <= i < |r.players| && r.players[i].id == TheRound(r).blueLeader)
    ensures PreserveLeaders(r).Ok? ==>
              var s := PreserveLeaders(r).value;
              OnlyRound(r, s) && TheRound(s).status == Active && TheRound(s).(status := TheRound(r).status) == TheRound(r)
  {
    forall i | 0 <= i < |r.players| ensures Has(r.players, r.players[i].id) {
      IndexOfSeat(r.players, i);
    }
  }

  // ----- hostages -----

  /** An accepted selection is stored for the room its leader stands in. */
  lemma SelectionStored(r: RoomView, leader: Id, ids: seq<Id>)
    requires Distinct(r.players) && ChooseHostages(r, leader, ids).Ok?
    ensures var s := ChooseHostages(r, leader, ids).value;
      && OnlyRound(r, s)
      && var rd, rd' := TheRound(r), TheRound(s);
        if leader in IdsIn(r.players, RedRoom) then
          rd.redHostages == [] && rd'.redHostages == ids && rd'.(redHostages := rd.redHostages) == rd
        else
          rd.blueHostages == [] && rd'.blueHostages == ids && rd'.(blueHostages := rd.blueHostages) == rd
  {
    InRoomIff(r.players, leader, RedRoom);
  }

  /** Every refusal of a selection states a fact. */
  lemma {:induction false} SelectionRefusals(r: RoomView, leader: Id, ids: seq<Id>)
    requires Distinct(r.players) && ChooseHostages(r, leader, ids).Err?
    ensures match ChooseHostages(r, leader, ids).error
            case NoActiveRound => !HasRound(r)
            case NotALeader => HasRound(r) && !Leading(r, leader)
            case WrongCount => HasRound(r) && |ids| != TheRound(r).hostageCount
            case SelfSelected => leader in ids
            case LeaderSelected => HasRound(r) && exists x :: x in ids && Leading(r, x)
            case DuplicateSelected => !NoRepeat(ids)
            case InvalidPlayer => exists x :: x in ids && forall i :: 0 <= i < |r.players| ==> r.players[i].id != x
            case NotInYourRoom => exists x :: x in ids && x !in IdsIn(r.players, RoomOf(r.players, leader))
            case AlreadySelected => HasRound(r) && (TheRound(r).redHostages != [] || TheRound(r).blueHostages != [])
            case _ => false
  {
    if HasRound(r) {
      LeaderFaultTrue(r, leader, ids, 0);
      MemberFaultTrue(r.players, RoomOf(r.players, leader), ids, 0);
    }
  }

  lemma {:induction false} LeaderFaultTrue(r: RoomView, leader: Id, ids: seq<Id>, k: nat)
    requires HasRound(r) && k <= |ids|
    ensures match LeaderFault(TheRound(r), leader, ids, k)
            case None => true
            case Some(SelfSelected) => leader in ids
            case Some(LeaderSelected) => exists x :: x in ids && Leading(r, x)
            case Some(_) => false
    decreases |ids| - k
  {
    if k == |ids| {
    } else {
      assert ids[k] in ids;
      LeaderFaultTrue(r, leader, ids, k + 1);
    }
  }

  lemma {:induction false} MemberFaultTrue(ps: seq<PlayerView>, c: RoomColor, ids: seq<Id>, k: nat)
    requires k <= |ids| && Distinct(ps)
    ensures match MemberFault(ps, c, ids, k)
            case None => true
            case Some(DuplicateSelected) => !NoRepeat(ids)
            case Some(InvalidPlayer) => exists x :: x in ids && forall i :: 0 <= i < |ps| ==> ps[i].id != x
            case Some(NotInYourRoom) => exists x :: x in ids && x !in IdsIn(ps, c)
            case Some(_) => false
    decreases |ids| - k
  {
    if k == |ids| {
    } else {
      assert ids[k] in ids;
      InRoomIff(ps, ids[k], c);
      if ids[k] in ids[..k] {
        var j :| 0 <= j < k && ids[..k][j] == ids[k];
        assert ids[j] == ids[k];
      }
      MemberFaultTrue(ps, c, ids, k + 1);
    }
  }

  /** The exchange takes two selections of one size, and changes nothing about anybody but the room. */
  lemma ExchangeAcceptedIff(r: RoomView)
    ensures ExecuteExchange(r).Ok? <==>
              HasRound(r) && 0 < |TheRound(r).redHostages| == |TheRound(r).blueHostages|
    ensures ExecuteExchange(r).Ok? ==>
              var s, rd := ExecuteExchange(r).value, TheRound(r);
              && OnlyRound(r.(players := s.players), s) && |s.players| == |r.players|
              && TheRound(s).status == Complete && TheRound(s).(status := rd.status) == rd
              && forall i :: 0 <= i < |r.players| ==>
                   var p, q := r.players[i], s.players[i];
                   && q.room == (if p.id in rd.blueHostages then RedRoom else if p.id in rd.redHostages then BlueRoom else p.room)
                   && q.(room := p.room) == p
  {
  }

  /** Over every run from a lobby the round asks for as many hostages as the rules of the game say, and each room has
      selected all of them or none. */
  lemma {:induction false} HostagesByTheRules(g: Protocol.Game, acts: seq<Protocol.Action>)
    requires InLobby(g) && Protocol.IsRun(g, acts, Protocol.Anything)
    ensures var r := Protocol.After(g, acts).room;
      r.status == InProgress ==>
        && HasRound(r)
        && var rd := TheRound(r);
          && Hostages(|r.players|, rd.number, rd.hostageCount)
          && |rd.redHostages| in {0, rd.hostageCount} && |rd.blueHostages| in {0, rd.hostageCount}
          && NoRepeat(rd.redHostages) && NoRepeat(rd.blueHostages)
  {
    PopAlways(g, acts, Protocol.Anything);
  }

  // ----- rounds -----

  /** How long the rounds last, in seconds. */
  predicate Lasts(n: int, seconds: int) {
    (n == 1 && seconds == 180) || (n == 2 && seconds == 120) || (n == 3 && seconds == 60)
  }

  /** How many hostages change rooms. */
  predicate Hostages(players: int, n: int, count: int) {
    if players <= 10 then count == 1
    else if players <= 21 then (n == 1 && count == 2) || (n != 1 && count == 1)
    else (n == 1 && count == 3) || (n == 2 && count == 2) || (n == 3 && count == 1)
  }

  /** A round opens with its full time and nothing selected; the leaders stay. */
  lemma OpenAcceptedIff(r: RoomView, n: int)
    ensures OpenRound(r, n).Ok? <==> r.session.Some? && n in {1, 2, 3}
    ensures OpenRound(r, n).Ok? ==>
              var s := OpenRound(r, n).value;
              && s.status == r.status && s.players == r.players && HasRound(s)
              && s.session.value.id == r.session.value.id && s.session.value.currentRound == n
              && var rd := TheRound(s);
                && rd.number == n && Lasts(n, rd.duration) && rd.time == rd.duration && rd.status == Setup
                && Hostages(|r.players|, n, rd.hostageCount) && rd.redHostages == [] && rd.blueHostages == []
                && !rd.redReady && !rd.blueReady
                && rd.redLeader == (if HasRound(r) then TheRound(r).redLeader else "")
                && rd.blueLeader == (if HasRound(r) then TheRound(r).blueLeader else "")
    ensures OpenRound(r, n).Err? ==>
              OpenRound(r, n).error == if r.session.None? then NoActiveSession else InvalidRoundNumber
  {
  }

  /** A second comes off the clock until it is at zero, and then hostages are selected. */
  lemma TickEffect(r: RoomView)
    ensures TickTimer(r) == Err(NoActiveRound) <==> !HasRound(r)
    ensures HasRound(r) ==>
              && TickTimer(r).Ok?
              && var s, rd := TickTimer(r).value, TheRound(r);
                && OnlyRound(r, s)
                && TheRound(s).time == (if rd.time > 0 then rd.time - 1 else rd.time)
                && TheRound(s).status == (if rd.time == 1 then Selecting else rd.status)
                && TheRound(s).(time := rd.time, status := rd.status) == rd
  {
  }

  /** Each leader is ready once. */
  lemma ReadyAcceptedIff(r: RoomView, leader: Id)
    requires HasRound(r)
    ensures var rd := TheRound(r);
      MarkReady(r, leader).Ok? <==>
        if leader == rd.redLeader then !rd.redReady else leader == rd.blueLeader && !rd.blueReady
    ensures MarkReady(r, leader).Ok? ==>
              var s, rd := MarkReady(r, leader).value, TheRound(r);
              && OnlyRound(r, s)
              && TheRound(s).redReady == (leader == rd.redLeader || rd.redReady)
              && TheRound(s).blueReady == (leader != rd.redLeader || rd.blueReady)
              && TheRound(s).(redReady := rd.redReady, blueReady := rd.blueReady) == rd
    ensures MarkReady(r, leader).Err? ==>
              MarkReady(r, leader).error == if Leading(r, leader) then AlreadyReady else NotALeader
  {
  }

  lemma RevealEffect(r: RoomView)
    ensures r.session.None? ==> Reveal(r) == Err(NoActiveSession)
    ensures r.session.Some? ==>
              && Reveal(r).Ok?
              && var s := Reveal(r).value; s.status == Revealing && s.players == r.players && s.session == r.session
  {
  }

  // ----- the game -----

  /** A game starts with at least six players, in its first round, under the two leaders drawn. */
  lemma DealAcceptedIff(r: RoomView, id: Id, dealt: seq<PlayerView>, red: Id, blue: Id)
    requires Distinct(r.players) && IsDeal(r.players, dealt)
    requires red in IdsIn(dealt, RedRoom) && blue in IdsIn(dealt, BlueRoom)
    ensures DealGame(r, id, dealt, red, blue).Ok? <==> r.status != InProgress && |r.players| >= 6
    ensures DealGame(r, id, dealt, red, blue).Err? ==>
              DealGame(r, id, dealt, red, blue).error == if r.status == InProgress then GameAlreadyStarted else NotEnoughPlayers
    ensures DealGame(r, id, dealt, red, blue).Ok? ==>
              var s := DealGame(r, id, dealt, red, blue).value;
              && s.status == InProgress && s.players == dealt && HasRound(s)
              && s.session.value.id == id && s.session.value.currentRound == 1
              && var rd := TheRound(s);
                && rd.number == 1 && rd.time == rd.duration == 180 && rd.status == Active
                && rd.redLeader == red && rd.blueLeader == blue
                && Hostages(|r.players|, 1, rd.hostageCount) && rd.redHostages == [] && rd.blueHostages == []
                && !rd.redReady && !rd.blueReady
  {
    assert forall i :: 0 <= i < |dealt| ==> SamePerson(r.players[i], dealt[i]);
    assert Distinct(dealt);
    InRoomIff(dealt, red, RedRoom);
    InRoomIff(dealt, blue, BlueRoom);
  }

  /** The player has no part in a game. */
  predicate Idle(p: PlayerView) {
    p.role == None && p.team == NoTeam && p.room == NoRoom
  }

  /** Two views of one person. */
  predicate SamePersonal(p: PlayerView, q: PlayerView) {
    q.id == p.id && q.nickname == p.nickname && q.isAnonymous == p.isAnonymous && q.isOwner == p.isOwner
  }

  /** A reset ends the session and everybody's part in it, and changes nothing else about anybody. */
  lemma ResetAcceptedIff(r: RoomView)
    ensures ClearGame(r).Ok? <==> r.status == InProgress
    ensures ClearGame(r).Err? ==> ClearGame(r).error == GameNotStarted
    ensures ClearGame(r).Ok? ==>
              var s := ClearGame(r).value;
              && s.status == Waiting && s.session == None && |s.players| == |r.players|
              && forall i :: 0 <= i < |r.players| ==> SamePersonal(r.players[i], s.players[i]) && Idle(s.players[i])
  {
  }

  // ----- votes -----

  /** When a removal request is accepted, and the session it asks for. */
  lemma {:induction false} RequestAcceptedIff(r: RoomView, l: Ledger, c: RoomColor, initiator: Id, target: Id)
    requires Distinct(r.players)
    ensures RemovalSession(r, l, c, initiator, target).Ok? <==>
              && HasRound(r) && TheRound(r).status != Selecting
              && initiator in IdsIn(r.players, c) && !Leading(r, initiator)
              && target in IdsIn(r.players, c) && Leading(r, target)
              && |IdsIn(r.players, c)| >= 3
              && !(c in l.index && l.index[c] in l.heap && l.index[c] !in l.dropped && l.heap[l.index[c]].status == Open)
    ensures RemovalSession(r, l, c, initiator, target).Ok? ==>
              var s := RemovalSession(r, l, c, initiator, target).value;
              && s.kind == Removal && s.color == c && s.target == target && s.initiator == initiator
              && s.candidates == [] && s.total == |IdsIn(r.players, c)| && s.votes == map[] && s.status == Open
  {
    InRoomIff(r.players, initiator, c);
    InRoomIff(r.players, target, c);
    StandingCount(r.players, c);
  }

  /** Every refusal of a removal request states a fact. */
  lemma {:induction false} RequestRefusals(r: RoomView, l: Ledger, c: RoomColor, initiator: Id, target: Id)
    requires Distinct(r.players) && RemovalSession(r, l, c, initiator, target).Err?
    ensures match RemovalSession(r, l, c, initiator, target).error
            case NoActiveRound => !HasRound(r)
            case DuringSelection => HasRound(r) && TheRound(r).status == Selecting
            case InitiatorNotFound => forall i :: 0 <= i < |r.players| ==> r.players[i].id != initiator
            case InitiatorElsewhere => initiator !in IdsIn(r.players, c)
            case InitiatorIsLeader => HasRound(r) && Leading(r, initiator)
            case TargetNotLeader => HasRound(r) && !Leading(r, target)
            case TargetElsewhere => target !in IdsIn(r.players, c)
            case TooFewVoters => |IdsIn(r.players, c)| < 3
            case VoteInProgress => c in l.index && l.Live(l.index[c])
            case _ => false
  {
    StandingCount(r.players, c);
    if HasRound(r) {
      PartyRefusals(r, c, initiator, target);
    }
  }

  lemma {:induction false} PartyRefusals(r: RoomView, c: RoomColor, initiator: Id, target: Id)
    requires Distinct(r.players) && HasRound(r)
    ensures match PartyFault(r.players, TheRound(r), c, initiator, target)
            case None => true
            case Some(InitiatorNotFound) => forall i :: 0 <= i < |r.players| ==> r.players[i].id != initiator
            case Some(InitiatorElsewhere) => initiator !in IdsIn(r.players, c)
            case Some(InitiatorIsLeader) => Leading(r, initiator)
            case Some(TargetNotLeader) => !Leading(r, target)
            case Some(TargetElsewhere) => target !in IdsIn(r.players, c)
            case Some(_) => false
  {
    InRoomIff(r.players, initiator, c);
    InRoomIff(r.players, target, c);
  }

  /** The candidates are all who stand in the room but the one excluded, and they are the electorate. */
  lemma {:induction false} ElectionAcceptedIff(r: RoomView, c: RoomColor, exclude: Id)
    requires Distinct(r.players)
    ensures ElectionSession(r, c, exclude).Ok? <==> HasRound(r) && IdsIn(r.players, c) - {exclude} != {}
    ensures ElectionSession(r, c, exclude).Err? ==>
              ElectionSession(r, c, exclude).error == if HasRound(r) then NoCandidates else NoActiveRound
    ensures ElectionSession(r, c, exclude).Ok? ==>
              var s := ElectionSession(r, c, exclude).value;
              && s.kind == Election && s.color == c && s.votes == map[] && s.status == Open
              && NoRepeat(s.candidates) && (set x | x in s.candidates) == IdsIn(r.players, c) - {exclude}
              && s.total == |IdsIn(r.players, c) - {exclude}|
  {
    if HasRound(r) {
      StandingCount(r.players, c);
      WithoutDistinct(Standing(r.players, c), exclude);
      var candidates := Without(Standing(r.players, c), exclude);
      SetSize(candidates);
      assert (set x | x in candidates) == IdsIn(r.players, c) - {exclude};
      assert candidates == [] <==> (set x | x in candidates) == {};
    }
  }

  /** When a ballot is accepted, and that it is all that changes. */
  lemma CastAcceptedIff(l: Ledger, v: VoteId, voter: Id, choice: string)
    ensures RecordVote(l, v, voter, choice).Ok? <==>
              && v in l.heap && v !in l.dropped
              && var s := l.heap[v];
                && s.status == Open && voter !in s.votes
                && if s.kind == Removal then choice in {"YES", "NO"} else choice in s.candidates
    ensures RecordVote(l, v, voter, choice).Ok? ==>
              var k, s := RecordVote(l, v, voter, choice).value, l.heap[v];
              && k.dropped == l.dropped && k.index == l.index && k.heap.Keys == l.heap.Keys
              && k.heap[v].votes == s.votes[voter := choice] && k.heap[v].(votes := s.votes) == s
              && forall u :: u in l.heap && u != v ==> k.heap[u] == l.heap[u]
    ensures RecordVote(l, v, voter, choice).Err? ==>
              RecordVote(l, v, voter, choice).error
              == if v !in l.heap || v in l.dropped then VoteNotFound else if l.heap[v].status != Open then VoteNotActive
                 else if voter in l.heap[v].votes then AlreadyVoted else InvalidChoice
  {
  }

  /** A stored session is ACTIVE and its room's table entry; no other session or entry changes. */
  lemma FileEffect(l: Ledger, v: VoteId, s: VoteView)
    requires v !in l.heap && s.status == Open
    ensures var k := File(l, v, s);
      && k.Live(v) && k.heap[v] == s && k.heap.Keys == l.heap.Keys + {v}
      && k.index.Keys == l.index.Keys + {s.color} && k.index[s.color] == v
      && (forall u :: u in l.heap ==> k.heap[u] == l.heap[u] && (k.Live(u) <==> l.Live(u)))
      && (forall c :: c in l.index && c != s.color ==> k.index[c] == l.index[c])
  {
  }

  /** A session is marked only while it is stored and ACTIVE; a timeout also frees its room's entry. */
  lemma MarkEffect(l: Ledger, v: VoteId)
    ensures !l.Live(v) ==> MarkCompleted(l, v) == l && MarkTimedOut(l, v) == l
    ensures l.Live(v) ==>
              var k, t, s := MarkCompleted(l, v), MarkTimedOut(l, v), l.heap[v];
              && k.heap == l.heap[v := s.(status := Completed)] && t.heap == l.heap[v := s.(status := TimedOut)]
              && k.dropped == t.dropped == l.dropped && k.index == l.index
              && s.color !in t.index && t.index == map c | c in l.index && c != s.color :: l.index[c]
  {
  }

  lemma ReleaseAndExpire(l: Ledger, v: VoteId, c: RoomColor)
    ensures var k := Unindex(l, c);
      k.heap == l.heap && k.dropped == l.dropped && k.index == map d | d in l.index && d != c :: l.index[d]
    ensures var k := Expire(l, v);
      k.heap == l.heap && k.index == l.index && !k.Live(v) && forall u :: u != v ==> (k.Live(u) <==> l.Live(u))
  {
  }

  /** The query and the getter tell of the same vote: the stored ACTIVE one that the table names. */
  lemma ActiveVoteIff(l: Ledger, c: RoomColor)
    ensures HasActiveVote(l, c) <==>
              c in l.index && l.index[c] in l.heap && l.index[c] !in l.dropped && l.heap[l.index[c]].status == Open
    ensures ActiveVote(l, c) == if HasActiveVote(l, c) then Some(l.heap[l.index[c]]) else None
  {
  }

  /** A removal passes on completion with YES from more than half of the electorate, and on its timeout with more YES
      than other ballots. */
  lemma PassesIff(s: VoteView)
    ensures PassesOnCompletion(s) <==> 2 * |set k | k in s.votes && s.votes[k] == "YES"| > s.total
    ensures PassesOnTimeout(s) <==> 2 * |set k | k in s.votes && s.votes[k] == "YES"| > |s.votes|
  {
    assert (set k | k in s.votes && s.votes[k] == "YES") == set k | k in s.votes && s.votes[k] == YES;
  }
}
