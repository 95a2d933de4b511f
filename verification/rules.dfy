/** The steps that the leader, exchange and round services take on one room, as functions on its view.
    A step that the source refuses returns the error of the check that refuses it. */
module Rules {
  import opened Models

  // ----- players -----

  /** Position of the first player with this id; `|ps|` when there is none. */
  function IndexOf(ps: seq<PlayerView>, id: Id): (k: nat)
    ensures k <= |ps|
    ensures k < |ps| ==> ps[k].id == id
    ensures forall j :: 0 <= j < k ==> ps[j].id != id
  {
    if ps == [] then 0
    else if ps[0].id == id then 0
    else IndexOf(ps[1..], id) + 1
  }

  predicate Has(ps: seq<PlayerView>, id: Id) {
    IndexOf(ps, id) < |ps|
  }

  function RoomOf(ps: seq<PlayerView>, id: Id): RoomColor {
    var k := IndexOf(ps, id);
    if k < |ps| then ps[k].room else NoRoom
  }

  predicate Distinct(ps: seq<PlayerView>) {
    && (forall i :: 0 <= i < |ps| ==> ps[i].id != "")
    && (forall i, j :: 0 <= i < j < |ps| ==> ps[i].id != ps[j].id)
  }

  /** The players standing in a room. */
  function IdsIn(ps: seq<PlayerView>, c: RoomColor): set<Id> {
    set i | 0 <= i < |ps| && ps[i].room == c :: ps[i].id
  }

  /** The players standing in a room, in list order. */
  function Standing(ps: seq<PlayerView>, c: RoomColor): seq<Id> {
    if ps == [] then []
    else (if ps[0].room == c then [ps[0].id] else []) + Standing(ps[1..], c)
  }

  // ----- round arithmetic -----

  function RoundDuration(n: int): int {
    match n
    case 1 => 180
    case 2 => 120
    case 3 => 60
    case _ => 180
  }

  function HostageQuota(players: int, n: int): int {
    if players <= 10 then 1
    else if players <= 21 then (if n == 1 then 2 else 1)
    else match n
      case 1 => 3
      case 2 => 2
      case _ => 1
  }

  // ----- leaders -----

  predicate HasRound(r: RoomView) {
    r.session.Some? && r.session.value.round.Some?
  }

  function TheRound(r: RoomView): RoundView
    requires HasRound(r)
  {
    r.session.value.round.value
  }

  function WithRound(r: RoomView, rd: RoundView): RoomView
    requires HasRound(r)
  {
    r.(session := Some(r.session.value.(round := Some(rd))))
  }

  predicate IsLeader(rd: RoundView, id: Id) {
    rd.redLeader == id || rd.blueLeader == id
  }

  function LeaderOf(rd: RoundView, c: RoomColor): Id {
    if c == RedRoom then rd.redLeader else rd.blueLeader
  }

  function Crown(rd: RoundView, c: RoomColor, id: Id): RoundView {
    if c == RedRoom then rd.(redLeader := id) else rd.(blueLeader := id)
  }

  /** The first objection to a transfer among the players. */
  function TransferFault(ps: seq<PlayerView>, rd: RoundView, current: Id, next: Id): Option<Error> {
    if !Has(ps, current) then Some(LeaderNotFound)
    else if !Has(ps, next) then Some(NewLeaderNotFound)
    else if RoomOf(ps, next) != RoomOf(ps, current) then Some(DifferentRoom)
    else if IsLeader(rd, next) then Some(AlreadyALeader)
    else None
  }

  function TransferLeadership(r: RoomView, current: Id, next: Id): Result<RoomView> {
    if !HasRound(r) then Err(NoActiveRound) else
    var rd := TheRound(r);
    if !IsLeader(rd, current) then Err(NotALeader)
    else if rd.status == Selecting then Err(DuringSelection) else
    var fault := TransferFault(r.players, rd, current, next);
    if fault.Some? then Err(fault.value)
    else Ok(WithRound(r, Crown(rd, RoomOf(r.players, current), next)))
  }

  function InstallLeader(r: RoomView, c: RoomColor, id: Id): Result<RoomView> {
    if !HasRound(r) then Err(NoActiveRound)
    else if !Has(r.players, id) then Err(PlayerNotFound)
    else if RoomOf(r.players, id) != c then Err(DifferentRoom)
    else Ok(WithRound(r, Crown(TheRound(r), c, id)))
  }

  /** Who may replace a leader in a room: everybody there but the excluded player. */
  function Eligible(ps: seq<PlayerView>, c: RoomColor, exclude: Id): set<Id> {
    IdsIn(ps, c) - {exclude}
  }

  /** `next` is the random choice. */
  function Replace(r: RoomView, c: RoomColor, exclude: Id, next: Id): Result<RoomView>
  {
    if !HasRound(r) then Err(NoActiveRound)
    else if Eligible(r.players, c, exclude) == {} then Err(NoEligiblePlayer)
    else Ok(WithRound(r, Crown(TheRound(r), c, next)))
  }

  /** A leader drops out: a random player of that leader's room takes over. Nothing happens for others. */
  function ReplaceDisconnected(r: RoomView, leader: Id, next: Id): Result<RoomView>
  {
    if !HasRound(r) then Err(NoActiveRound)
    else if TheRound(r).redLeader == leader then Replace(r, RedRoom, leader, next)
    else if TheRound(r).blueLeader == leader then Replace(r, BlueRoom, leader, next)
    else Ok(r)
  }

  /** The room whose leader `ReplaceDisconnected` replaces. */
  function DisconnectedRoom(r: RoomView, leader: Id): RoomColor
    requires HasRound(r)
  {
    if TheRound(r).redLeader == leader then RedRoom
    else if TheRound(r).blueLeader == leader then BlueRoom
    else NoRoom
  }

  /** `red` and `blue` are the random choices. */
  function AppointLeaders(r: RoomView, red: Id, blue: Id): Result<RoomView> {
    if !HasRound(r) then Err(NoActiveRound)
    else if IdsIn(r.players, RedRoom) == {} || IdsIn(r.players, BlueRoom) == {} then Err(EmptyRoom)
    else if red == blue then Err(SameLeader)
    else Ok(WithRound(r, TheRound(r).(redLeader := red, blueLeader := blue, status := Active)))
  }

  function PreserveLeaders(r: RoomView): Result<RoomView> {
    if !HasRound(r) then Err(NoActiveRound)
    else if !Has(r.players, TheRound(r).redLeader) || !Has(r.players, TheRound(r).blueLeader) then Err(LeadersNotFound)
    else Ok(WithRound(r, TheRound(r).(status := Active)))
  }

  // ----- hostages -----

  /** First offence of the leader rule in the selection, from position `k` on. */
  function LeaderFault(rd: RoundView, leader: Id, ids: seq<Id>, k: nat): Option<Error>
    requires k <= |ids|
    decreases |ids| - k
  {
    if k == |ids| then None
    else if ids[k] == leader then Some(SelfSelected)
    else if IsLeader(rd, ids[k]) then Some(LeaderSelected)
    else LeaderFault(rd, leader, ids, k + 1)
  }

  /** First offence of the membership rule in the selection, from position `k` on. */
  function MemberFault(ps: seq<PlayerView>, c: RoomColor, ids: seq<Id>, k: nat): Option<Error>
    requires k <= |ids|
    decreases |ids| - k
  {
    if k == |ids| then None
    else if ids[k] in ids[..k] then Some(DuplicateSelected)
    else if !Has(ps, ids[k]) then Some(InvalidPlayer)
    else if RoomOf(ps, ids[k]) != c then Some(NotInYourRoom)
    else MemberFault(ps, c, ids, k + 1)
  }

  function ChooseHostages(r: RoomView, leader: Id, ids: seq<Id>): Result<RoomView> {
    if !HasRound(r) then Err(NoActiveRound) else
    var rd := TheRound(r);
    var c := RoomOf(r.players, leader);
    if !IsLeader(rd, leader) then Err(NotALeader)
    else if |ids| != rd.hostageCount then Err(WrongCount)
    else if LeaderFault(rd, leader, ids, 0).Some? then Err(LeaderFault(rd, leader, ids, 0).value)
    else if MemberFault(r.players, c, ids, 0).Some? then Err(MemberFault(r.players, c, ids, 0).value)
    else if c == RedRoom then
      if |rd.redHostages| > 0 then Err(AlreadySelected) else Ok(WithRound(r, rd.(redHostages := ids)))
    else
      if |rd.blueHostages| > 0 then Err(AlreadySelected) else Ok(WithRound(r, rd.(blueHostages := ids)))
  }

  predicate BothSelected(rd: RoundView) {
    |rd.redHostages| > 0 && |rd.blueHostages| > 0
  }

  function MoveTo(p: PlayerView, red: seq<Id>, blue: seq<Id>): PlayerView {
    if p.id in blue then p.(room := RedRoom)
    else if p.id in red then p.(room := BlueRoom)
    else p
  }

  function MoveAll(ps: seq<PlayerView>, red: seq<Id>, blue: seq<Id>): (qs: seq<PlayerView>)
    ensures |qs| == |ps|
    ensures forall i :: 0 <= i < |ps| ==> qs[i] == MoveTo(ps[i], red, blue)
  {
    seq(|ps|, i requires 0 <= i < |ps| => MoveTo(ps[i], red, blue))
  }

  function ExecuteExchange(r: RoomView): Result<RoomView> {
    if !HasRound(r) then Err(NoActiveRound) else
    var rd := TheRound(r);
    if !BothSelected(rd) then Err(BothMustSelect)
    else if |rd.redHostages| != |rd.blueHostages| then Err(UnequalCounts)
    else Ok(WithRound(r, rd.(status := Complete)).(players := MoveAll(r.players, rd.redHostages, rd.blueHostages)))
  }

  // ----- rounds -----

  /** The state a round starts in; leaders carry over from the round before. */
  function FreshRound(r: RoomView, n: int): RoundView
    requires r.session.Some?
  {
    var prior := r.session.value.round;
    RoundView(n, RoundDuration(n), RoundDuration(n), Setup,
              if prior.Some? then prior.value.redLeader else "", if prior.Some? then prior.value.blueLeader else "",
              HostageQuota(|r.players|, n), [], [], false, false)
  }

  function OpenRound(r: RoomView, n: int): Result<RoomView> {
    if r.session.None? then Err(NoActiveSession)
    else if n < 1 || n > 3 then Err(InvalidRoundNumber)
    else Ok(r.(session := Some(SessionView(r.session.value.id, n, Some(FreshRound(r, n))))))
  }

  function TickTimer(r: RoomView): Result<RoomView> {
    if !HasRound(r) then Err(NoActiveRound) else
    var rd := TheRound(r);
    if rd.time <= 0 then Ok(r)
    else if rd.time == 1 then Ok(WithRound(r, rd.(time := 0, status := Selecting)))
    else Ok(WithRound(r, rd.(time := rd.time - 1)))
  }

  function MarkReady(r: RoomView, leader: Id): Result<RoomView> {
    if !HasRound(r) then Err(NoActiveRound) else
    var rd := TheRound(r);
    if rd.redLeader == leader then
      if rd.redReady then Err(AlreadyReady) else Ok(WithRound(r, rd.(redReady := true)))
    else if rd.blueLeader == leader then
      if rd.blueReady then Err(AlreadyReady) else Ok(WithRound(r, rd.(blueReady := true)))
    else Err(NotALeader)
  }

  predicate BothReady(rd: RoundView) {
    rd.redReady && rd.blueReady
  }

  function Reveal(r: RoomView): Result<RoomView> {
    if r.session.None? then Err(NoActiveSession) else Ok(r.(status := Revealing))
  }

  // ----- game -----

  /** `qs` is a deal of the players `ps`: everybody keeps their identity, holds a role of their own team,
      and stands in one of the two rooms, the red one taking the odd player. */
  predicate IsDeal(ps: seq<PlayerView>, qs: seq<PlayerView>) {
    && |qs| == |ps|
    && (forall i :: 0 <= i < |ps| ==> SamePerson(ps[i], qs[i]))
    && (forall i :: 0 <= i < |qs| ==> qs[i].role.Some? && qs[i].role.value.team == qs[i].team && qs[i].team != NoTeam)
    && EvenSplit(qs)
  }

  predicate SamePerson(p: PlayerView, q: PlayerView) {
    q == p.(role := q.role, team := q.team, room := q.room)
  }

  /** Everybody is in a room, half of them in each, the red room taking the odd player. */
  predicate EvenSplit(ps: seq<PlayerView>) {
    && (forall i :: 0 <= i < |ps| ==> ps[i].room == RedRoom || ps[i].room == BlueRoom)
    && |IdsIn(ps, RedRoom)| == |ps| - |ps| / 2
    && |IdsIn(ps, BlueRoom)| == |ps| / 2
  }

  /** `dealt`, `red` and `blue` are the random choices. */
  function DealGame(r: RoomView, sessionID: Id, dealt: seq<PlayerView>, red: Id, blue: Id): Result<RoomView> {
    if r.status == InProgress then Err(GameAlreadyStarted)
    else if |r.players| < 6 then Err(NotEnoughPlayers)
    else
      var r1 := RoomView(InProgress, dealt, Some(SessionView(sessionID, 0, None)));
      var r2 := OpenRound(r1, 1).value;
      match AppointLeaders(r2, red, blue)
      case Ok(r3) => Ok(r3)
      case Err(_) => Ok(r2)
  }

  function ClearPlayer(p: PlayerView): PlayerView {
    p.(role := None, team := NoTeam, room := NoRoom)
  }

  function ClearGame(r: RoomView): Result<RoomView> {
    if r.status != InProgress then Err(GameNotStarted)
    else Ok(RoomView(Waiting, seq(|r.players|, i requires 0 <= i < |r.players| => ClearPlayer(r.players[i])), None))
  }
}
