/** The entities of the game server: enumerations, the objects the services update in place, and the
    plain values (`...View`) those objects stand for.  The step functions and the protocol are written
    over the views; the services update the objects. */
module Models {

  /** Player, vote and session identifiers.  The empty string is "nobody", as in an unset leader field. */
  type Id = string

  datatype Option<+T> = None | Some(value: T)

  datatype Result<+T> = Ok(value: T) | Err(error: Error)

  datatype Error =
    // store and lobby
    | RoomNotFound | RoomCodeExists | RoomFull | GameAlreadyStarted | PlayerNotFound | InvalidNickname
    | InvalidMaxPlayers | NoFreeCode | NoOtherPlayer | InvalidStatusFilter
    // game
    | NotEnoughPlayers | GameNotStarted | ConfigNotFound | TooManyRoles
    // rounds and leaders
    | NoActiveSession | NoActiveRound | InvalidRoundNumber | EmptyRoom | LeadersNotFound
    | NotALeader | DuringSelection | LeaderNotFound | NewLeaderNotFound | DifferentRoom | AlreadyALeader
    | NoEligiblePlayer | AlreadyReady | SameLeader
    // exchange
    | WrongCount | SelfSelected | LeaderSelected | DuplicateSelected | NotInYourRoom | InvalidPlayer
    | AlreadySelected | BothMustSelect | UnequalCounts
    // votes
    | InitiatorNotFound | InitiatorElsewhere | InitiatorIsLeader | TargetNotLeader | TargetElsewhere
    | TooFewVoters | VoteInProgress | VoteNotFound | VoteNotActive | AlreadyVoted | InvalidChoice
    | NoCandidates

  datatype RoomColor = NoRoom | RedRoom | BlueRoom

  datatype TeamColor = NoTeam | TeamRed | TeamBlue | TeamGrey

  datatype RoomStatus = Waiting | InProgress | Revealing

  datatype RoundStatus = Setup | Active | Selecting | Exchanging | Complete

  datatype Role = Role(id: string, team: TeamColor, isSpy: bool, isLeader: bool)

  // ----- values -----

  datatype PlayerView = PlayerView(
    id: Id, nickname: string, isAnonymous: bool, isOwner: bool,
    role: Option<Role>, team: TeamColor, room: RoomColor)

  datatype RoundView = RoundView(
    number: int, duration: int, time: int, status: RoundStatus,
    redLeader: Id, blueLeader: Id, hostageCount: int,
    redHostages: seq<Id>, blueHostages: seq<Id>,
    redReady: bool, blueReady: bool)

  datatype SessionView = SessionView(id: Id, currentRound: int, round: Option<RoundView>)

  datatype RoomView = RoomView(status: RoomStatus, players: seq<PlayerView>, session: Option<SessionView>)

  // ----- objects -----

  class Player {
    const id: Id
    var nickname: string
    var isAnonymous: bool
    var isOwner: bool
    var role: Option<Role>
    var team: TeamColor
    var currentRoom: RoomColor

    constructor (id: Id, nickname: string, isOwner: bool)
      ensures this.id == id
      ensures View() == PlayerView(id, nickname, true, isOwner, None, NoTeam, NoRoom)
    {
      this.id, this.nickname, this.isAnonymous, this.isOwner := id, nickname, true, isOwner;
      role, team, currentRoom := None, NoTeam, NoRoom;
    }

    ghost function View(): (v: PlayerView)
      reads this
    {
      PlayerView(id, nickname, isAnonymous, isOwner, role, team, currentRoom)
    }
  }

  class RoundState {
    var roundNumber: int
    var duration: int
    var timeRemaining: int
    var status: RoundStatus
    var redLeaderID: Id
    var blueLeaderID: Id
    var hostageCount: int
    var redHostages: seq<Id>
    var blueHostages: seq<Id>
    var redLeaderReady: bool
    var blueLeaderReady: bool

    constructor (number: int, duration: int, hostageCount: int, redLeader: Id, blueLeader: Id)
      ensures View() == RoundView(number, duration, duration, Setup, redLeader, blueLeader,
                                  hostageCount, [], [], false, false)
    {
      roundNumber, this.duration, timeRemaining, status := number, duration, duration, Setup;
      redLeaderID, blueLeaderID, this.hostageCount := redLeader, blueLeader, hostageCount;
      redHostages, blueHostages, redLeaderReady, blueLeaderReady := [], [], false, false;
    }

    ghost function View(): (v: RoundView)
      reads this
    {
      RoundView(roundNumber, duration, timeRemaining, status, redLeaderID, blueLeaderID, hostageCount,
                redHostages, blueHostages, redLeaderReady, blueLeaderReady)
    }
  }

  class GameSession {
    const id: Id
    var currentRound: int
    var roundState: RoundState?

    constructor (id: Id)
      ensures this.id == id && currentRound == 0 && roundState == null
    {
      this.id, currentRound, roundState := id, 0, null;
    }

    ghost function View(): (v: SessionView)
      reads this, roundState
    {
      SessionView(id, currentRound, if roundState == null then None else Some(roundState.View()))
    }
  }

  class Room {
    const code: string
    const maxPlayers: int
    const createdAt: int
    var status: RoomStatus
    var players: seq<Player>
    var gameSession: GameSession?
    var isPublic: bool
    var roleConfigID: string
    var selectedRoles: map<string, int>

    constructor (code: string, maxPlayers: int, isPublic: bool, roleConfigID: string,
                 selectedRoles: map<string, int>, now: int)
      ensures this.code == code && this.maxPlayers == maxPlayers && createdAt == now
      ensures this.isPublic == isPublic && this.roleConfigID == roleConfigID && this.selectedRoles == selectedRoles
      ensures Valid() && View() == RoomView(Waiting, [], None) && players == [] && gameSession == null
    {
      this.code, this.maxPlayers, this.isPublic, createdAt := code, maxPlayers, isPublic, now;
      this.roleConfigID, this.selectedRoles := roleConfigID, selectedRoles;
      status, players, gameSession := Waiting, [], null;
    }

    /** Player ids are non-empty and pairwise distinct: the server draws them as UUIDs. */
    ghost predicate Valid()
      reads this
    {
      DistinctPlayers(players)
    }

    ghost function View(): (v: RoomView)
      reads this, players, gameSession, if gameSession == null then null else gameSession.roundState
    {
      RoomView(status, Views(players), if gameSession == null then None else Some(gameSession.View()))
    }
  }

  ghost predicate DistinctPlayers(ps: seq<Player>) {
    && (forall i :: 0 <= i < |ps| ==> ps[i].id != "")
    && (forall i, j :: 0 <= i < j < |ps| ==> ps[i].id != ps[j].id)
  }

  ghost function Views(ps: seq<Player>): (vs: seq<PlayerView>)
    reads ps
    ensures |vs| == |ps|
    ensures forall i :: 0 <= i < |ps| ==> vs[i] == ps[i].View()
  {
    seq(|ps|, i requires 0 <= i < |ps| reads ps => ps[i].View())
  }

  /** The round state a step may update, if the room has one. */
  ghost function RoundFrame(room: Room?): (s: set<object>)
    reads room, if room == null then null else room.gameSession
  {
    if room == null || room.gameSession == null || room.gameSession.roundState == null then {}
    else {room.gameSession.roundState}
  }

  ghost function PlayerFrame(room: Room?): (s: set<object>)
    reads room
  {
    if room == null then {} else set p | p in room.players
  }

  /** A method took the step `spec` from `before` to `after`, or refused it for the same reason. */
  ghost predicate Refines(before: RoomView, after: RoomView, error: Option<Error>, spec: Result<RoomView>) {
    match spec
    case Ok(r) => error == None && after == r
    case Err(e) => error == Some(e) && after == before
  }
}
