/** The player service: joining, renaming and leaving. */
module PlayerService {
  import opened Models
  import opened Nicknames
  import Rules
  import Lobby
  import RoomStore
  import LeaderService

  method JoinRoom(room: Room?, playerID: Id) returns (error: Option<Error>, player: Player?)
    requires room != null ==> room.Valid()
    requires room != null ==> playerID != "" && !Rules.Has(Views(room.players), playerID)
    modifies if room == null then {} else {room}
    ensures room == null ==> error == Some(RoomNotFound)
    ensures room != null ==>
              && room.Valid()
              && Refines(old(room.View()), room.View(), error, Lobby.Join(old(room.View()), room.maxPlayers, playerID))
              && (error == None ==> player != null && room.players == old(room.players) + [player])
  {
    if room == null { return Some(RoomNotFound), null; }
    if |room.players| >= room.maxPlayers { return Some(RoomFull), null; }
    if room.status == InProgress { return Some(GameAlreadyStarted), null; }
    player := new Player(playerID, Lobby.AnonymousName(|room.players| + 1), |room.players| == 0);
    room.players := room.players + [player];
    assert room.View().players == old(room.View().players) + [player.View()];
    return None, player;
  }

  method HeldByOther(ps: seq<Player>, playerID: Id, name: string) returns (taken: bool)
    ensures taken == Taken(Views(ps), playerID, name)
  {
    for i := 0 to |ps|
      invariant forall j :: 0 <= j < i ==> ps[j].id == playerID || ps[j].nickname != name
    {
      if ps[i].id != playerID && ps[i].nickname == name {
        assert Views(ps)[i].nickname == name;
        return true;
      }
    }
    return false;
  }

  /** The suffix search. */
  method HandleDuplicateNickname(ps: seq<Player>, playerID: Id, name: string) returns (r: string)
    ensures r == Deduplicated(Views(ps), playerID, name)
  {
    var taken := HeldByOther(ps, playerID, name);
    if !taken { return name; }
    var suffix := 2;
    while true
      invariant 2 <= suffix <= LAST_SUFFIX
      invariant FreeName(Views(ps), playerID, name, 2) == FreeName(Views(ps), playerID, name, suffix)
      decreases LAST_SUFFIX - suffix
    {
      r := Suffixed(name, suffix);
      taken := HeldByOther(ps, playerID, r);
      if !taken { return r; }
      suffix := suffix + 1;
      if suffix > LAST_SUFFIX { return Suffixed(name, suffix); }
    }
  }

  method UpdateNickname(room: Room?, playerID: Id, name: string) returns (error: Option<Error>)
    requires room != null ==> room.Valid()
    modifies PlayerFrame(room)
    ensures room == null ==> error == Some(if Lobby.GoodLength(name) then RoomNotFound else InvalidNickname)
    ensures room != null ==> Refines(old(room.View()), room.View(), error, Lobby.Rename(old(room.View()), playerID, name))
    ensures room != null && error == None ==> Lobby.Renamed(old(room.View()), room.View(), playerID, name)
  {
    if |name| < 2 || |name| > 20 { return Some(InvalidNickname); }
    if room == null { return Some(RoomNotFound); }
    var player := LeaderService.FindPlayer(room.players, playerID);
    if player == null { return Some(PlayerNotFound); }
    ghost var before := room.View();
    GiveNickname(room, player, name);
    Lobby.RenameEffect(before, playerID, name);
    return None;
  }

  method GiveNickname(room: Room, player: Player, name: string)
    requires room.Valid() && Lobby.GoodLength(name) && Rules.Has(Views(room.players), player.id)
    requires player == room.players[Rules.IndexOf(Views(room.players), player.id)]
    modifies player
    ensures Ok(room.View()) == Lobby.Rename(old(room.View()), player.id, name)
  {
    var final := HandleDuplicateNickname(room.players, player.id, name);
    player.nickname := final;
    player.isAnonymous := false;
    assert room.View().players == Lobby.Rename(old(room.View()), player.id, name).value.players;
  }

  method RemovePlayer(room: Room, k: nat)
    requires k < |room.players|
    modifies room`players
    ensures room.players == old(room.players[..k] + room.players[k + 1..])
    ensures room.View() == old(room.View()).(players := old(Views(room.players)[..k] + Views(room.players)[k + 1..]))
  {
    room.players := room.players[..k] + room.players[k + 1..];
  }

  /** A player who does not own the room leaves it between games. */
  method RemoveGuest(store: RoomStore.Store, room: Room, k: nat) returns (error: Option<Error>)
    requires store.Valid() && room.code in store.rooms && store.rooms[room.code] == room && k < |room.players|
    modifies store, room`players
    ensures store.Valid() && error == None
    ensures var rest := old(Views(room.players)[..k] + Views(room.players)[k + 1..]);
            if rest == [] then store.rooms == old(store.rooms) - {room.code}
            else store.rooms == old(store.rooms) && room.View() == old(room.View()).(players := rest)
  {
    RemovePlayer(room, k);
    if |room.players| == 0 {
      store.Delete(room.code);
      return None;
    }
    error := store.Update(room);
  }

  method LeaveRoom(store: RoomStore.Store, code: string, playerID: Id) returns (error: Option<Error>)
    requires store.Valid()
    modifies store, if code in store.rooms then {store.rooms[code]} else {}
    ensures store.Valid()
    ensures code !in old(store.rooms) ==> error == Some(RoomNotFound) && store.rooms == old(store.rooms)
    ensures code in old(store.rooms) ==>
              var room := old(store.rooms[code]);
              match Lobby.Leave(old(room.View()), playerID)
              case Err(e) => error == Some(e) && store.rooms == old(store.rooms) && room.View() == old(room.View())
              case Ok(Closes) => error == None && store.rooms == old(store.rooms) - {code}
              case Ok(Remains(r)) => error == None && store.rooms == old(store.rooms) && room.View() == r
  {
    var room := store.Get(code);
    if room == null { return Some(RoomNotFound); }
    var k := FindIndex(room.players, playerID);
    if k == |room.players| { return Some(PlayerNotFound); }
    if room.players[k].isOwner {
      if room.status != InProgress {
        store.Delete(code);
      }
      return None;
    }
    if room.status == InProgress { return None; }
    error := RemoveGuest(store, room, k);
  }

  method FindIndex(ps: seq<Player>, id: Id) returns (k: nat)
    ensures k == Rules.IndexOf(Views(ps), id)
  {
    k := 0;
    while k < |ps| && ps[k].id != id
      invariant 0 <= k <= |ps| && forall j :: 0 <= j < k ==> ps[j].id != id
    {
      k := k + 1;
    }
  }
}
