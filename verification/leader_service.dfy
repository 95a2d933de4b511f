/** The leader service on one room.  `room` is what the store found for the room code, null when there is
    none.  Every method is proved to take the step of the same name in `Rules`; a random choice is an extra
    out-parameter. */
module LeaderService {
  import opened Models
  import Rules
  import Calls

  /** The first player with this id, if any. */
  method FindPlayer(ps: seq<Player>, id: Id) returns (p: Player?)
    ensures p == null <==> !Rules.Has(Views(ps), id)
    ensures p != null ==> p == ps[Rules.IndexOf(Views(ps), id)] && p.id == id && p.currentRoom == Rules.RoomOf(Views(ps), id)
  {
    for i := 0 to |ps|
      invariant forall j :: 0 <= j < i ==> ps[j].id != id
    {
      if ps[i].id == id {
        assert Views(ps)[i].id == id && forall j :: 0 <= j < i ==> Views(ps)[j].id != id;
        return ps[i];
      }
    }
    return null;
  }

  /** A random one of the players standing in a room, leaving out one of them; None if there is nobody. */
  method PickEligible(ps: seq<Player>, c: RoomColor, exclude: Id) returns (choice: Option<Id>)
    ensures choice == None <==> Rules.Eligible(Views(ps), c, exclude) == {}
    ensures choice.Some? ==> choice.value in Rules.Eligible(Views(ps), c, exclude)
  {
    var found: seq<Player> := [];
    for i := 0 to |ps|
      invariant forall p :: p in found ==> p.id in Rules.Eligible(Views(ps), c, exclude)
      invariant found == [] ==> forall j :: 0 <= j < i ==> ps[j].currentRoom != c || ps[j].id == exclude
    {
      if ps[i].currentRoom == c && ps[i].id != exclude {
        assert Views(ps)[i].room == c;
        found := found + [ps[i]];
      }
    }
    if |found| == 0 { return None; }
    var k :| 0 <= k < |found|;
    assert found[k] in found;
    return Some(found[k].id);
  }

  method SetLeaderID(rs: RoundState, c: RoomColor, id: Id)
    modifies rs
    ensures rs.View() == Rules.Crown(old(rs.View()), c, id)
  {
    if c == RedRoom {
      rs.redLeaderID := id;
    } else {
      rs.blueLeaderID := id;
    }
  }

  /** Random leaders for both rooms; None for a room with nobody in it. */
  method PickLeaders(ps: seq<Player>) returns (red: Option<Id>, blue: Option<Id>)
    requires DistinctPlayers(ps)
    ensures red == None <==> Rules.IdsIn(Views(ps), RedRoom) == {}
    ensures blue == None <==> Rules.IdsIn(Views(ps), BlueRoom) == {}
    ensures red.Some? ==> red.value in Rules.IdsIn(Views(ps), RedRoom)
    ensures blue.Some? ==> blue.value in Rules.IdsIn(Views(ps), BlueRoom)
  {
    assert forall c :: Rules.Eligible(Views(ps), c, "") == Rules.IdsIn(Views(ps), c);
    red := PickEligible(ps, RedRoom, "");
    blue := PickEligible(ps, BlueRoom, "");
  }

  method PreserveLeaders(room: Room?) returns (error: Option<Error>)
    modifies RoundFrame(room)
    ensures room == null ==> error == Some(RoomNotFound)
    ensures room != null ==> Refines(old(room.View()), room.View(), error, Rules.PreserveLeaders(old(room.View())))
  {
    if room == null { return Some(RoomNotFound); }
    if room.gameSession == null || room.gameSession.roundState == null { return Some(NoActiveRound); }
    var rs := room.gameSession.roundState;
    var red := FindPlayer(room.players, rs.redLeaderID);
    var blue := FindPlayer(room.players, rs.blueLeaderID);
    if red == null || blue == null { return Some(LeadersNotFound); }
    rs.status := Active;
    return None;
  }

  method AssignLeaders(room: Room?) returns (error: Option<Error>, red: Id, blue: Id)
    requires room != null ==> room.Valid()
    modifies RoundFrame(room)
    ensures room == null ==> error == Some(RoomNotFound)
    ensures room != null ==> Refines(old(room.View()), room.View(), error, Rules.AppointLeaders(old(room.View()), red, blue))
    ensures room != null && (error == None || error == Some(SameLeader)) ==>
              red in Rules.IdsIn(Views(room.players), RedRoom) && blue in Rules.IdsIn(Views(room.players), BlueRoom)
  {
    red, blue := "", "";
    if room == null { return Some(RoomNotFound), red, blue; }
    if room.gameSession == null || room.gameSession.roundState == null { return Some(NoActiveRound), red, blue; }
    var rs := room.gameSession.roundState;
    var redChoice, blueChoice := PickLeaders(room.players);
    if redChoice == None || blueChoice == None { return Some(EmptyRoom), red, blue; }
    red, blue := redChoice.value, blueChoice.value;
    if red == blue { return Some(SameLeader), red, blue; }
    rs.redLeaderID, rs.blueLeaderID := red, blue;
    rs.status := Active;
    error := None;
  }

  /** The checks on the two players, and the room they share. */
  method CheckTransfer(ps: seq<Player>, rs: RoundState, currentID: Id, nextID: Id)
    returns (fault: Option<Error>, c: RoomColor)
    ensures fault == Rules.TransferFault(Views(ps), rs.View(), currentID, nextID)
    ensures fault == None ==> c == Rules.RoomOf(Views(ps), currentID)
  {
    c := NoRoom;
    var current := FindPlayer(ps, currentID);
    var next := FindPlayer(ps, nextID);
    if current == null { return Some(LeaderNotFound), c; }
    if next == null { return Some(NewLeaderNotFound), c; }
    if next.currentRoom != current.currentRoom { return Some(DifferentRoom), c; }
    if nextID == rs.redLeaderID || nextID == rs.blueLeaderID { return Some(AlreadyALeader), c; }
    return None, current.currentRoom;
  }

  method TransferLeadership(room: Room?, currentID: Id, nextID: Id) returns (error: Option<Error>)
    modifies RoundFrame(room)
    ensures room == null ==> error == Some(RoomNotFound)
    ensures room != null ==>
              Refines(old(room.View()), room.View(), error, Rules.TransferLeadership(old(room.View()), currentID, nextID))
  {
    if room == null { return Some(RoomNotFound); }
    if room.gameSession == null || room.gameSession.roundState == null { return Some(NoActiveRound); }
    var rs := room.gameSession.roundState;
    if rs.redLeaderID != currentID && rs.blueLeaderID != currentID { return Some(NotALeader); }
    if rs.status == Selecting { return Some(DuringSelection); }
    var c: RoomColor;
    error, c := CheckTransfer(room.players, rs, currentID, nextID);
    if error == None {
      SetLeaderID(rs, c, nextID);
    }
  }

  /** Installs a random other player of the room as its leader. */
  method ReplaceLeader(room: Room, c: RoomColor, exclude: Id) returns (error: Option<Error>, next: Id)
    requires room.gameSession != null && room.gameSession.roundState != null
    modifies RoundFrame(room)
    ensures Refines(old(room.View()), room.View(), error, Rules.Replace(old(room.View()), c, exclude, next))
    ensures error == None ==> next in Rules.Eligible(Views(room.players), c, exclude)
  {
    var choice := PickEligible(room.players, c, exclude);
    if choice == None { return Some(NoEligiblePlayer), ""; }
    next := choice.value;
    SetLeaderID(room.gameSession.roundState, c, next);
    error := None;
  }

  method HandleLeaderDisconnect(room: Room?, leaderID: Id) returns (error: Option<Error>, next: Id)
    modifies RoundFrame(room)
    ensures room == null ==> error == Some(RoomNotFound)
    ensures room != null ==>
              Refines(old(room.View()), room.View(), error, Rules.ReplaceDisconnected(old(room.View()), leaderID, next))
    ensures room != null && error == None && old(Rules.IsLeader(Rules.TheRound(room.View()), leaderID)) ==>
              next in Rules.Eligible(Views(room.players), Rules.DisconnectedRoom(old(room.View()), leaderID), leaderID)
  {
    next := "";
    if room == null { return Some(RoomNotFound), next; }
    if room.gameSession == null || room.gameSession.roundState == null { return Some(NoActiveRound), next; }
    var rs := room.gameSession.roundState;
    var c: RoomColor;
    if rs.redLeaderID == leaderID {
      c := RedRoom;
    } else if rs.blueLeaderID == leaderID {
      c := BlueRoom;
    } else {
      return None, next;
    }
    error, next := ReplaceLeader(room, c, leaderID);
  }

  method AssignNewLeader(room: Room?, c: RoomColor, exclude: Id) returns (error: Option<Error>, next: Id)
    modifies RoundFrame(room)
    ensures room == null ==> error == Some(RoomNotFound)
    ensures room != null ==> Refines(old(room.View()), room.View(), error, Rules.Replace(old(room.View()), c, exclude, next))
    ensures room != null && error == None ==> next in Rules.Eligible(Views(room.players), c, exclude)
  {
    if room == null { return Some(RoomNotFound), ""; }
    if room.gameSession == null || room.gameSession.roundState == null { return Some(NoActiveRound), ""; }
    error, next := ReplaceLeader(room, c, exclude);
  }

  /** Puts the winner of an election in office. */
  method SetLeader(room: Room?, c: RoomColor, playerID: Id) returns (error: Option<Error>)
    modifies RoundFrame(room)
    ensures room == null ==> error == Some(RoomNotFound)
    ensures room != null ==> Refines(old(room.View()), room.View(), error, Rules.InstallLeader(old(room.View()), c, playerID))
    ensures room != null && error == None ==> Calls.NowLeads(old(room.View()), room.View(), c, playerID)
  {
    if room == null { return Some(RoomNotFound); }
    if room.gameSession == null || room.gameSession.roundState == null { return Some(NoActiveRound); }
    var next := FindPlayer(room.players, playerID);
    if next == null { return Some(PlayerNotFound); }
    if next.currentRoom != c { return Some(DifferentRoom); }
    Calls.InstallEffect(room.View(), c, playerID);
    SetLeaderID(room.gameSession.roundState, c, playerID);
    return None;
  }
}
