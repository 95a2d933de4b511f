/** The exchange service on one room: a leader's hostage selection, and the swap of the two selections. */
module ExchangeService {
  import opened Models
  import Rules
  import LeaderService

  /** The first selected player who is the selecting leader or the other one. */
  method CheckNoLeader(rs: RoundState, leaderID: Id, ids: seq<Id>) returns (fault: Option<Error>)
    ensures fault == Rules.LeaderFault(rs.View(), leaderID, ids, 0)
  {
    for i := 0 to |ids|
      invariant Rules.LeaderFault(rs.View(), leaderID, ids, 0) == Rules.LeaderFault(rs.View(), leaderID, ids, i)
    {
      if ids[i] == leaderID { return Some(SelfSelected); }
      if ids[i] == rs.redLeaderID || ids[i] == rs.blueLeaderID { return Some(LeaderSelected); }
    }
    return None;
  }

  /** The first selected id that repeats, is nobody's, or is that of a player in another room. */
  method CheckMembers(ps: seq<Player>, c: RoomColor, ids: seq<Id>) returns (fault: Option<Error>)
    ensures fault == Rules.MemberFault(Views(ps), c, ids, 0)
  {
    var seen: set<Id> := {};
    for i := 0 to |ids|
      invariant seen == set id | id in ids[..i]
      invariant Rules.MemberFault(Views(ps), c, ids, 0) == Rules.MemberFault(Views(ps), c, ids, i)
    {
      if ids[i] in seen { return Some(DuplicateSelected); }
      seen := seen + {ids[i]};
      assert ids[..i + 1] == ids[..i] + [ids[i]];
      var p := LeaderService.FindPlayer(ps, ids[i]);
      if p == null { return Some(InvalidPlayer); }
      if p.currentRoom != c { return Some(NotInYourRoom); }
    }
    return None;
  }

  method CheckSelection(ps: seq<Player>, rs: RoundState, leaderID: Id, ids: seq<Id>)
    returns (fault: Option<Error>, c: RoomColor)
    ensures c == Rules.RoomOf(Views(ps), leaderID)
    ensures fault == if |ids| != rs.hostageCount then Some(WrongCount)
                     else if Rules.LeaderFault(rs.View(), leaderID, ids, 0).Some?
                     then Rules.LeaderFault(rs.View(), leaderID, ids, 0)
                     else Rules.MemberFault(Views(ps), c, ids, 0)
  {
    var leader := LeaderService.FindPlayer(ps, leaderID);
    c := if leader == null then NoRoom else leader.currentRoom;
    if |ids| != rs.hostageCount { return Some(WrongCount), c; }
    fault := CheckNoLeader(rs, leaderID, ids);
    if fault == None {
      fault := CheckMembers(ps, c, ids);
    }
  }

  method StoreSelection(rs: RoundState, c: RoomColor, ids: seq<Id>) returns (error: Option<Error>)
    modifies rs
    ensures error == if |old(if c == RedRoom then rs.redHostages else rs.blueHostages)| > 0 then Some(AlreadySelected) else None
    ensures rs.View() == if error.Some? then old(rs.View())
                         else if c == RedRoom then old(rs.View()).(redHostages := ids)
                         else old(rs.View()).(blueHostages := ids)
  {
    if c == RedRoom {
      if |rs.redHostages| > 0 { return Some(AlreadySelected); }
      rs.redHostages := ids;
    } else {
      if |rs.blueHostages| > 0 { return Some(AlreadySelected); }
      rs.blueHostages := ids;
    }
    return None;
  }

  /** `launched`: the exchange has been started, because both selections are now there. */
  method SelectHostages(room: Room?, leaderID: Id, ids: seq<Id>) returns (error: Option<Error>, launched: bool)
    modifies RoundFrame(room)
    ensures room == null ==> error == Some(RoomNotFound) && !launched
    ensures room != null ==>
              && Refines(old(room.View()), room.View(), error, Rules.ChooseHostages(old(room.View()), leaderID, ids))
              && (launched <==> error == None && Rules.BothSelected(Rules.TheRound(room.View())))
  {
    launched := false;
    if room == null { return Some(RoomNotFound), launched; }
    if room.gameSession == null || room.gameSession.roundState == null { return Some(NoActiveRound), launched; }
    var rs := room.gameSession.roundState;
    if rs.redLeaderID != leaderID && rs.blueLeaderID != leaderID { return Some(NotALeader), launched; }
    var fault, c := CheckSelection(room.players, rs, leaderID, ids);
    if fault.Some? { return fault, launched; }
    error := StoreSelection(rs, c, ids);
    launched := error == None && |rs.redHostages| > 0 && |rs.blueHostages| > 0;
  }

  /** Red hostages go to the blue room, then blue hostages to the red room. */
  method Reassign(p: Player, red: seq<Id>, blue: seq<Id>)
    modifies p
    ensures p.View() == Rules.MoveTo(old(p.View()), red, blue)
  {
    for i := 0 to |red|
      invariant p.id !in red[..i] && p.View() == old(p.View())
    {
      if p.id == red[i] {
        p.currentRoom := BlueRoom;
        break;
      }
    }
    ghost var moved := p.View();
    for j := 0 to |blue|
      invariant p.id !in blue[..j] && p.View() == moved
    {
      if p.id == blue[j] {
        p.currentRoom := RedRoom;
        break;
      }
    }
  }

  method Swap(ps: seq<Player>, red: seq<Id>, blue: seq<Id>)
    requires DistinctPlayers(ps)
    modifies ps
    ensures Views(ps) == Rules.MoveAll(old(Views(ps)), red, blue)
  {
    for i := 0 to |ps|
      invariant forall j :: 0 <= j < i ==> ps[j].View() == Rules.MoveTo(old(ps[j].View()), red, blue)
      invariant forall j :: i <= j < |ps| ==> ps[j].View() == old(ps[j].View())
    {
      Reassign(ps[i], red, blue);
    }
  }

  method ExecuteExchange(room: Room?) returns (error: Option<Error>)
    requires room != null ==> room.Valid()
    modifies RoundFrame(room), PlayerFrame(room)
    ensures room == null ==> error == Some(RoomNotFound)
    ensures room != null ==> Refines(old(room.View()), room.View(), error, Rules.ExecuteExchange(old(room.View())))
  {
    if room == null { return Some(RoomNotFound); }
    if room.gameSession == null || room.gameSession.roundState == null { return Some(NoActiveRound); }
    var rs := room.gameSession.roundState;
    if |rs.redHostages| == 0 || |rs.blueHostages| == 0 { return Some(BothMustSelect); }
    if |rs.redHostages| != |rs.blueHostages| { return Some(UnequalCounts); }
    Swap(room.players, rs.redHostages, rs.blueHostages);
    rs.status := Complete;
    return None;
  }
}
