/** The round manager: the steps of one round, and the table of running round timers. */
module RoundManager {
  import opened Models
  import Rules
  import Protocol

  /** A timer goroutine.  Its channel is closed to stop it; closing a closed channel would panic. */
  class RoundTimer {
    const sessionID: Id
    var stopped: bool
    var closed: bool

    constructor (sessionID: Id)
      ensures this.sessionID == sessionID && !stopped && !closed
    {
      this.sessionID, stopped, closed := sessionID, false, false;
    }

    method Close()
      requires !closed
      modifies `closed
      ensures closed
    {
      closed := true;
    }
  }

  class Manager {
    var timers: map<Id, RoundTimer>
    /** Every timer ever started. */
    ghost var started: set<RoundTimer>

    /** A started timer runs exactly as long as the table holds it, under its own session. */
    ghost predicate Valid()
      reads this, started
    {
      && (forall s :: s in timers ==> timers[s] in started && timers[s].sessionID == s)
      && (forall t :: t in started ==>
            t.stopped == t.closed && (Running(t) <==> t.sessionID in timers && timers[t.sessionID] == t))
    }

    ghost predicate Running(t: RoundTimer)
      reads t
    {
      !t.stopped
    }

    constructor ()
      ensures Valid() && timers == map[] && started == {}
    {
      timers, started := map[], {};
    }

    method StopTimer(sessionID: Id)
      requires Valid()
      modifies this`timers, started
      ensures Valid() && timers == old(timers) - {sessionID}
      ensures forall t :: t in started ==> (Running(t) <==> old(Running(t)) && t.sessionID != sessionID)
    {
      if sessionID in timers {
        var timer := timers[sessionID];
        if !timer.stopped {
          timer.stopped := true;
          timer.Close();
        }
        timers := timers - {sessionID};
      }
    }

    method StartTimer(sessionID: Id) returns (timer: RoundTimer)
      requires Valid()
      modifies this, started
      ensures Valid() && fresh(timer) && started == old(started) + {timer}
      ensures Running(timer) && timers == old(timers)[sessionID := timer]
      ensures forall t :: t in old(started) ==> (Running(t) <==> old(Running(t)) && t.sessionID != sessionID)
    {
      StopTimer(sessionID);
      timer := new RoundTimer(sessionID);
      Register(timer);
    }

    /** The section that stores a new timer.  A timer is left running out of reach exactly when somebody else has
        started one for the session since the old one was stopped. */
    method Register(timer: RoundTimer)
      requires Valid() && timer !in started && !timer.stopped && !timer.closed
      modifies this
      ensures timers == old(timers)[timer.sessionID := timer] && started == old(started) + {timer}
      ensures Valid() <==> timer.sessionID !in old(timers)
    {
      timers := timers[timer.sessionID := timer];
      started := started + {timer};
    }

    /** A whole second call comes between the two sections of a first: the second one's timer runs on, and nobody can
        find it to stop it. */
    method StartTwoTimers(sessionID: Id) returns (lost: RoundTimer, kept: RoundTimer)
      requires Valid()
      modifies this, started
      ensures timers == old(timers)[sessionID := kept] && started == old(started) + {lost, kept}
      ensures lost != kept && Running(lost) && Running(kept) && lost.sessionID == kept.sessionID == sessionID
      ensures lost !in timers.Values && !Valid()
    {
      StopTimer(sessionID);
      kept := new RoundTimer(sessionID);
      lost := StartTimer(sessionID);
      Register(kept);
    }

    /** Opens a round and starts its clock; no other timer of the session keeps running. */
    method StartRound(room: Room?, n: int) returns (error: Option<Error>)
      requires Valid()
      modifies this, started, if room == null then null else room.gameSession
      ensures Valid() && fresh(started - old(started))
      ensures room == null ==> error == Some(RoomNotFound)
      ensures room != null ==> Refines(old(room.View()), room.View(), error, Rules.OpenRound(old(room.View()), n))
      ensures error.Some? ==> timers == old(timers) && started == old(started)
      ensures room != null && error == None ==>
                && room.gameSession != null && room.gameSession == old(room.gameSession) && fresh(room.gameSession.roundState)
                && room.gameSession.id in timers
                && fresh(timers[room.gameSession.id])
                && (forall t :: t in started && Running(t) && t.sessionID == room.gameSession.id ==>
                      t == timers[room.gameSession.id])
    {
      if room == null { return Some(RoomNotFound); }
      if room.gameSession == null { return Some(NoActiveSession); }
      if n < 1 || n > 3 { return Some(InvalidRoundNumber); }
      var session := room.gameSession;
      var red, blue := "", "";
      if session.roundState != null {
        red, blue := session.roundState.redLeaderID, session.roundState.blueLeaderID;
      }
      session.roundState := new RoundState(n, Rules.RoundDuration(n), Rules.HostageQuota(|room.players|, n), red, blue);
      session.currentRound := n;
      var _ := StartTimer(session.id);
      return None;
    }
  }

  /** One second passes on the room's current round, whichever timer it was that fired. */
  method TickTimer(room: Room?) returns (error: Option<Error>)
    modifies RoundFrame(room)
    ensures room == null ==> error == Some(RoomNotFound)
    ensures room != null ==> Refines(old(room.View()), room.View(), error, Rules.TickTimer(old(room.View())))
  {
    if room == null { return Some(RoomNotFound); }
    if room.gameSession == null || room.gameSession.roundState == null { return Some(NoActiveRound); }
    var rs := room.gameSession.roundState;
    if rs.timeRemaining <= 0 { return None; }
    rs.timeRemaining := rs.timeRemaining - 1;
    if rs.timeRemaining == 0 {
      rs.status := Selecting;
    }
    return None;
  }

  /** `launched` is the goroutine started when both leaders have become ready. */
  method LeaderReady(room: Room?, leaderID: Id) returns (error: Option<Error>, launched: Option<Protocol.Task>)
    modifies RoundFrame(room)
    ensures room == null ==> error == Some(RoomNotFound) && launched == None
    ensures room != null ==>
              && Refines(old(room.View()), room.View(), error, Rules.MarkReady(old(room.View()), leaderID))
              && launched == if error.Some? || !Rules.BothReady(Rules.TheRound(room.View())) then None
                             else if Rules.TheRound(room.View()).number == 3 then Some(Protocol.RevealAll)
                             else Some(Protocol.Advance(Rules.TheRound(room.View()).number + 1))
  {
    if room == null { return Some(RoomNotFound), None; }
    if room.gameSession == null || room.gameSession.roundState == null { return Some(NoActiveRound), None; }
    var rs := room.gameSession.roundState;
    if rs.redLeaderID == leaderID {
      if rs.redLeaderReady { return Some(AlreadyReady), None; }
      rs.redLeaderReady := true;
    } else if rs.blueLeaderID == leaderID {
      if rs.blueLeaderReady { return Some(AlreadyReady), None; }
      rs.blueLeaderReady := true;
    } else {
      return Some(NotALeader), None;
    }
    if rs.redLeaderReady && rs.blueLeaderReady {
      if rs.roundNumber == 3 {
        return None, Some(Protocol.RevealAll);
      }
      return None, Some(Protocol.Advance(rs.roundNumber + 1));
    }
    return None, None;
  }

  method TransitionToRevealing(room: Room?) returns (error: Option<Error>)
    modifies if room == null then {} else {room}
    ensures room == null ==> error == Some(RoomNotFound)
    ensures room != null ==> Refines(old(room.View()), room.View(), error, Rules.Reveal(old(room.View())))
  {
    if room == null { return Some(RoomNotFound); }
    if room.gameSession == null { return Some(NoActiveSession); }
    room.status := Revealing;
    return None;
  }
}
