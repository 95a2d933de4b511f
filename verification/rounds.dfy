/** How a game moves through its rounds when nobody restarts it by hand: over every run of service calls,
    clock ticks and goroutines, in any order. */
module Rounds {
  import opened Models
  import opened Rules
  import opened Ballots
  import opened Protocol
  import opened Population
  import opened Calls

  /** The hypothesis on runs: no new game, no reset, no manual start of a round. */
  predicate HandsOff(g: Game, a: Action) {
    !a.StartGame? && !a.ResetGame? && !a.StartRound?
  }

  function Times(log: seq<Event>, e: Event): nat {
    multiset(log)[e]
  }

  /** The rounds begun so far, in order. */
  function Begun(log: seq<Event>): seq<int> {
    if log == [] then []
    else
      var front, last := log[..|log| - 1], log[|log| - 1];
      if last.RoundBegun? then Begun(front) + [last.round] else Begun(front)
  }

  /** Seconds that have been taken off the clock of the round that was begun last. */
  function TicksSince(log: seq<Event>): nat {
    if log == [] then 0
    else
      var front, last := log[..|log| - 1], log[|log| - 1];
      if last.RoundBegun? then 0 else TicksSince(front) + if last == Ticked then 1 else 0
  }

  /** Every round that has ended was the one begun last, after exactly its full time: 180, 120 or 60 seconds. */
  ghost predicate EndOnTime(log: seq<Event>) {
    log == [] ||
    (var front, last := log[..|log| - 1], log[|log| - 1];
     && EndOnTime(front)
     && (last.RoundEnding? ==>
           && Begun(front) != [] && Begun(front)[|Begun(front)| - 1] == last.round
           && Lasts(last.round, TicksSince(front))))
  }

  function Upto(n: int): seq<int> {
    if n <= 0 then [] else Upto(n - 1) + [n]
  }

  /** Seconds of the rounds after round `n`. */
  function Later(n: int): int {
    if n == 1 then 180 else if n == 2 then 60 else 0
  }

  predicate RoundEvent(e: Event) {
    e.RoundBegun? || e.Ticked? || e.RoundEnding? || e.Advanced? || e.Revealed?
  }

  /** The goroutines that move a game on; an advance to a round that does not exist has no effect. */
  predicate RoundTask(t: Task) {
    (t.Advance? && 1 <= t.round <= 3) || t.RevealAll?
  }

  ghost predicate ClockInv(rd: RoundView) {
    && 1 <= rd.number <= 3
    && rd.duration == RoundDuration(rd.number)
    && 0 <= rd.time <= rd.duration
    && (rd.status == Selecting ==> rd.time == 0)
  }

  /** The history agrees with the round: which rounds have begun, ended, been left, and how many seconds have
      been taken off the clock. */
  ghost predicate HistoryInv(rd: RoundView, log: seq<Event>) {
    && Begun(log) == Upto(rd.number)
    && (forall m :: Times(log, RoundEnding(m)) <= if m < rd.number || (m == rd.number && rd.time == 0) then 1 else 0)
    && (forall m :: Times(log, Advanced(m)) == if 1 <= m < rd.number || (m == rd.number && BothReady(rd)) then 1 else 0)
    && Times(log, Ticked) + rd.time + Later(rd.number) <= 360
  }

  /** The clock agrees with the history: what has been taken off the round's time, and that earlier rounds that ended did
      so on time. */
  ghost predicate TimeInv(rd: RoundView, log: seq<Event>) {
    Lasts(rd.number, TicksSince(log) + rd.time) && EndOnTime(log)
  }

  /** What is pending: one advance once both leaders are ready, or the reveal after round 3, unless done. */
  ghost predicate PendingInv(g: Game, rd: RoundView) {
    && (forall m | 1 <= m <= 3 :: g.tasks[Advance(m)] == if BothReady(rd) && rd.number < 3 && m == rd.number + 1 then 1 else 0)
    && g.tasks[RevealAll] + Times(g.log, Revealed) == (if BothReady(rd) && rd.number == 3 then 1 else 0)
    && (g.room.status == Revealing <==> Times(g.log, Revealed) == 1)
  }

  ghost predicate RoundInv(g: Game) {
    && (g.room.status == InProgress || g.room.status == Revealing)
    && HasRound(g.room)
    && ClockInv(TheRound(g.room))
    && HistoryInv(TheRound(g.room), g.log) && TimeInv(TheRound(g.room), g.log)
    && PendingInv(g, TheRound(g.room))
  }

  // ----- steps that do not concern the round -----

  ghost predicate RoundUntouched(g: Game, h: Game) {
    && h.room.status == g.room.status
    && (HasRound(g.room) ==>
          && HasRound(h.room)
          && TheRound(h.room).number == TheRound(g.room).number
          && TheRound(h.room).duration == TheRound(g.room).duration
          && TheRound(h.room).time == TheRound(g.room).time
          && TheRound(h.room).redReady == TheRound(g.room).redReady
          && TheRound(h.room).blueReady == TheRound(g.room).blueReady
          && (TheRound(h.room).status == Selecting ==> TheRound(g.room).status == Selecting))
    && (forall t :: RoundTask(t) ==> h.tasks[t] == g.tasks[t])
    && (h.log == g.log || (exists e :: h.log == g.log + [e] && !RoundEvent(e)))
  }

  lemma UntouchedKeepsRound(g: Game, h: Game)
    requires RoundInv(g) && RoundUntouched(g, h)
    ensures RoundInv(h)
  {
    var rd, rd' := TheRound(g.room), TheRound(h.room);
    SameHistory(rd, rd', g.log, h.log);
    TimeStands(rd, rd', g.log, h.log);
    SamePending(g, h, rd, rd');
  }

  lemma SameHistory(rd: RoundView, rd': RoundView, log: seq<Event>, log': seq<Event>)
    requires HistoryInv(rd, log) && rd'.number == rd.number && rd'.time == rd.time && BothReady(rd') == BothReady(rd)
    requires log' == log || exists e :: log' == log + [e] && !RoundEvent(e)
    ensures HistoryInv(rd', log') && Times(log', Revealed) == Times(log, Revealed)
  {
    if log' != log {
      var e :| log' == log + [e] && !RoundEvent(e);
      QuietHistory(rd, log, e);
    }
    HistoryOfClock(rd, rd', log');
  }

  lemma QuietHistory(rd: RoundView, log: seq<Event>, e: Event)
    requires HistoryInv(rd, log) && !RoundEvent(e)
    ensures HistoryInv(rd, log + [e]) && Times(log + [e], Revealed) == Times(log, Revealed)
  {
    LogGrows(log, e);
  }

  lemma SamePending(g: Game, h: Game, rd: RoundView, rd': RoundView)
    requires PendingInv(g, rd) && rd'.number == rd.number && BothReady(rd') == BothReady(rd)
    requires h.room.status == g.room.status && Times(h.log, Revealed) == Times(g.log, Revealed)
    requires forall t :: RoundTask(t) ==> h.tasks[t] == g.tasks[t]
    ensures PendingInv(h, rd')
  {
    assert forall m :: 1 <= m <= 3 ==> RoundTask(Advance(m));
    assert RoundTask(RevealAll);
  }

  lemma LogGrows(log: seq<Event>, e: Event)
    ensures forall x :: Times(log + [e], x) == Times(log, x) + if x == e then 1 else 0
    ensures Begun(log + [e]) == if e.RoundBegun? then Begun(log) + [e.round] else Begun(log)
  {
    assert (log + [e])[..|log|] == log;
  }

  lemma TimeGrows(log: seq<Event>, e: Event)
    requires EndOnTime(log)
    requires e.RoundEnding? ==>
               Begun(log) != [] && Begun(log)[|Begun(log)| - 1] == e.round && Lasts(e.round, TicksSince(log))
    ensures TicksSince(log + [e]) == if e.RoundBegun? then 0 else TicksSince(log) + if e == Ticked then 1 else 0
    ensures EndOnTime(log + [e])
  {
    assert (log + [e])[..|log|] == log;
  }

  /** Events that do not concern the clock. */
  lemma TimeStands(rd: RoundView, rd': RoundView, log: seq<Event>, log': seq<Event>)
    requires TimeInv(rd, log) && rd'.number == rd.number && rd'.time == rd.time
    requires log' == log || exists e :: log' == log + [e] && !e.RoundBegun? && !e.Ticked? && !e.RoundEnding?
    ensures TimeInv(rd', log')
  {
    if log' != log {
      var e :| log' == log + [e] && !e.RoundBegun? && !e.Ticked? && !e.RoundEnding?;
      TimeGrows(log, e);
    }
  }

  lemma {:induction false} LeaderCallLeavesRound(g: Game, a: Action)
    requires a.AssignLeaders? || a.Transfer? || a.Disconnect? || a.AssignNewLeader?
    ensures RoundUntouched(g, Next(g, a))
  {
    match a
    case Transfer(current, next) => TransferCrowns(g, current, next);
    case Disconnect(leader, next) => if HasRound(g.room) { DisconnectCrowns(g, leader, next); }
    case AssignNewLeader(c, exclude, next) => NewLeaderCrowns(g, c, exclude, next);
    case AssignLeaders(red, blue) =>
  }

  lemma VoteCallLeavesRound(g: Game, a: Action)
    requires a.StartVote? || a.CastVote? || a.ExpireVote?
    ensures RoundUntouched(g, Next(g, a))
  {
    VoteCallsLeaveRoom(g, a);
    match a
    case StartVote(c, initiator, target) =>
      assert StartVoteStep(g, c, initiator, target).log == g.log;
    case CastVote(v, voter, choice) =>
      assert CastStep(g, v, voter, choice).log == g.log;
    case ExpireVote(_) =>
  }

  lemma SelectLeavesRound(g: Game, leader: Id, ids: seq<Id>)
    ensures RoundUntouched(g, SelectStep(g, leader, ids))
  {
  }

  lemma TallyLeavesRound(g: Game, v: VoteId, how: Resolver, winner: string)
    ensures RoundUntouched(g, DecideStep(g, v, how, winner))
  {
    TallyEffect(g, v, how, winner);
    var h := DecideStep(g, v, how, winner);
    if h.log != g.log {
      assert h.log == g.log + [Installed(v, winner, RoomOf(g.room.players, winner))];
    }
  }

  lemma ElectionLeavesRound(g: Game, v: VoteId, how: Resolver, e: VoteId)
    ensures RoundUntouched(g, ElectStep(g, v, how, e))
  {
    var h := ElectStep(g, v, how, e);
    if h.log != g.log {
      assert h.log == g.log + [Opened(v, e)];
    }
  }

  lemma ResolveLeavesRound(g: Game, v: VoteId)
    ensures RoundUntouched(g, CompleteStep(g, v)) && RoundUntouched(g, TimeoutStep(g, v))
  {
    if g.ledger.Live(v) {
      assert CompleteStep(g, v).log == g.log + [Resolved(v, ByTurnout)];
      assert TimeoutStep(g, v).log == g.log + [Resolved(v, ByTimeout)];
    }
  }

  lemma {:induction false} TaskLeavesRound(g: Game, t: Task, pick: string)
    requires !RoundTask(t)
    ensures RoundUntouched(g, RunStep(g, t, pick))
  {
    match t
    case DecideVote(v, how) => TallyLeavesRound(g, v, how, pick);
    case ElectLeader(v, how) => ElectionLeavesRound(g, v, how, pick);
    case CompleteVote(v) => ResolveLeavesRound(g, v);
    case TimeoutVote(v) => ResolveLeavesRound(g, v);
    case _ =>
  }

  // ----- steps that do -----

  /** A tick that takes effect, on the round and its history; the last one also reports the ending. */
  lemma {:induction false} TickHistory(rd: RoundView, log: seq<Event>)
    requires ClockInv(rd) && HistoryInv(rd, log) && rd.time > 0
    ensures var log' := if rd.time == 1 then log + [Ticked] + [RoundEnding(rd.number)] else log + [Ticked];
      HistoryInv(rd.(time := rd.time - 1), log') && Times(log', Revealed) == Times(log, Revealed)
  {
    LogGrows(log, Ticked);
    LogGrows(log + [Ticked], RoundEnding(rd.number));
  }

  lemma {:induction false} TickTime(rd: RoundView, rd': RoundView, log: seq<Event>)
    requires ClockInv(rd) && TimeInv(rd, log) && Begun(log) == Upto(rd.number) && rd.time > 0
    requires rd'.number == rd.number && rd'.time == rd.time - 1
    ensures TimeInv(rd', if rd.time == 1 then log + [Ticked] + [RoundEnding(rd.number)] else log + [Ticked])
  {
    TimeGrows(log, Ticked);
    if rd.time == 1 {
      LogGrows(log, Ticked);
      TimeGrows(log + [Ticked], RoundEnding(rd.number));
    }
  }

  lemma HistoryOfClock(rd: RoundView, rd': RoundView, log: seq<Event>)
    requires HistoryInv(rd, log)
    requires rd'.number == rd.number && rd'.time == rd.time && BothReady(rd') == BothReady(rd)
    ensures HistoryInv(rd', log)
  {
  }

  lemma PendingUnchanged(g: Game, h: Game, rd: RoundView, rd': RoundView)
    requires PendingInv(g, rd) && h.tasks == g.tasks && h.room.status == g.room.status
    requires rd'.number == rd.number && BothReady(rd') == BothReady(rd)
    requires Times(h.log, Revealed) == Times(g.log, Revealed)
    ensures PendingInv(h, rd')
  {
  }

  lemma {:induction false} TickEffect(g: Game)
    requires HasRound(g.room) && TheRound(g.room).time > 0
    ensures var h, rd := TickStep(g), TheRound(g.room);
      && HasRound(h.room)
      && TheRound(h.room) == rd.(time := rd.time - 1, status := if rd.time == 1 then Selecting else rd.status)
      && h.room.status == g.room.status && h.tasks == g.tasks
      && h.log == if rd.time == 1 then g.log + [Ticked] + [RoundEnding(rd.number)] else g.log + [Ticked]
  {
  }

  lemma {:induction false} TickKeepsRound(g: Game)
    requires RoundInv(g)
    ensures RoundInv(TickStep(g))
  {
    var rd, h := TheRound(g.room), TickStep(g);
    if rd.time > 0 {
      TickEffect(g);
      TickHistory(rd, g.log);
      HistoryOfClock(rd.(time := rd.time - 1), TheRound(h.room), h.log);
      TickTime(rd, TheRound(h.room), g.log);
      PendingUnchanged(g, h, rd, TheRound(h.room));
    } else {
      assert h == g;
    }
  }

  predicate MarksReady(rd: RoundView, rd': RoundView) {
    && rd' == rd.(redReady := rd'.redReady, blueReady := rd'.blueReady)
    && (rd.redReady ==> rd'.redReady) && (rd.blueReady ==> rd'.blueReady)
    && !BothReady(rd)
  }

  /** One more leader is ready, and with the second one the round is left. */
  ghost predicate MovesReady(g: Game, h: Game) {
    && HasRound(g.room) && HasRound(h.room) && h.room.status == g.room.status
    && var rd, rd' := TheRound(g.room), TheRound(h.room);
      && MarksReady(rd, rd')
      && if BothReady(rd') then
           && h.log == g.log + [Advanced(rd.number)]
           && h.tasks == g.tasks + multiset{if rd.number == 3 then RevealAll else Advance(rd.number + 1)}
         else h.log == g.log && h.tasks == g.tasks
  }

  lemma {:induction false} ReadyEffect(g: Game, leader: Id)
    requires HasRound(g.room)
    ensures ReadyStep(g, leader) == g || MovesReady(g, ReadyStep(g, leader))
  {
  }

  lemma {:induction false} ReadyHistory(rd: RoundView, rd': RoundView, log: seq<Event>)
    requires ClockInv(rd) && HistoryInv(rd, log) && MarksReady(rd, rd')
    ensures var log' := if BothReady(rd') then log + [Advanced(rd.number)] else log;
      HistoryInv(rd', log') && Times(log', Revealed) == Times(log, Revealed)
  {
    LogGrows(log, Advanced(rd.number));
  }

  lemma {:induction false} ReadyKeepsRound(g: Game, leader: Id)
    requires RoundInv(g)
    ensures RoundInv(ReadyStep(g, leader))
  {
    ReadyEffect(g, leader);
    if ReadyStep(g, leader) != g {
      MovedReady(g, ReadyStep(g, leader));
    }
  }

  lemma MovedReady(g: Game, h: Game)
    requires RoundInv(g) && MovesReady(g, h)
    ensures RoundInv(h)
  {
    var rd, rd' := TheRound(g.room), TheRound(h.room);
    ReadyHistory(rd, rd', g.log);
    TimeStands(rd, rd', g.log, h.log);
    ReadyPending(g, h, rd, rd');
    RoundHolds(h);
  }

  lemma RoundHolds(g: Game)
    requires (g.room.status == InProgress || g.room.status == Revealing) && HasRound(g.room)
    requires ClockInv(TheRound(g.room)) && HistoryInv(TheRound(g.room), g.log) && TimeInv(TheRound(g.room), g.log)
    requires PendingInv(g, TheRound(g.room))
    ensures RoundInv(g)
  {
  }

  lemma ReadyPending(g: Game, h: Game, rd: RoundView, rd': RoundView)
    requires PendingInv(g, rd) && ClockInv(rd) && MarksReady(rd, rd') && h.room.status == g.room.status
    requires Times(h.log, Revealed) == Times(g.log, Revealed)
    requires h.tasks == if !BothReady(rd') then g.tasks
                        else g.tasks + multiset{if rd.number == 3 then RevealAll else Advance(rd.number + 1)}
    ensures PendingInv(h, rd')
  {
  }

  lemma {:induction false} AdvanceHistory(rd: RoundView, rd': RoundView, log: seq<Event>)
    requires ClockInv(rd) && HistoryInv(rd, log) && BothReady(rd) && rd.number < 3
    requires rd'.number == rd.number + 1 && !BothReady(rd') && rd'.time == RoundDuration(rd'.number)
    ensures HistoryInv(rd', log + [RoundBegun(rd'.number)])
    ensures Times(log + [RoundBegun(rd'.number)], Revealed) == Times(log, Revealed)
  {
    var log' := log + [RoundBegun(rd'.number)];
    LogGrows(log, RoundBegun(rd'.number));
    assert Begun(log') == Upto(rd'.number);
    assert forall m :: Times(log', RoundEnding(m)) == Times(log, RoundEnding(m));
    assert forall m :: Times(log', Advanced(m)) == Times(log, Advanced(m));
  }

  lemma {:induction false} AdvanceEffect(g: Game, n: int, pick: string)
    requires HasRound(g.room) && 1 <= n <= 3 && Advance(n) in g.tasks
    ensures var h := Next(g, Run(Advance(n), pick));
      && HasRound(h.room) && TheRound(h.room) == FreshRound(g.room, n) && h.room.status == g.room.status
      && h.tasks == g.tasks - multiset{Advance(n)} + multiset{Preserve}
      && h.log == g.log + [RoundBegun(n)]
  {
  }

  lemma {:induction false} AdvanceKeepsRound(g: Game, n: int, pick: string)
    requires RoundInv(g) && Advance(n) in g.tasks && 1 <= n <= 3
    ensures RoundInv(Next(g, Run(Advance(n), pick)))
  {
    var rd, h := TheRound(g.room), Next(g, Run(Advance(n), pick));
    assert g.tasks[Advance(n)] == 1 && n == rd.number + 1 && BothReady(rd);
    AdvanceEffect(g, n, pick);
    AdvanceHistory(rd, TheRound(h.room), g.log);
    TimeGrows(g.log, RoundBegun(n));
    AdvancePending(g, h, rd, TheRound(h.room));
    RoundHolds(h);
  }

  lemma AdvancePending(g: Game, h: Game, rd: RoundView, rd': RoundView)
    requires PendingInv(g, rd) && BothReady(rd) && rd.number < 3 && rd.number >= 1
    requires rd'.number == rd.number + 1 && !BothReady(rd') && h.room.status == g.room.status
    requires Times(h.log, Revealed) == Times(g.log, Revealed)
    requires h.tasks == g.tasks - multiset{Advance(rd'.number)} + multiset{Preserve}
    ensures PendingInv(h, rd')
  {
  }

  lemma {:induction false} RevealEffect(g: Game, pick: string)
    requires HasRound(g.room) && RevealAll in g.tasks
    ensures Next(g, Run(RevealAll, pick))
            == g.(room := g.room.(status := Revealing), tasks := g.tasks - multiset{RevealAll}, log := g.log + [Revealed])
  {
  }

  lemma {:induction false} RevealKeepsRound(g: Game, pick: string)
    requires RoundInv(g) && RevealAll in g.tasks
    ensures RoundInv(Next(g, Run(RevealAll, pick)))
  {
    var rd, h := TheRound(g.room), Next(g, Run(RevealAll, pick));
    RevealEffect(g, pick);
    LogGrows(g.log, Revealed);
    TimeStands(rd, rd, g.log, h.log);
    assert PendingInv(h, rd);
    assert HistoryInv(rd, h.log);
  }

  lemma {:induction false} StepKeepsRound(g: Game, a: Action)
    requires RoundInv(g) && Enabled(g, a) && HandsOff(g, a)
    ensures RoundInv(Next(g, a))
  {
    var h := Next(g, a);
    match a
    case Tick => TickKeepsRound(g);
    case LeaderReady(leader) => ReadyKeepsRound(g, leader);
    case Run(t, pick) =>
      if t.Advance? && RoundTask(t) { AdvanceKeepsRound(g, t.round, pick); }
      else if t.RevealAll? { RevealKeepsRound(g, pick); }
      else {
        var g' := g.(tasks := g.tasks - multiset{t});
        TaskLeavesRound(g', t, pick);
        UntouchedKeepsRound(g', h);
      }
    case EditPlayers(_) => UntouchedKeepsRound(g, h);
    case SelectHostages(leader, ids) => SelectLeavesRound(g, leader, ids); UntouchedKeepsRound(g, h);
    case StartVote(_, _, _) => VoteCallLeavesRound(g, a); UntouchedKeepsRound(g, h);
    case CastVote(_, _, _) => VoteCallLeavesRound(g, a); UntouchedKeepsRound(g, h);
    case ExpireVote(_) => VoteCallLeavesRound(g, a); UntouchedKeepsRound(g, h);
    case _ => LeaderCallLeavesRound(g, a); UntouchedKeepsRound(g, h);
  }

  lemma {:induction false} StartBeginsRounds(g: Game, a: Action)
    requires a.StartGame? && g.log == [] && Enabled(g, a)
    requires DealGame(g.room, a.session, a.dealt, a.red, a.blue).Ok?
    requires forall t :: RoundTask(t) ==> t !in g.tasks
    ensures RoundInv(Next(g, a))
  {
    var h := Next(g, a);
    StartEffect(g, a);
    StartHistory(TheRound(h.room));
    TimeGrows([], RoundBegun(1));
    assert [RoundBegun(1)] == [] + [RoundBegun(1)];
    assert PendingInv(h, TheRound(h.room));
  }

  lemma StartEffect(g: Game, a: Action)
    requires a.StartGame? && g.log == [] && DealGame(g.room, a.session, a.dealt, a.red, a.blue).Ok?
    ensures var h := Next(g, a);
      && h.room.status == InProgress && HasRound(h.room) && h.tasks == g.tasks && h.log == [RoundBegun(1)]
      && var rd := TheRound(h.room);
         rd.number == 1 && rd.duration == rd.time == 180 && rd.status != Selecting && !rd.redReady && !rd.blueReady
  {
  }

  lemma StartHistory(rd: RoundView)
    requires rd.number == 1 && rd.time == 180 && !BothReady(rd)
    ensures HistoryInv(rd, [RoundBegun(1)]) && Times([RoundBegun(1)], Revealed) == 0
  {
    LogGrows([], RoundBegun(1));
    assert [RoundBegun(1)] == [] + [RoundBegun(1)];
    assert Upto(1) == [1];
  }

  /** The rounds so far have gone 1, 2, 3 in order; each was left once at most, and once both leaders were ready, and
      ended once at most; when they are, the next round or the reveal is on its way; roles are revealed only after both
      leaders were ready in round 3; hostages are selected only
      when the clock is at zero; and at most 360 ticks have taken effect.  Round 1 lasts 180, round 2 120 and round 3 60
      seconds: so many ticks lie between the beginning of a round and its ending, and those since the last beginning are
      off the clock. */
  ghost predicate Orderly(g: Game) {
    && HasRound(g.room)
    && var rd := TheRound(g.room);
      && 1 <= rd.number <= 3
      && Begun(g.log) == Upto(rd.number)
      && (forall m :: Times(g.log, Advanced(m)) == if 1 <= m < rd.number || (m == rd.number && BothReady(rd)) then 1 else 0)
      && (forall m :: Times(g.log, RoundEnding(m)) <= 1)
      && (g.room.status == Revealing ==> rd.number == 3 && BothReady(rd))
      && (BothReady(rd) ==>
            if rd.number < 3 then Advance(rd.number + 1) in g.tasks else RevealAll in g.tasks || g.room.status == Revealing)
      && (rd.status == Selecting ==> rd.time == 0)
      && Times(g.log, Ticked) <= 360
      && Lasts(rd.number, TicksSince(g.log) + rd.time) && EndOnTime(g.log)
  }

  /** The same for the part of the history that begins at `past`. */
  ghost predicate OrderlySince(g: Game, past: nat) {
    past <= |g.log| && Orderly(g.(log := g.log[past..]))
  }

  ghost predicate StaysOrderly(g: Game, past: nat) {
    forall acts :: IsRun(g, acts, HandsOff) ==> OrderlySince(After(g, acts), past)
  }

  /** Earlier games leave nothing behind but their history and their goroutines. */
  lemma SinceStart(g: Game, start: Action, acts: seq<Action>)
    ensures var h, h0 := Next(g, start), Next(g.(log := []), start);
      && (IsRun(h, acts, HandsOff) <==> IsRun(h0, acts, HandsOff))
      && (OrderlySince(After(h, acts), |g.log|) <==> Orderly(After(h0, acts)))
  {
    var g0 := g.(log := []);
    var h0 := Next(g0, start);
    assert WithPast(g0, g.log) == g;
    NextIgnoresPast(g0, g.log, start);
    RunIgnoresHistory(h0, g.log, acts, HandsOff);
    var k := After(h0, acts);
    assert WithPast(k, g.log).(log := WithPast(k, g.log).log[|g.log|..]) == k;
  }

  /** A game started with no advance or reveal left over from an earlier one stays orderly over every run. */
  lemma {:induction false} RoundsProgress(g: Game, start: Action, acts: seq<Action>)
    requires start.StartGame? && Enabled(g, start)
    requires DealGame(g.room, start.session, start.dealt, start.red, start.blue).Ok?
    requires forall t :: RoundTask(t) ==> t !in g.tasks
    requires IsRun(Next(g, start), acts, HandsOff)
    ensures OrderlySince(After(Next(g, start), acts), |g.log|)
  {
    var g0 := g.(log := []);
    SinceStart(g, start, acts);
    StartBeginsRounds(g0, start);
    RoundAlways(Next(g0, start), acts);
    RoundInvIsOrderly(After(Next(g0, start), acts));
  }

  lemma RoundInvIsOrderly(g: Game)
    requires RoundInv(g)
    ensures Orderly(g)
  {
  }

  lemma RoundAlways(g: Game, acts: seq<Action>)
    requires RoundInv(g) && IsRun(g, acts, HandsOff)
    ensures RoundInv(After(g, acts))
  {
    forall h, a | RoundInv(h) && Enabled(h, a) && HandsOff(h, a) ensures RoundInv(Next(h, a)) { StepKeepsRound(h, a); }
    RunKeeps(g, acts, HandsOff, RoundInv);
  }

  lemma LeftoverAdvance(h: Game, n: int)
    requires HasRound(h.room) && h.log == [RoundBegun(1)] && 1 <= n <= 3 && Advance(n) in h.tasks
    ensures !Orderly(Next(h, Run(Advance(n), "")))
  {
    AdvanceEffect(h, n, "");
    LogGrows([], RoundBegun(1));
    assert [] + [RoundBegun(1)] == [RoundBegun(1)];
    LogGrows([RoundBegun(1)], RoundBegun(n));
    assert n == 1 ==> Upto(1) == [1];
    assert Times(h.log + [RoundBegun(n)], Advanced(1)) == 0;
  }

  lemma LeftoverReveal(h: Game)
    requires HasRound(h.room) && TheRound(h.room).number == 1 && RevealAll in h.tasks
    ensures !Orderly(Next(h, Run(RevealAll, "")))
  {
    RevealEffect(h, "");
  }

  /** A reset leaves pending goroutines alive.  A new game stays orderly over every run exactly when no advance or
      reveal of an earlier game is among them. */
  lemma {:induction false} StartOrderlyIff(g: Game, start: Action)
    requires start.StartGame? && Enabled(g, start)
    requires DealGame(g.room, start.session, start.dealt, start.red, start.blue).Ok?
    ensures StaysOrderly(Next(g, start), |g.log|) <==> forall t :: RoundTask(t) ==> t !in g.tasks
  {
    if t :| RoundTask(t) && t in g.tasks {
      LeftoverBreaks(g, start, t);
    } else {
      forall acts | IsRun(Next(g, start), acts, HandsOff) ensures OrderlySince(After(Next(g, start), acts), |g.log|) {
        RoundsProgress(g, start, acts);
      }
    }
  }

  lemma LeftoverBreaks(g: Game, start: Action, t: Task)
    requires start.StartGame? && Enabled(g, start) && RoundTask(t) && t in g.tasks
    requires DealGame(g.room, start.session, start.dealt, start.red, start.blue).Ok?
    ensures !StaysOrderly(Next(g, start), |g.log|)
  {
    var h0 := Next(g.(log := []), start);
    StartEffect(g.(log := []), start);
    RunOne(h0, Run(t, ""), HandsOff);
    if t.Advance? {
      LeftoverAdvance(h0, t.round);
    } else {
      LeftoverReveal(h0);
    }
    SinceStart(g, start, [Run(t, "")]);
  }

  lemma ReadyBoth(g: Game, red: Id, blue: Id)
    requires HasRound(g.room) && TheRound(g.room).redLeader == red && TheRound(g.room).blueLeader == blue && red != blue
    requires TheRound(g.room).number == 1 && !TheRound(g.room).redReady && !TheRound(g.room).blueReady
    ensures var h := Next(Next(g, LeaderReady(red)), LeaderReady(blue));
      h.room.status == g.room.status && h.room.players == g.room.players && Advance(2) in h.tasks
  {
    var m := Next(g, LeaderReady(red));
    assert m == g.(room := WithRound(g.room, TheRound(g.room).(redReady := true)));
    assert Next(m, LeaderReady(blue)) == ReadyStep(m, blue);
  }

  lemma StartLeaders(g: Game, start: Action)
    requires InLobby(g) && start.StartGame? && Enabled(g, start)
    requires DealGame(g.room, start.session, start.dealt, start.red, start.blue).Ok?
    ensures start.red != start.blue
    ensures var h := Next(g, start);
      && h.room.status == InProgress && h.room.players == start.dealt && Distinct(start.dealt) && HasRound(h.room)
      && var rd := TheRound(h.room);
        rd.redLeader == start.red && rd.blueLeader == start.blue && rd.number == 1 && !rd.redReady && !rd.blueReady
  {
    DealIsSeated(g.room, start.session, start.dealt, start.red, start.blue);
    InRoomIff(start.dealt, start.red, RedRoom);
    InRoomIff(start.dealt, start.blue, BlueRoom);
  }

  lemma ResetKeepsTasks(g: Game)
    requires g.room.status == InProgress && Distinct(g.room.players)
    ensures var h := Next(g, ResetGame);
      InLobby(h) && h.tasks == g.tasks && |h.room.players| == |g.room.players|
  {
    var h := Next(g, ResetGame);
    assert forall i :: 0 <= i < |g.room.players| ==> h.room.players[i].id == g.room.players[i].id;
  }

  lemma ReadyThenReset(g: Game, red: Id, blue: Id) returns (acts: seq<Action>)
    requires g.room.status == InProgress && Distinct(g.room.players) && HasRound(g.room) && red != blue
    requires TheRound(g.room).redLeader == red && TheRound(g.room).blueLeader == blue
    requires TheRound(g.room).number == 1 && !TheRound(g.room).redReady && !TheRound(g.room).blueReady
    ensures IsRun(g, acts, Anything)
    ensures var h := After(g, acts); InLobby(h) && |h.room.players| == |g.room.players| && Advance(2) in h.tasks
  {
    var first, second := LeaderReady(red), LeaderReady(blue);
    ReadyBoth(g, red, blue);
    ResetKeepsTasks(Next(Next(g, first), second));
    RunTwo(Next(g, first), second, ResetGame, Anything);
    RunMore(g, first, [second] + [ResetGame], Anything);
    acts := [first] + ([second] + [ResetGame]);
  }

  /** Such a goroutine can be left: a game starts, both leaders are ready at once, and the game is reset before the
      advance runs.  Whatever game is started next can then get out of order. */
  lemma {:induction false} LeftoverHappens(g: Game, start: Action) returns (acts: seq<Action>)
    requires InLobby(g) && start.StartGame? && Enabled(g, start)
    requires DealGame(g.room, start.session, start.dealt, start.red, start.blue).Ok?
    ensures IsRun(g, acts, Anything)
    ensures InLobby(After(g, acts)) && |After(g, acts).room.players| == |g.room.players|
    ensures forall again: Action :: again.StartGame? ==>
              var h := After(g, acts);
              Enabled(h, again) && DealGame(h.room, again.session, again.dealt, again.red, again.blue).Ok? ==>
                !StaysOrderly(Next(h, again), |h.log|)
  {
    StartLeaders(g, start);
    var rest := ReadyThenReset(Next(g, start), start.red, start.blue);
    RunMore(g, start, rest, Anything);
    acts := [start] + rest;
    var h := After(g, acts);
    forall again: Action | again.StartGame? && Enabled(h, again)
                           && DealGame(h.room, again.session, again.dealt, again.red, again.blue).Ok?
      ensures !StaysOrderly(Next(h, again), |h.log|)
    {
      LeftoverBreaks(h, again, Advance(2));
    }
  }
}
