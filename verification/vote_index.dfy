/** The active-vote table against the sessions themselves, with every vote call cut where it releases the lock, and
    the exact circumstance in which accepting a removal request corrupts it. */
module VoteIndex {
  import opened Models
  import opened Rules
  import opened Ballots
  import opened Protocol
  import opened Population
  import opened Resolution
  import opened Sets
  import Turnout
  import Race
  import Elections

  /** The table names exactly the vote that is ACTIVE, colour by colour: the three ways of asking agree. */
  ghost predicate IndexRight(l: Ledger) {
    && (forall c :: HasActiveVote(l, c) <==> exists v :: l.Live(v) && l.heap[v].color == c)
    && (forall v :: l.Live(v) ==> ActiveVote(l, l.heap[v].color) == Some(l.heap[v]))
    && (forall v, w :: l.Live(v) && l.Live(w) && l.heap[v].color == l.heap[w].color ==> v == w)
  }

  /** The resolver of `u` will still write the table entry of its colour. */
  ghost predicate Touching(g: Game, u: VoteId) {
    || ReleaseIndex(u) in g.tasks
    || ElectLeader(u, ByTurnout) in g.tasks
    || ElectLeader(u, ByTimeout) in g.tasks
    || DecideVote(u, ByTurnout) in g.tasks
    || (DecideVote(u, ByTimeout) in g.tasks && u in g.ledger.heap && TimeoutElects(g.ledger.heap[u]))
  }

  predicate TimeoutElects(s: VoteView) {
    s.kind == Removal && PassesOnTimeout(s)
  }

  ghost predicate Busy(g: Game, c: RoomColor) {
    exists u :: u in g.ledger.heap && g.ledger.heap[u].color == c && Touching(g, u)
  }

  /** A removal request for this colour has passed its checks and is still to be stored. */
  ghost predicate Filing(g: Game, c: RoomColor) {
    exists t :: t in g.tasks && t.FileVote? && t.session.color == c
  }

  /** The hypothesis on runs: no removal request is accepted for a room whose last resolver has not finished, or
      while another request for it is being stored. */
  ghost predicate Patient(g: Game, a: Action) {
    a.StartVote? && RemovalSession(g.room, g.ledger, a.color, a.initiator, a.target).Ok? ==>
      !Busy(g, a.color) && !Filing(g, a.color)
  }

  ghost predicate NamedRight(l: Ledger) {
    && (forall v :: l.Live(v) ==> l.heap[v].color in l.index && l.index[l.heap[v].color] == v)
    && (forall c :: c in l.index ==> l.index[c] in l.heap && l.heap[l.index[c]].color == c)
  }

  ghost predicate OneAtATime(g: Game) {
    && (forall v, u :: g.ledger.Live(v) && u in g.ledger.heap && Touching(g, u) ==>
          g.ledger.heap[v].color != g.ledger.heap[u].color)
    && (forall u, w | u in g.ledger.heap && w in g.ledger.heap && Touching(g, u) && Touching(g, w) ::
          g.ledger.heap[u].color == g.ledger.heap[w].color ==> u == w)
  }

  /** A colour with an ACTIVE vote or an unfinished resolver. */
  ghost predicate Claimed(g: Game, c: RoomColor) {
    (exists v :: g.ledger.Live(v) && g.ledger.heap[v].color == c) || Busy(g, c)
  }

  /** A session that is still to be stored is the only claim on its colour. */
  ghost predicate FilingsAlone(g: Game) {
    && (forall t :: t in g.tasks && t.FileVote? ==> g.tasks[t] == 1 && !Claimed(g, t.session.color))
    && (forall t, u :: t in g.tasks && u in g.tasks && t.FileVote? && u.FileVote? && t.session.color == u.session.color ==>
          t == u)
  }

  ghost predicate TableInv(g: Game) {
    NamedRight(g.ledger) && OneAtATime(g)
  }

  ghost predicate IndexInv(g: Game) {
    OnceInv(g) && TableInv(g) && FilingsAlone(g)
  }

  lemma {:induction false} NamedRightIsRight(l: Ledger)
    requires NamedRight(l)
    ensures IndexRight(l)
  {
    forall c ensures HasActiveVote(l, c) <==> exists v :: l.Live(v) && l.heap[v].color == c {
      if HasActiveVote(l, c) {
        assert l.Live(l.index[c]) && l.heap[l.index[c]].color == c;
      }
    }
  }

  // ----- preservation -----

  ghost predicate NoNewClaims(g: Game, h: Game) {
    forall c :: Claimed(h, c) ==> Claimed(g, c)
  }

  ghost predicate TableKept(g: Game, h: Game) {
    TableInv(h) && NoNewClaims(g, h)
  }

  lemma FilingsStayAlone(g: Game, h: Game)
    requires FilingsAlone(g) && SameFilings(g, h) && NoNewClaims(g, h)
    ensures FilingsAlone(h)
  {
    assert forall t :: t in h.tasks && t.FileVote? ==> t in g.tasks;
  }

  /** Nothing new is live or touching. */
  ghost predicate Calmer(g: Game, h: Game) {
    && (forall v :: v in g.ledger.heap <==> v in h.ledger.heap)
    && (forall v :: v in g.ledger.heap ==> h.ledger.heap[v].color == g.ledger.heap[v].color)
    && (forall v :: h.ledger.Live(v) ==> g.ledger.Live(v))
    && (forall u :: u in h.ledger.heap && Touching(h, u) ==> Touching(g, u))
  }

  lemma {:induction false} CalmerKeepsTable(g: Game, h: Game)
    requires TableInv(g) && Calmer(g, h) && h.ledger.index == g.ledger.index
    ensures TableInv(h)
  {
  }

  lemma {:induction false} CalmerClaims(g: Game, h: Game)
    requires Calmer(g, h)
    ensures NoNewClaims(g, h)
  {
    forall c | Claimed(h, c) ensures Claimed(g, c) {
      if v :| h.ledger.Live(v) && h.ledger.heap[v].color == c {
        assert g.ledger.Live(v) && g.ledger.heap[v].color == c;
      } else {
        var u :| u in h.ledger.heap && h.ledger.heap[u].color == c && Touching(h, u);
        assert u in g.ledger.heap && g.ledger.heap[u].color == c && Touching(g, u);
        assert Busy(g, c);
      }
    }
  }

  lemma {:induction false} RoomStepKeepsTable(g: Game, a: Action)
    requires TableInv(g) && RoomAction(a)
    ensures TableInv(Next(g, a)) && NoNewClaims(g, Next(g, a)) && SameFilings(g, Next(g, a))
  {
    RoomStepLeavesVotes(g, a);
    var h := Next(g, a);
    forall u | u in h.ledger.heap && Touching(h, u) ensures Touching(g, u) {
      assert VoteTask(ReleaseIndex(u)) && VoteTask(ElectLeader(u, ByTurnout)) && VoteTask(ElectLeader(u, ByTimeout));
      assert VoteTask(DecideVote(u, ByTurnout)) && VoteTask(DecideVote(u, ByTimeout));
    }
    CalmerKeepsTable(g, h);
    CalmerClaims(g, h);
  }

  lemma {:induction false} CastKeepsTable(g: Game, u: VoteId, voter: Id, choice: string)
    requires OnceInv(g) && TableInv(g)
    ensures var h := CastStep(g, u, voter, choice); TableInv(h) && NoNewClaims(g, h) && SameFilings(g, h)
  {
    var h := CastStep(g, u, voter, choice);
    if RecordVote(g.ledger, u, voter, choice).Ok? {
      CastCalms(g, u, voter, choice);
      CalmerKeepsTable(g, h);
      CalmerClaims(g, h);
    }
  }

  lemma CastCalms(g: Game, u: VoteId, voter: Id, choice: string)
    requires OnceInv(g) && RecordVote(g.ledger, u, voter, choice).Ok?
    ensures var h := CastStep(g, u, voter, choice); Calmer(g, h) && h.ledger.index == g.ledger.index
  {
    var h := CastStep(g, u, voter, choice);
    forall w | w in h.ledger.heap && Touching(h, w) ensures Touching(g, w) {
      assert OnceAt(g, w);
    }
  }

  lemma StartKeepsTable(g: Game, c: RoomColor, initiator: Id, target: Id)
    requires TableInv(g)
    ensures var h := StartVoteStep(g, c, initiator, target); TableKept(g, h)
  {
    var h := StartVoteStep(g, c, initiator, target);
    assert forall w :: Touching(h, w) <==> Touching(g, w);
    CalmerKeepsTable(g, h);
    CalmerClaims(g, h);
  }

  lemma StartKeepsFilings(g: Game, c: RoomColor, initiator: Id, target: Id)
    requires TableInv(g) && FilingsAlone(g) && Patient(g, StartVote(c, initiator, target))
    ensures FilingsAlone(StartVoteStep(g, c, initiator, target))
  {
    var h := StartVoteStep(g, c, initiator, target);
    StartKeepsTable(g, c, initiator, target);
    var s := RemovalSession(g.room, g.ledger, c, initiator, target);
    if s.Ok? {
      var t := FileVote(s.value, IdsIn(g.room.players, c));
      assert t !in g.tasks;
      NamedRightIsRight(g.ledger);
      assert !HasActiveVote(g.ledger, c);
      assert !Claimed(g, c);
      assert forall x :: x in h.tasks && x != t ==> x in g.tasks && h.tasks[x] == g.tasks[x];
    }
  }

  /** No resolver of `u` is at work. */
  ghost predicate Idle(g: Game, u: VoteId) {
    Undecided(g, u) == 0 && g.tasks[ReleaseIndex(u)] == 0
  }

  lemma {:induction false} OpenTouching(g: Game, u: VoteId, s: VoteView, roll: set<Id>, w: VoteId)
    requires u !in g.ledger.heap && Idle(g, u)
    requires w in OpenVote(g, u, s, roll).ledger.heap && Touching(OpenVote(g, u, s, roll), w)
    ensures w in g.ledger.heap && Touching(g, w)
  {
  }

  lemma {:induction false} OpenKeepsNames(l: Ledger, u: VoteId, s: VoteView)
    requires NamedRight(l) && u !in l.heap
    requires forall v :: l.Live(v) ==> l.heap[v].color != s.color
    ensures NamedRight(File(l, u, s))
    ensures forall v :: File(l, u, s).Live(v) && v != u ==> l.Live(v)
  {
  }

  /** Opening a vote is safe when nothing claims its colour. */
  lemma {:induction false} OpenKeepsTable(g: Game, u: VoteId, s: VoteView, roll: set<Id>)
    requires TableInv(g) && u !in g.ledger.heap && Idle(g, u) && !Claimed(g, s.color)
    ensures TableInv(OpenVote(g, u, s, roll))
  {
    var h := OpenVote(g, u, s, roll);
    OpenKeepsNames(g.ledger, u, s);
    forall w | w in h.ledger.heap && Touching(h, w)
      ensures w in g.ledger.heap && Touching(g, w) && h.ledger.heap[w] == g.ledger.heap[w] && g.ledger.heap[w].color != s.color
    {
      OpenTouching(g, u, s, roll, w);
    }
    OneAtATimeFrom(g, h, u);
  }

  /** It claims that colour and no other. */
  lemma {:induction false} OpenClaims(g: Game, u: VoteId, s: VoteView, roll: set<Id>, c: RoomColor)
    requires u !in g.ledger.heap && Idle(g, u) && Claimed(OpenVote(g, u, s, roll), c)
    ensures c == s.color || Claimed(g, c)
  {
    var h := OpenVote(g, u, s, roll);
    if v :| h.ledger.Live(v) && h.ledger.heap[v].color == c {
      assert v == u || (g.ledger.Live(v) && g.ledger.heap[v].color == c);
    } else {
      var w :| w in h.ledger.heap && h.ledger.heap[w].color == c && Touching(h, w);
      OpenTouching(g, u, s, roll, w);
      assert g.ledger.heap[w].color == c;
      assert Busy(g, c);
    }
  }

  /** One-at-a-time carries over when the touching votes are old ones, and so are the live ones but for `u`, whose
      colour no touching vote has. */
  lemma {:induction false} OneAtATimeFrom(g: Game, h: Game, u: VoteId)
    requires OneAtATime(g) && u in h.ledger.heap
    requires forall w :: w in h.ledger.heap && Touching(h, w) ==>
      w in g.ledger.heap && Touching(g, w) && h.ledger.heap[w].color == g.ledger.heap[w].color != h.ledger.heap[u].color
    requires forall v :: h.ledger.Live(v) && v != u ==> g.ledger.Live(v) && h.ledger.heap[v].color == g.ledger.heap[v].color
    ensures OneAtATime(h)
  {
  }

  lemma {:induction false} FewerTasksKeepTable(g: Game, t: Task)
    requires TableInv(g)
    ensures var h := g.(tasks := g.tasks - multiset{t}); TableKept(g, h)
  {
    var h := g.(tasks := g.tasks - multiset{t});
    assert forall w :: Touching(h, w) ==> Touching(g, w);
    CalmerClaims(g, h);
  }

  /** Storing a session passes its claim on. */
  lemma {:induction false} FileKeepsIndex(g: Game, t: Task, u: VoteId)
    requires TableInv(g) && FilingsAlone(g) && OnceAt(g, u) && t.FileVote? && t in g.tasks && u !in g.ledger.heap
    ensures var h := OpenVote(g.(tasks := g.tasks - multiset{t}), u, t.session, t.voters); TableInv(h) && FilingsAlone(h)
  {
    var g' := g.(tasks := g.tasks - multiset{t});
    var h := OpenVote(g', u, t.session, t.voters);
    FewerTasksKeepTable(g, t);
    OpenKeepsTable(g', u, t.session, t.voters);
    forall x | x in h.tasks && x.FileVote? ensures x in g.tasks && x != t && h.tasks[x] == 1 && !Claimed(h, x.session.color) {
      assert x in g.tasks && x != t;
      if Claimed(h, x.session.color) {
        OpenClaims(g', u, t.session, t.voters, x.session.color);
      }
    }
  }

  lemma {:induction false} MarkTouching(g: Game, h: Game, u: VoteId, how: Resolver, w: VoteId)
    requires Marked(g, h, u, how) && w in h.ledger.heap && Touching(h, w)
    ensures w == u || Touching(g, w)
  {
  }

  lemma {:induction false} MarkKeepsNames(g: Game, h: Game, u: VoteId, how: Resolver)
    requires NamedRight(g.ledger)
    requires Marked(g, h, u, how) && SameBallot(g.ledger.heap[u], h.ledger.heap[u])
    requires h.ledger.index == g.ledger.index || h.ledger.index == g.ledger.index - {g.ledger.heap[u].color}
    ensures NamedRight(h.ledger)
    ensures forall v :: h.ledger.Live(v) ==> g.ledger.Live(v) && h.ledger.heap[v].color != h.ledger.heap[u].color
  {
    forall v | h.ledger.Live(v) ensures g.ledger.Live(v) && v != u {
    }
  }

  lemma {:induction false} MarkKeepsTable(g: Game, h: Game, u: VoteId, how: Resolver)
    requires TableInv(g)
    requires Marked(g, h, u, how) && SameBallot(g.ledger.heap[u], h.ledger.heap[u])
    requires h.ledger.index == g.ledger.index || h.ledger.index == g.ledger.index - {g.ledger.heap[u].color}
    ensures TableInv(h)
  {
    MarkKeepsNames(g, h, u, how);
    forall w | w in h.ledger.heap && Touching(h, w) && w != u
      ensures Touching(g, w) && h.ledger.heap[w].color != h.ledger.heap[u].color
    {
      MarkTouching(g, h, u, how, w);
    }
    MarkOneAtATime(g, h, u);
  }

  /** The resolved vote takes over the claim of the live one. */
  lemma {:induction false} MarkClaims(g: Game, h: Game, u: VoteId, how: Resolver)
    requires Marked(g, h, u, how) && SameBallot(g.ledger.heap[u], h.ledger.heap[u])
    ensures NoNewClaims(g, h) && SameFilings(g, h)
  {
    forall c | Claimed(h, c) ensures Claimed(g, c) {
      if v :| h.ledger.Live(v) && h.ledger.heap[v].color == c {
        assert g.ledger.Live(v) && g.ledger.heap[v].color == c;
      } else {
        var w :| w in h.ledger.heap && h.ledger.heap[w].color == c && Touching(h, w);
        MarkTouching(g, h, u, how, w);
        assert g.ledger.heap[w].color == c && (g.ledger.Live(w) || Touching(g, w));
      }
    }
  }

  /** The resolved vote takes the place of its live one: its colour has no other live or touching vote. */
  lemma {:induction false} MarkOneAtATime(g: Game, h: Game, u: VoteId)
    requires OneAtATime(g) && u in h.ledger.heap && h.ledger.heap.Keys == g.ledger.heap.Keys
    requires forall v :: v in g.ledger.heap ==> h.ledger.heap[v].color == g.ledger.heap[v].color
    requires forall w :: w in h.ledger.heap && Touching(h, w) && w != u ==>
               Touching(g, w) && h.ledger.heap[w].color != h.ledger.heap[u].color
    requires forall v :: h.ledger.Live(v) ==> g.ledger.Live(v) && h.ledger.heap[v].color != h.ledger.heap[u].color
    ensures OneAtATime(h)
  {
  }

  lemma {:induction false} MarkingKeepsTable(g: Game, u: VoteId)
    requires TableInv(g)
    ensures var h := CompleteStep(g, u); TableInv(h) && NoNewClaims(g, h) && SameFilings(g, h)
    ensures var h := TimeoutStep(g, u); TableInv(h) && NoNewClaims(g, h) && SameFilings(g, h)
  {
    if g.ledger.Live(u) {
      ResolveMarks(g, u);
      MarkKeepsTable(g, CompleteStep(g, u), u, ByTurnout);
      MarkClaims(g, CompleteStep(g, u), u, ByTurnout);
      MarkKeepsTable(g, TimeoutStep(g, u), u, ByTimeout);
      MarkClaims(g, TimeoutStep(g, u), u, ByTimeout);
    }
  }

  lemma {:induction false} DecideSpawns(g: Game, u: VoteId, how: Resolver, winner: string)
    requires u in g.ledger.heap
    ensures var h := DecideStep(g, u, how, winner);
      && h.ledger == g.ledger
      && (|| h.tasks == g.tasks
          || (how == ByTurnout && h.tasks == g.tasks + multiset{ReleaseIndex(u)})
          || (g.ledger.heap[u].kind == Removal && Passes(g.ledger.heap[u], how)
              && h.tasks == g.tasks + multiset{ElectLeader(u, how)}))
  {
  }

  /** What the tally spawns touches the table only if the tally itself counted as doing so. */
  lemma {:induction false} DecideTouching(g: Game, h: Game, u: VoteId, how: Resolver, w: VoteId)
    requires DecideVote(u, how) in g.tasks && u in g.ledger.heap && h.ledger == g.ledger
    requires var ts := g.tasks - multiset{DecideVote(u, how)};
      || h.tasks == ts
      || (how == ByTurnout && h.tasks == ts + multiset{ReleaseIndex(u)})
      || (g.ledger.heap[u].kind == Removal && Passes(g.ledger.heap[u], how) && h.tasks == ts + multiset{ElectLeader(u, how)})
    requires Touching(h, w)
    ensures Touching(g, w)
  {
  }

  lemma {:induction false} DecidedKeepsTable(g: Game, h: Game, u: VoteId, how: Resolver)
    requires TableInv(g) && u in g.ledger.heap && DecideVote(u, how) in g.tasks && h.ledger == g.ledger
    requires var ts := g.tasks - multiset{DecideVote(u, how)};
      || h.tasks == ts
      || (how == ByTurnout && h.tasks == ts + multiset{ReleaseIndex(u)})
      || (g.ledger.heap[u].kind == Removal && Passes(g.ledger.heap[u], how) && h.tasks == ts + multiset{ElectLeader(u, how)})
    ensures TableKept(g, h)
  {
    forall w | w in h.ledger.heap && Touching(h, w) ensures Touching(g, w) {
      DecideTouching(g, h, u, how, w);
    }
    CalmerKeepsTable(g, h);
    CalmerClaims(g, h);
  }

  lemma {:induction false} ReleaseKeepsTable(g: Game, u: VoteId)
    requires TableInv(g) && ReleaseIndex(u) in g.tasks && u in g.ledger.heap
    ensures var h := ReleaseStep(g.(tasks := g.tasks - multiset{ReleaseIndex(u)}), u); TableKept(g, h)
  {
    var g' := g.(tasks := g.tasks - multiset{ReleaseIndex(u)});
    NothingLiveBeside(g, u);
    FewerTasksKeepTable(g, ReleaseIndex(u));
    ReleaseKeepsNames(g.ledger, g.ledger.heap[u].color);
    ReleaseKeepsOneAtATime(g', g.ledger.heap[u].color);
    CalmerClaims(g', ReleaseStep(g', u));
  }

  lemma NothingLiveBeside(g: Game, u: VoteId)
    requires OneAtATime(g) && u in g.ledger.heap && Touching(g, u)
    ensures forall v :: g.ledger.Live(v) ==> g.ledger.heap[v].color != g.ledger.heap[u].color
  {
  }

  lemma ReleaseKeepsNames(l: Ledger, c: RoomColor)
    requires NamedRight(l) && forall v :: l.Live(v) ==> l.heap[v].color != c
    ensures NamedRight(Unindex(l, c))
  {
    assert forall v :: Unindex(l, c).Live(v) ==> l.Live(v);
  }

  lemma ReleaseKeepsOneAtATime(g: Game, c: RoomColor)
    requires OneAtATime(g)
    ensures var h := g.(ledger := Unindex(g.ledger, c)); OneAtATime(h) && Calmer(g, h)
  {
    var h := g.(ledger := Unindex(g.ledger, c));
    assert forall v :: h.ledger.Live(v) <==> g.ledger.Live(v);
    assert forall w :: Touching(h, w) <==> Touching(g, w);
  }

  /** Once the election's goroutine has left the bag, its vote no longer touches the table. */
  lemma {:induction false} ElectTouching(g: Game, g': Game, u: VoteId, how: Resolver, w: VoteId)
    requires OnceAt(g, u) && ElectLeader(u, how) in g.tasks
    requires g'.ledger == g.ledger && g'.tasks == g.tasks - multiset{ElectLeader(u, how)}
    requires Touching(g', w)
    ensures Touching(g, w) && w != u
  {
    assert Undecided(g, u) == Undecided(g', u) + 1;
  }

  lemma {:induction false} NoElectionKeepsTable(g: Game, h: Game, u: VoteId, how: Resolver)
    requires TableInv(g) && ElectLeader(u, how) in g.tasks && h.ledger == g.ledger
    requires var ts := g.tasks - multiset{ElectLeader(u, how)}; h.tasks == ts || h.tasks == ts + multiset{ReleaseIndex(u)}
    ensures TableInv(h) && NoNewClaims(g, h)
  {
    forall w | w in h.ledger.heap && Touching(h, w) ensures Touching(g, w) {
    }
    CalmerKeepsTable(g, h);
    CalmerClaims(g, h);
  }

  lemma {:induction false} ElectionUnclaimed(g: Game, g1: Game, u: VoteId, how: Resolver)
    requires OneAtATime(g) && OnceAt(g, u) && ElectLeader(u, how) in g.tasks && u in g.ledger.heap
    requires g1.ledger == g.ledger && g1.tasks == g.tasks - multiset{ElectLeader(u, how)}
    ensures !Claimed(g1, g.ledger.heap[u].color) && Calmer(g, g1)
  {
    assert Touching(g, u);
    forall w | Touching(g1, w) ensures Touching(g, w) && w != u {
      ElectTouching(g, g1, u, how, w);
    }
  }

  lemma {:induction false} ElectionKeepsTable(g: Game, g1: Game, u: VoteId, how: Resolver, e: VoteId, s: VoteView)
    requires TableInv(g) && OnceAt(g, u) && OnceAt(g, e)
    requires ElectLeader(u, how) in g.tasks && u in g.ledger.heap && e !in g.ledger.heap
    requires g1.ledger == g.ledger && g1.tasks == g.tasks - multiset{ElectLeader(u, how)}
    requires s.color == g.ledger.heap[u].color
    ensures var h := OpenVote(g1, e, s, set x | x in s.candidates); TableKept(g, h)
  {
    ElectionUnclaimed(g, g1, u, how);
    CalmerKeepsTable(g, g1);
    CalmerClaims(g, g1);
    OpenKeepsTable(g1, e, s, (set x | x in s.candidates));
    var h := OpenVote(g1, e, s, set x | x in s.candidates);
    forall c | Claimed(h, c) ensures Claimed(g, c) {
      OpenClaims(g1, e, s, (set x | x in s.candidates), c);
      if c == s.color {
        assert Touching(g, u);
        assert Busy(g, c);
      }
    }
  }

  lemma {:induction false} ElectKeepsTable(g: Game, u: VoteId, how: Resolver, e: VoteId)
    requires TableInv(g) && OnceAt(g, u) && OnceAt(g, e)
    requires ElectLeader(u, how) in g.tasks && u in g.ledger.heap && e !in g.ledger.heap
    ensures var h := ElectStep(g.(tasks := g.tasks - multiset{ElectLeader(u, how)}), u, how, e);
      TableKept(g, h)
  {
    var g' := g.(tasks := g.tasks - multiset{ElectLeader(u, how)});
    match ElectionSession(g.room, g.ledger.heap[u].color, g.ledger.heap[u].target)
    case Ok(s) => ElectionKeepsTable(g, Record(g', Opened(u, e)), u, how, e, s);
    case Err(_) => NoElectionKeepsTable(g, ElectStep(g', u, how, e), u, how);
  }

  lemma {:induction false} CheckKeepsTable(g: Game, u: VoteId)
    requires TableInv(g)
    ensures TableInv(CheckStep(g, u)) && NoNewClaims(g, CheckStep(g, u))
  {
    var h := CheckStep(g, u);
    assert forall w :: Touching(h, w) ==> Touching(g, w);
    CalmerClaims(g, h);
  }

  lemma ClaimsCarryOn(g: Game, m: Game, h: Game)
    requires NoNewClaims(g, m) && NoNewClaims(m, h)
    ensures NoNewClaims(g, h)
  {
  }

  lemma CheckTaskKeepsTable(g: Game, u: VoteId)
    requires TableInv(g)
    ensures var h := CheckStep(g.(tasks := g.tasks - multiset{CheckTurnout(u)}), u); TableKept(g, h)
  {
    var m := g.(tasks := g.tasks - multiset{CheckTurnout(u)});
    FewerTasksKeepTable(g, CheckTurnout(u));
    CheckKeepsTable(m, u);
    ClaimsCarryOn(g, m, CheckStep(m, u));
  }

  lemma CompleteTaskKeepsTable(g: Game, u: VoteId)
    requires TableInv(g)
    ensures var h := CompleteStep(g.(tasks := g.tasks - multiset{CompleteVote(u)}), u); TableKept(g, h)
  {
    var m := g.(tasks := g.tasks - multiset{CompleteVote(u)});
    FewerTasksKeepTable(g, CompleteVote(u));
    MarkingKeepsTable(m, u);
    ClaimsCarryOn(g, m, CompleteStep(m, u));
  }

  lemma TimeoutTaskKeepsTable(g: Game, u: VoteId)
    requires TableInv(g)
    ensures var h := TimeoutStep(g.(tasks := g.tasks - multiset{TimeoutVote(u)}), u); TableKept(g, h)
  {
    var m := g.(tasks := g.tasks - multiset{TimeoutVote(u)});
    FewerTasksKeepTable(g, TimeoutVote(u));
    MarkingKeepsTable(m, u);
    ClaimsCarryOn(g, m, TimeoutStep(m, u));
  }

  /** The session of a resolver at work is there. */
  lemma ResolverStored(g: Game, t: Task)
    requires t in g.tasks && LateTask(t) && OnceInv(g)
    ensures t.vote in g.ledger.heap
  {
    assert OnceAt(g, t.vote);
    if t.DecideVote? || t.ElectLeader? {
      assert t.how == ByTurnout || t.how == ByTimeout;
      assert Undecided(g, t.vote) > 0;
    }
  }

  /** A task that concerns one vote. */
  lemma {:induction false} TaskKeepsTable(g: Game, t: Task, pick: string)
    requires OnceInv(g) && TableInv(g) && t in g.tasks && VoteTask(t) && !t.FileVote?
    requires t.ElectLeader? ==> pick !in g.ledger.heap
    ensures var h := RunStep(g.(tasks := g.tasks - multiset{t}), t, pick); TableKept(g, h)
  {
    if LateTask(t) {
      LateTaskKeepsTable(g, t, pick);
    } else {
      EarlyTaskKeepsTable(g, t, pick);
    }
  }

  lemma EarlyTaskKeepsTable(g: Game, t: Task, pick: string)
    requires TableInv(g) && VoteTask(t) && !t.FileVote? && !LateTask(t)
    ensures var h := RunStep(g.(tasks := g.tasks - multiset{t}), t, pick); TableKept(g, h)
  {
    match t
    case CheckTurnout(u) => CheckTaskKeepsTable(g, u);
    case CompleteVote(u) => CompleteTaskKeepsTable(g, u);
    case TimeoutVote(u) => TimeoutTaskKeepsTable(g, u);
  }

  lemma DecideTaskKeepsTable(g: Game, u: VoteId, how: Resolver, pick: string)
    requires OnceInv(g) && TableInv(g) && DecideVote(u, how) in g.tasks
    ensures var t := DecideVote(u, how); TableKept(g, RunStep(g.(tasks := g.tasks - multiset{t}), t, pick))
  {
    ResolverStored(g, DecideVote(u, how));
    DecideSpawns(g.(tasks := g.tasks - multiset{DecideVote(u, how)}), u, how, pick);
    DecidedKeepsTable(g, RunStep(g.(tasks := g.tasks - multiset{DecideVote(u, how)}), DecideVote(u, how), pick), u, how);
  }

  lemma ReleaseTaskKeepsTable(g: Game, u: VoteId, pick: string)
    requires OnceInv(g) && TableInv(g) && ReleaseIndex(u) in g.tasks
    ensures var t := ReleaseIndex(u); TableKept(g, RunStep(g.(tasks := g.tasks - multiset{t}), t, pick))
  {
    ResolverStored(g, ReleaseIndex(u));
    ReleaseKeepsTable(g, u);
  }

  lemma ElectTaskKeepsTable(g: Game, u: VoteId, how: Resolver, pick: string)
    requires OnceInv(g) && TableInv(g) && ElectLeader(u, how) in g.tasks && pick !in g.ledger.heap
    ensures var t := ElectLeader(u, how); TableKept(g, RunStep(g.(tasks := g.tasks - multiset{t}), t, pick))
  {
    ResolverStored(g, ElectLeader(u, how));
    OnceBoth(g, u, pick);
    ElectKeepsTable(g, u, how, pick);
  }

  lemma LateTaskKeepsTable(g: Game, t: Task, pick: string)
    requires OnceInv(g) && TableInv(g) && t in g.tasks && LateTask(t) && (t.ElectLeader? ==> pick !in g.ledger.heap)
    ensures TableKept(g, RunStep(g.(tasks := g.tasks - multiset{t}), t, pick))
  {
    match t
    case DecideVote(u, how) => DecideTaskKeepsTable(g, u, how, pick);
    case ReleaseIndex(u) => ReleaseTaskKeepsTable(g, u, pick);
    case ElectLeader(u, how) => ElectTaskKeepsTable(g, u, how, pick);
  }

  lemma OnceBoth(g: Game, u: VoteId, v: VoteId)
    requires OnceInv(g)
    ensures OnceAt(g, u) && OnceAt(g, v)
  {
  }

  lemma {:induction false} RunKeepsIndex(g: Game, t: Task, pick: string)
    requires IndexInv(g) && Enabled(g, Run(t, pick)) && VoteTask(t)
    ensures var h := RunStep(g.(tasks := g.tasks - multiset{t}), t, pick); TableInv(h) && FilingsAlone(h)
  {
    var g' := g.(tasks := g.tasks - multiset{t});
    if t.FileVote? {
      assert OnceAt(g, pick);
      FileKeepsIndex(g, t, pick);
    } else {
      TaskKeepsTable(g, t, pick);
      TaskFilesNothing(g', t, pick);
      FilingsStayAlone(g, RunStep(g', t, pick));
    }
  }

  lemma {:induction false} StepKeepsIndex(g: Game, a: Action)
    requires IndexInv(g) && Enabled(g, a) && Patient(g, a)
    ensures IndexInv(Next(g, a))
  {
    StepKeepsOnce(g, a);
    var h := Next(g, a);
    if RoomAction(a) {
      RoomStepKeepsTable(g, a);
      FilingsStayAlone(g, h);
    } else {
      match a
      case StartVote(c, initiator, target) =>
        StartKeepsTable(g, c, initiator, target);
        StartKeepsFilings(g, c, initiator, target);
      case CastVote(u, voter, choice) =>
        CastKeepsTable(g, u, voter, choice);
        FilingsStayAlone(g, h);
      case ExpireVote(_) =>
        CalmerKeepsTable(g, h);
        CalmerClaims(g, h);
        FilingsStayAlone(g, h);
      case Run(t, pick) => RunKeepsIndex(g, t, pick);
    }
  }

  // ----- the theorems -----

  /** In every run that accepts no removal request for a room with an unfinished resolver or another request on its
      way, at most one vote per colour is ACTIVE, and the table, the query and a scan of the sessions agree on which. */
  lemma {:induction false} IndexStaysRight(g: Game, acts: seq<Action>)
    requires NoVotes(g) && g.ledger.index == map[] && IsRun(g, acts, Patient)
    ensures IndexRight(After(g, acts).ledger)
  {
    NoVotesIsIndexed(g);
    IndexFrom(g, acts);
  }

  lemma NoVotesIsIndexed(g: Game)
    requires NoVotes(g) && g.ledger.index == map[]
    ensures IndexInv(g)
  {
    NoVotesIsOnce(g);
    assert forall t :: t in g.tasks ==> !VoteTask(t);
  }

  lemma {:induction false} IndexFrom(g: Game, acts: seq<Action>)
    requires IndexInv(g) && IsRun(g, acts, Patient)
    ensures IndexRight(After(g, acts).ledger)
  {
    IndexAlways(g, acts);
    NamedRightIsRight(After(g, acts).ledger);
  }

  lemma IndexAlways(g: Game, acts: seq<Action>)
    requires IndexInv(g) && IsRun(g, acts, Patient)
    ensures IndexInv(After(g, acts))
  {
    forall h, a | IndexInv(h) && Enabled(h, a) && Patient(h, a) ensures IndexInv(Next(h, a)) { StepKeepsIndex(h, a); }
    RunKeeps(g, acts, Patient, IndexInv);
  }

  ghost predicate StaysIndexed(g: Game) {
    forall acts :: IsRun(g, acts, Patient) ==> IndexRight(After(g, acts).ledger)
  }

  lemma {:induction false} StepBack(g: Game, a: Action)
    requires Enabled(g, a) && Patient(g, a) && !StaysIndexed(Next(g, a))
    ensures !StaysIndexed(g)
  {
    var acts :| IsRun(Next(g, a), acts, Patient) && !IndexRight(After(Next(g, a), acts).ledger);
    RunMore(g, a, acts, Patient);
  }

  lemma NowWrong(g: Game)
    requires !IndexRight(g.ledger)
    ensures !StaysIndexed(g)
  {
    assert IsRun(g, [], Patient) && After(g, []) == g;
  }

  /** A release that is still to come deletes the new vote's entry. */
  lemma {:induction false} ReleaseBreaks(h: Game, u: VoteId, v: VoteId)
    requires h.ledger.Live(v) && u in h.ledger.heap && h.ledger.heap[u].color == h.ledger.heap[v].color
    requires ReleaseIndex(u) in h.tasks
    ensures !StaysIndexed(h)
  {
    var a := Run(ReleaseIndex(u), "");
    var k := Next(h, a);
    assert k.ledger == Unindex(h.ledger, h.ledger.heap[u].color);
    assert k.ledger.Live(v) && !HasActiveVote(k.ledger, k.ledger.heap[v].color);
    NowWrong(k);
    StepBack(h, a);
  }

  /** An election that is still to come opens a second ACTIVE vote. */
  lemma {:induction false} ElectBreaks(h: Game, u: VoteId, how: Resolver, v: VoteId)
    requires h.ledger.Live(v) && u in h.ledger.heap && h.ledger.heap[u].color == h.ledger.heap[v].color
    requires ElectLeader(u, how) in h.tasks
    requires ElectionSession(h.room, h.ledger.heap[u].color, h.ledger.heap[u].target).Ok?
    ensures !StaysIndexed(h)
  {
    var e := FreshId(h.ledger.heap.Keys + h.roll.Keys);
    var a := Run(ElectLeader(u, how), e);
    var s := ElectionSession(h.room, h.ledger.heap[u].color, h.ledger.heap[u].target).value;
    var k := Next(h, a);
    assert k.ledger == File(h.ledger, e, s);
    assert k.ledger.Live(v) && k.ledger.Live(e) && v != e;
    NowWrong(k);
    StepBack(h, a);
  }

  /** A room with enough players for a removal vote has candidates for an election. */
  lemma {:induction false} CandidatesExist(r: RoomView, c: RoomColor, exclude: Id)
    requires HasRound(r) && Distinct(r.players) && |Standing(r.players, c)| >= 3
    ensures ElectionSession(r, c, exclude).Ok?
  {
    var ids := Standing(r.players, c);
    StandingIsIdsIn(r.players, c);
    var x := if ids[0] == exclude then ids[1] else ids[0];
    assert x in ids && x != exclude;
    assert x in Without(ids, exclude);
  }

  lemma {:induction false} BusyBreaks(h: Game, u: VoteId, v: VoteId)
    requires h.ledger.Live(v) && u in h.ledger.heap && h.ledger.heap[u].color == h.ledger.heap[v].color
    requires HasRound(h.room) && Distinct(h.room.players) && |Standing(h.room.players, h.ledger.heap[v].color)| >= 3
    requires Touching(h, u)
    ensures !StaysIndexed(h)
  {
    CandidatesExist(h.room, h.ledger.heap[u].color, h.ledger.heap[u].target);
    if ReleaseIndex(u) in h.tasks {
      ReleaseBreaks(h, u, v);
    } else if how :| ElectLeader(u, how) in h.tasks {
      ElectBreaks(h, u, how, v);
    } else if DecideVote(u, ByTurnout) in h.tasks {
      DecideBreaks(h, u, ByTurnout, v);
    } else {
      DecideBreaks(h, u, ByTimeout, v);
    }
  }

  lemma {:induction false} DecideBreaks(h: Game, u: VoteId, how: Resolver, v: VoteId)
    requires h.ledger.Live(v) && u in h.ledger.heap && h.ledger.heap[u].color == h.ledger.heap[v].color
    requires HasRound(h.room) && Distinct(h.room.players) && |Standing(h.room.players, h.ledger.heap[v].color)| >= 3
    requires DecideVote(u, how) in h.tasks && (how == ByTimeout ==> TimeoutElects(h.ledger.heap[u]))
    ensures !StaysIndexed(h)
  {
    Elections.WinnerExists(h.ledger.heap[u].votes);
    var w :| Elected(h.ledger.heap[u].votes, w);
    var a := Run(DecideVote(u, how), w);
    var h' := h.(tasks := h.tasks - multiset{DecideVote(u, how)});
    var k := DecideStep(h', u, how, w);
    DecideLeads(h', u, how, w);
    QuietStepKeepsSeats(h, a);
    if ReleaseIndex(u) in k.tasks {
      ReleaseBreaks(k, u, v);
    } else {
      CandidatesExist(k.room, h.ledger.heap[u].color, h.ledger.heap[u].target);
      ElectBreaks(k, u, how, v);
    }
    StepBack(h, a);
  }

  lemma {:induction false} DecideLeads(g: Game, u: VoteId, how: Resolver, winner: string)
    requires u in g.ledger.heap && (how == ByTimeout ==> TimeoutElects(g.ledger.heap[u]))
    ensures var h := DecideStep(g, u, how, winner);
      h.ledger == g.ledger && (ReleaseIndex(u) in h.tasks || ElectLeader(u, how) in h.tasks)
  {
  }

  function Request(g: Game, c: RoomColor, initiator: Id, target: Id): Task
    requires RemovalSession(g.room, g.ledger, c, initiator, target).Ok?
  {
    FileVote(RemovalSession(g.room, g.ledger, c, initiator, target).value, IdsIn(g.room.players, c))
  }

  lemma RequestEffect(g: Game, c: RoomColor, initiator: Id, target: Id)
    requires RemovalSession(g.room, g.ledger, c, initiator, target).Ok?
    ensures Next(g, StartVote(c, initiator, target)) == g.(tasks := g.tasks + multiset{Request(g, c, initiator, target)})
    ensures var s := Request(g, c, initiator, target).session;
      s.kind == Removal && s.color == c && s.votes == map[] && s.status == Open
    ensures |Standing(g.room.players, c)| >= 3 && HasRound(g.room)
  {
  }

  lemma FileEffect(h: Game, t: Task, v: VoteId)
    requires t in h.tasks && t.FileVote? && v !in h.ledger.heap && v !in h.roll
    ensures Enabled(h, Run(t, v))
    ensures var k := Next(h, Run(t, v));
      && k.room == h.room && k.ledger == File(h.ledger, v, t.session)
      && k.tasks == h.tasks - multiset{t} + multiset{TimeoutVote(v)}
  {
  }

  /** Storing a session while the colour is claimed, or while another session of that colour is still to be stored,
      leads to a table that is wrong. */
  lemma {:induction false} FilingBreaks(h: Game, t: Task)
    requires t in h.tasks && t.FileVote? && t.session.status == Open
    requires HasRound(h.room) && Distinct(h.room.players) && |Standing(h.room.players, t.session.color)| >= 3
    requires Busy(h, t.session.color)
    ensures !StaysIndexed(h)
  {
    var v := FreshId(h.ledger.heap.Keys + h.roll.Keys);
    var a := Run(t, v);
    var k := Next(h, a);
    var u :| u in h.ledger.heap && h.ledger.heap[u].color == t.session.color && Touching(h, u);
    FileEffect(h, t, v);
    assert k.ledger.heap[u] == h.ledger.heap[u] && Touching(k, u);
    BusyBreaks(k, u, v);
    StepBack(h, a);
  }

  lemma {:induction false} TwoFilingsBreak(h: Game, t: Task, t': Task)
    requires t in h.tasks && t' in h.tasks - multiset{t} && t.FileVote? && t'.FileVote?
    requires t.session.status == Open && t'.session.status == Open && t.session.color == t'.session.color
    ensures !StaysIndexed(h)
  {
    var v := FreshId(h.ledger.heap.Keys + h.roll.Keys);
    var k := Next(h, Run(t, v));
    FileEffect(h, t, v);
    var w := FreshId(k.ledger.heap.Keys + k.roll.Keys);
    var m := Next(k, Run(t', w));
    FileEffect(k, t', w);
    assert m.ledger.Live(v) && m.ledger.Live(w) && v != w;
    NowWrong(m);
    StepBack(k, Run(t', w));
    StepBack(h, Run(t, v));
  }

  /** Accepting a removal request leaves the table right for ever exactly when no resolver of that room is still to
      write the table entry and no other request for it is on its way to the table.  The 7-second pause before an
      election is such a moment, and so is the gap between the check for an active vote and the storing of a new
      one; the source accepts a request at both. */
  lemma {:induction false} EarlyVoteIff(g: Game, c: RoomColor, initiator: Id, target: Id)
    requires IndexInv(g) && Distinct(g.room.players)
    requires RemovalSession(g.room, g.ledger, c, initiator, target).Ok?
    ensures StaysIndexed(Next(g, StartVote(c, initiator, target))) <==> !Busy(g, c) && !Filing(g, c)
  {
    var a := StartVote(c, initiator, target);
    var h := Next(g, a);
    var t := Request(g, c, initiator, target);
    RequestEffect(g, c, initiator, target);
    if Busy(g, c) {
      var u :| u in g.ledger.heap && g.ledger.heap[u].color == c && Touching(g, u);
      assert Touching(h, u);
      FilingBreaks(h, t);
    } else if Filing(g, c) {
      var t' :| t' in g.tasks && t'.FileVote? && t'.session.color == c;
      assert h.tasks - multiset{t} == g.tasks;
      TwoFilingsBreak(h, t, t');
    } else {
      StepKeepsIndex(g, a);
      forall acts | IsRun(h, acts, Patient) ensures IndexRight(After(h, acts).ledger) {
        IndexFrom(h, acts);
      }
    }
  }

  // ----- the early request happens -----

  lemma YesIsCast(g: Game, v: VoteId, voter: Id)
    requires OnceInv(g) && g.ledger.Live(v) && TimeoutVote(v) in g.tasks
    requires g.ledger.heap[v].kind == Removal && g.ledger.heap[v].votes == map[]
    ensures var h := Next(g, CastVote(v, voter, YES));
      && OnceAt(h, v) && h.ledger.Live(v) && TimeoutVote(v) in h.tasks && h.room == g.room
      && h.ledger.heap.Keys == g.ledger.heap.Keys && h.ledger.heap[v].kind == Removal
      && h.ledger.heap[v].color == g.ledger.heap[v].color && h.ledger.heap[v].votes == map[voter := YES]
  {
    StepKeepsOnce(g, CastVote(v, voter, YES));
    Turnout.CastEffect(g, v, voter, YES);
    assert Next(g, CastVote(v, voter, YES)) == CastStep(g, v, voter, YES);
  }

  lemma OneYesPasses(s: VoteView, voter: Id)
    requires s.votes == map[voter := YES]
    ensures PassesOnTimeout(s)
  {
    assert (set k | k in s.votes && s.votes[k] == YES) == {voter};
  }

  lemma TimeoutPasses(h: Game, v: VoteId)
    requires OnceAt(h, v) && h.ledger.Live(v) && TimeoutVote(v) in h.tasks
    requires h.ledger.heap[v].kind == Removal && PassesOnTimeout(h.ledger.heap[v])
    ensures IsRun(h, Race.Resolve(v, ByTimeout, ""), Patient)
    ensures var k := After(h, Race.Resolve(v, ByTimeout, ""));
      && k.room == h.room && k.ledger.heap.Keys == h.ledger.heap.Keys && !k.ledger.Live(v)
      && k.ledger.heap[v].color == h.ledger.heap[v].color && ElectLeader(v, ByTimeout) in k.tasks
  {
    Race.ResolveIsRun(h, v, ByTimeout, "", Patient);
  }

  /** A removal vote on which one player has voted YES times out. */
  lemma {:induction false} RemovalTimesOut(g: Game, v: VoteId, voter: Id) returns (acts: seq<Action>)
    requires OnceInv(g) && g.ledger.Live(v) && g.ledger.heap.Keys == {v} && TimeoutVote(v) in g.tasks
    requires g.ledger.heap[v].kind == Removal && g.ledger.heap[v].votes == map[]
    ensures IsRun(g, acts, Patient)
    ensures var h := After(g, acts);
      && h.room == g.room && h.ledger.heap.Keys == {v} && !h.ledger.Live(v)
      && h.ledger.heap[v].color == g.ledger.heap[v].color && ElectLeader(v, ByTimeout) in h.tasks
  {
    var cast := CastVote(v, voter, YES);
    YesIsCast(g, v, voter);
    OneYesPasses(Next(g, cast).ledger.heap[v], voter);
    TimeoutPasses(Next(g, cast), v);
    RunMore(g, cast, Race.Resolve(v, ByTimeout, ""), Patient);
    acts := [cast] + Race.Resolve(v, ByTimeout, "");
  }

  lemma RequestIsFiled(g: Game, c: RoomColor, initiator: Id, target: Id) returns (file: Action, v: VoteId)
    requires NoVotes(g) && g.ledger.index == map[]
    requires RemovalSession(g.room, g.ledger, c, initiator, target).Ok?
    ensures var request := StartVote(c, initiator, target);
      && Enabled(g, request) && Patient(g, request)
      && Enabled(Next(g, request), file) && Patient(Next(g, request), file)
    ensures var h := Next(Next(g, StartVote(c, initiator, target)), file);
      && h.room == g.room && h.ledger.Live(v) && h.ledger.heap.Keys == {v} && TimeoutVote(v) in h.tasks
      && h.ledger.heap[v] == RemovalSession(g.room, g.ledger, c, initiator, target).value
  {
    v := FreshId(g.roll.Keys);
    file := Run(Request(g, c, initiator, target), v);
    NoFilings(g, c);
    RequestEffect(g, c, initiator, target);
    FileEffect(Next(g, StartVote(c, initiator, target)), Request(g, c, initiator, target), v);
  }

  lemma NoFilings(g: Game, c: RoomColor)
    requires NoVotes(g)
    ensures !Filing(g, c) && !Busy(g, c)
  {
    assert forall t :: t in g.tasks ==> !VoteTask(t);
  }

  /** From any game in which a removal can be requested at all, a patient run leads to a state in which the source
      accepts a second request that corrupts the table: the first removal has passed, and its election has yet to
      begin. */
  lemma {:induction false} EarlyVoteHappens(g: Game, c: RoomColor, initiator: Id, target: Id) returns (acts: seq<Action>)
    requires NoVotes(g) && g.ledger.index == map[] && Distinct(g.room.players)
    requires RemovalSession(g.room, g.ledger, c, initiator, target).Ok?
    ensures IsRun(g, acts, Patient)
    ensures var h := After(g, acts);
      && RemovalSession(h.room, h.ledger, c, initiator, target).Ok?
      && !StaysIndexed(Next(h, StartVote(c, initiator, target)))
  {
    SessionShape(g.room, g.ledger, c, initiator, target);
    var request := StartVote(c, initiator, target);
    var file, v := RequestIsFiled(g, c, initiator, target);
    NoVotesIsIndexed(g);
    StepKeepsIndex(g, request);
    StepKeepsIndex(Next(g, request), file);
    var rest := RemovalTimesOut(Next(Next(g, request), file), v, initiator);
    RunTwoMore(g, request, file, rest, Patient);
    acts := [request] + ([file] + rest);
    IndexAlways(g, acts);
    ElectionDue(After(g, acts), v, c, initiator, target);
  }

  lemma SessionShape(r: RoomView, l: Ledger, c: RoomColor, initiator: Id, target: Id)
    requires RemovalSession(r, l, c, initiator, target).Ok?
    ensures var s := RemovalSession(r, l, c, initiator, target).value;
      s.kind == Removal && s.color == c && s.target == target && s.votes == map[]
    ensures RemovalSession(r, Ledger(map[], {}, map[]), c, initiator, target).Ok?
  {
  }

  lemma ElectionDue(h: Game, v: VoteId, c: RoomColor, initiator: Id, target: Id)
    requires IndexInv(h) && Distinct(h.room.players) && h.ledger.heap.Keys == {v} && !h.ledger.Live(v)
    requires h.ledger.heap[v].color == c && ElectLeader(v, ByTimeout) in h.tasks
    requires RemovalSession(h.room, Ledger(map[], {}, map[]), c, initiator, target).Ok?
    ensures RemovalSession(h.room, h.ledger, c, initiator, target).Ok?
    ensures !StaysIndexed(Next(h, StartVote(c, initiator, target)))
  {
    assert Touching(h, v) && Busy(h, c);
    assert !HasActiveVote(h.ledger, c);
    EarlyVoteIff(h, c, initiator, target);
  }

  /** So do two requests at the same time: both pass the check for an active vote before either is stored. */
  lemma TwoRequestsHappen(g: Game, c: RoomColor, initiator: Id, target: Id)
    requires NoVotes(g) && g.ledger.index == map[] && Distinct(g.room.players)
    requires RemovalSession(g.room, g.ledger, c, initiator, target).Ok?
    ensures var request := StartVote(c, initiator, target);
      && IsRun(g, [request], Patient)
      && RemovalSession(After(g, [request]).room, After(g, [request]).ledger, c, initiator, target).Ok?
      && !StaysIndexed(Next(After(g, [request]), request))
  {
    var request := StartVote(c, initiator, target);
    NoFilings(g, c);
    RequestEffect(g, c, initiator, target);
    RunOne(g, request, Patient);
    NoVotesIsIndexed(g);
    IndexAlways(g, [request]);
    var h := After(g, [request]);
    assert Request(g, c, initiator, target) in h.tasks && Filing(h, c);
    EarlyVoteIff(h, c, initiator, target);
  }
}
