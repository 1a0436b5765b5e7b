/**
 Assigning ready orders to agents: the Redis offers and claim locks, interleaved command by command
 with each other, with key expiry, with crashes and with every other transaction of the shard.
 */
module AssignmentRuns {
  import opened Types
  import opened OrderStatus
  import opened ShardState
  import opened OrderRuns

  type ThreadId = nat

  /** What a claim or an admin assignment is told; ClaimFailed stands for the error of its transaction. */
  datatype Reply =
    | Claimed | OfferNotFoundOrExpired | NotInCandidateList | OrderAlreadyClaimed | OrderNotInReadyState | ClaimFailed

  /** A committed claim, with the stay in `ready` it ended. */
  datatype Win = Win(order: OrderId, agent: AgentId, stay: nat, byOffer: bool)

  /**
   One request or tick in progress, named after the Redis or SQL command it runs next. A finished claim has its
   reply, and the win it committed if there is one.
   */
  datatype Thread =
    | ClaimReadsOffer(order: OrderId, agent: AgentId)
    | ClaimSetsLock(order: OrderId, agent: AgentId)
    | ClaimUpdates(order: OrderId, agent: AgentId, byOffer: bool)
    | DropsOffer(order: OrderId, won: Win)
    | DropsLock(order: OrderId, times: nat, why: Reply)
    | AdminSetsLock(order: OrderId, agent: AgentId)
    | RejectReadsOffer(order: OrderId, agent: AgentId)
    | RejectStores(order: OrderId, remaining: seq<AgentId>)
    | AssignChecksOffer(order: OrderId)
    | AssignSearches(order: OrderId)
    | AssignSetsOffer(order: OrderId, candidates: seq<AgentId>)
    | Finished(reply: Option<Reply>, win: Option<Win>)

  /** A list of candidates tryAssign stored as the offer of an order. */
  datatype Offer = Offer(order: OrderId, candidates: seq<AgentId>)

  datatype Sys = Sys(
    db: Db,
    offers: map<OrderId, seq<AgentId>>,   // offer:order:<id>
    claims: map<OrderId, AgentId>,        // claim:order:<id>
    threads: map<ThreadId, Thread>,
    broadcasts: seq<Offer>,               // every offer ever stored
    stays: map<OrderId, nat>,             // how often each order has entered `ready`
    wins: seq<Win>)

  datatype Action =
    | Begin(thread: ThreadId, start: Thread)
    | Advance(thread: ThreadId, found: seq<AgentId>, dbOk: bool)
    | Kill(thread: ThreadId)
    | ExpireOffer(order: OrderId)
    | ExpireClaim(order: OrderId)
    | Database(op: Op)

  predicate StartState(th: Thread) {
    th.ClaimReadsOffer? || th.AdminSetsLock? || th.RejectReadsOffer? || th.AssignChecksOffer?
  }

  function Start(t0: Time): Sys {
    Sys(EmptyShard(t0), map[], map[], map[], [], map[], [])
  }

  function Without(list: seq<AgentId>, a: AgentId): (r: seq<AgentId>)
    ensures forall x | x in r :: x in list && x != a
  {
    if list == [] then []
    else if list[0] == a then Without(list[1..], a)
    else [list[0]] + Without(list[1..], a)
  }

  function StayOf(s: Sys, o: OrderId): nat {
    if o in s.stays then s.stays[o] else 0
  }

  predicate EntersReady(before: Db, after: Db, o: OrderId) {
    HasStatus(after, o, Ready) && !HasStatus(before, o, Ready)
  }

  function CountStays(s: Sys, after: Db): map<OrderId, nat> {
    map o | o in after.orders :: StayOf(s, o) + if EntersReady(s.db, after, o) then 1 else 0
  }

  /**
   The next control state of a thread, given what its command sees; `found` is the geosearch, `dbOk` the
   transaction.
   */
  function NextThread(s: Sys, th: Thread, found: seq<AgentId>, dbOk: bool): Thread {
    match th
    case ClaimReadsOffer(o, a) =>
      if o !in s.offers then Finished(Some(OfferNotFoundOrExpired), None)
      else if a !in s.offers[o] then Finished(Some(NotInCandidateList), None)
      else ClaimSetsLock(o, a)
    case ClaimSetsLock(o, a) =>
      if o in s.claims then Finished(Some(OrderAlreadyClaimed), None) else ClaimUpdates(o, a, true)
    case AdminSetsLock(o, a) =>
      if o in s.claims then Finished(Some(OrderAlreadyClaimed), None) else ClaimUpdates(o, a, false)
    case ClaimUpdates(o, a, byOffer) =>
      if !dbOk then DropsLock(o, 1, ClaimFailed)
      else if o in s.db.orders && Claimable(s.db.orders[o]) then DropsOffer(o, Win(o, a, StayOf(s, o), byOffer))
      else DropsLock(o, 2, OrderNotInReadyState)
    case DropsOffer(o, w) => Finished(Some(Claimed), Some(w))
    case DropsLock(o, n, why) => if n <= 1 then Finished(Some(why), None) else DropsLock(o, n - 1, why)
    case RejectReadsOffer(o, a) =>
      if o in s.offers && a in s.offers[o] then RejectStores(o, Without(s.offers[o], a)) else Finished(None, None)
    case RejectStores(o, remaining) => Finished(None, None)
    case AssignChecksOffer(o) => if o in s.offers then Finished(None, None) else AssignSearches(o)
    case AssignSearches(o) => if found == [] then Finished(None, None) else AssignSetsOffer(o, found)
    case AssignSetsOffer(o, candidates) => Finished(None, None)
    case Finished(_, _) => th
  }

  function NextOffers(s: Sys, th: Thread): map<OrderId, seq<AgentId>> {
    match th
    case DropsOffer(o, _) => s.offers - {o}
    case RejectStores(o, remaining) => if remaining == [] then s.offers - {o} else s.offers[o := remaining]
    case AssignSetsOffer(o, candidates) => if o in s.offers then s.offers else s.offers[o := candidates]
    case _ => s.offers
  }

  function NextClaims(s: Sys, th: Thread): map<OrderId, AgentId> {
    match th
    case ClaimSetsLock(o, a) => if o in s.claims then s.claims else s.claims[o := a]
    case AdminSetsLock(o, a) => if o in s.claims then s.claims else s.claims[o := a]
    case DropsLock(o, _, _) => s.claims - {o}
    case _ => s.claims
  }

  predicate Wins(s: Sys, th: Thread, dbOk: bool) {
    th.ClaimUpdates? && dbOk && th.order in s.db.orders && Claimable(s.db.orders[th.order])
  }

  function AdvanceThread(s: Sys, t: ThreadId, found: seq<AgentId>, dbOk: bool): Sys
    requires t in s.threads
  {
    var th := s.threads[t];
    s.(threads := s.threads[t := NextThread(s, th, found, dbOk)],
       offers := NextOffers(s, th),
       claims := NextClaims(s, th),
       broadcasts := if th.AssignSetsOffer? && th.order !in s.offers
                     then s.broadcasts + [Offer(th.order, th.candidates)] else s.broadcasts,
       db := if Wins(s, th, dbOk) then ClaimReady(s.db, th.order, th.agent) else s.db,
       wins := if Wins(s, th, dbOk) then s.wins + [Win(th.order, th.agent, StayOf(s, th.order), th.byOffer)]
         else s.wins)
  }

  /**
   Orders are claimed only through threads; every other transaction may commit at any point. A process may die
   until it has answered.
   */
  function Step(s: Sys, a: Action): Sys {
    match a
    case Begin(t, start) => if t in s.threads || !StartState(start) then s else s.(threads := s.threads[t := start])
    case Advance(t, found, dbOk) => if t in s.threads then AdvanceThread(s, t, found, dbOk) else s
    case Kill(t) => if t in s.threads && s.threads[t].Finished? then s else s.(threads := s.threads - {t})
    case ExpireOffer(o) => s.(offers := s.offers - {o})
    case ExpireClaim(o) => s.(claims := s.claims - {o})
    case Database(op) => if op.OpClaim? then s else s.(db := Apply(s.db, op), stays := CountStays(s, Apply(s.db, op)))
  }

  function Exec(t0: Time, actions: seq<Action>): Sys {
    if actions == [] then Start(t0) else Step(Exec(t0, actions[..|actions| - 1]), actions[|actions| - 1])
  }

  /* ---- the database sees a run of transactions ---- */

  /** The transaction a step commits, if any. */
  function Committed(s: Sys, a: Action): seq<Op> {
    match a
    case Advance(t, found, dbOk) =>
      if t in s.threads && Wins(s, s.threads[t], dbOk) then [OpClaim(s.threads[t].order, s.threads[t].agent)] else []
    case Database(op) => if op.OpClaim? then [] else [op]
    case _ => []
  }

  function Trace(t0: Time, actions: seq<Action>): seq<Op> {
    if actions == [] then []
    else
      var prior := actions[..|actions| - 1];
      Trace(t0, prior) + Committed(Exec(t0, prior), actions[|actions| - 1])
  }

  lemma StepCommits(s: Sys, a: Action)
    ensures |Committed(s, a)| <= 1
    ensures Step(s, a).db == if Committed(s, a) == [] then s.db else Apply(s.db, Committed(s, a)[0])
  {
  }

  /**
   However its threads interleave, the system's database is a run of the shard, so every theorem on runs
   applies to it.
   */
  lemma {:induction false} ProjectsToRun(t0: Time, actions: seq<Action>)
    ensures Exec(t0, actions).db == Run(t0, Trace(t0, actions))
  {
    if actions != [] {
      var prior, a := actions[..|actions| - 1], actions[|actions| - 1];
      ProjectsToRun(t0, prior);
      StepCommits(Exec(t0, prior), a);
      ExtendRun(t0, Trace(t0, prior), Committed(Exec(t0, prior), a));
    }
  }

  lemma ExtendRun(t0: Time, ops: seq<Op>, more: seq<Op>)
    requires |more| <= 1
    ensures Run(t0, ops + more) == if more == [] then Run(t0, ops) else Apply(Run(t0, ops), more[0])
  {
    if more == [] {
      assert ops + more == ops;
    } else {
      assert more == [more[0]];
      RunExtend(t0, ops, more[0]);
    }
  }

  /* ---- claims only win for offered agents ---- */

  ghost predicate WasOffered(s: Sys, o: OrderId, a: AgentId) {
    exists i | 0 <= i < |s.broadcasts| :: s.broadcasts[i].order == o && a in s.broadcasts[i].candidates
  }

  ghost predicate ThreadOffered(s: Sys, th: Thread) {
    match th
    case ClaimSetsLock(o, a) => WasOffered(s, o, a)
    case ClaimUpdates(o, a, byOffer) => byOffer ==> WasOffered(s, o, a)
    case RejectStores(o, remaining) => forall a | a in remaining :: WasOffered(s, o, a)
    case _ => true
  }

  ghost predicate OffersOk(s: Sys) {
    && (forall o, a | o in s.offers && a in s.offers[o] :: WasOffered(s, o, a))
    && (forall t | t in s.threads :: ThreadOffered(s, s.threads[t]))
    && (forall i | 0 <= i < |s.wins| && s.wins[i].byOffer :: WasOffered(s, s.wins[i].order, s.wins[i].agent))
  }

  lemma OfferedStays(s: Sys, a: Action, o: OrderId, agent: AgentId)
    requires WasOffered(s, o, agent)
    ensures WasOffered(Step(s, a), o, agent)
  {
    var i :| 0 <= i < |s.broadcasts| && s.broadcasts[i].order == o && agent in s.broadcasts[i].candidates;
    assert Step(s, a).broadcasts[i] == s.broadcasts[i];
  }

  lemma OffersOkAdvance(s: Sys, t: ThreadId, found: seq<AgentId>, dbOk: bool)
    requires OffersOk(s) && t in s.threads
    ensures OffersOk(AdvanceThread(s, t, found, dbOk))
  {
    var after, th := AdvanceThread(s, t, found, dbOk), s.threads[t];
    assert ThreadOffered(s, th);
    forall o, a | WasOffered(s, o, a) ensures WasOffered(after, o, a) {
      OfferedStays(s, Advance(t, found, dbOk), o, a);
    }
    forall o, a | o in after.offers && a in after.offers[o] ensures WasOffered(after, o, a) {
      if th.AssignSetsOffer? && th.order == o && o !in s.offers {
        assert after.broadcasts[|s.broadcasts|] == Offer(o, th.candidates);
      }
    }
  }

  /**
   Every agent that wins through claim is on a list tryAssign offered for that order; reject only ever shortens
   one.
   */
  lemma {:induction false} WinnersWereOffered(t0: Time, actions: seq<Action>)
    ensures OffersOk(Exec(t0, actions))
  {
    if actions != [] {
      var prior, a := actions[..|actions| - 1], actions[|actions| - 1];
      WinnersWereOffered(t0, prior);
      OffersOkStep(Exec(t0, prior), a);
    }
  }

  lemma OffersOkStep(s: Sys, a: Action)
    requires OffersOk(s)
    ensures OffersOk(Step(s, a))
  {
    if a.Advance? && a.thread in s.threads {
      OffersOkAdvance(s, a.thread, a.found, a.dbOk);
    } else {
      forall o, agent | WasOffered(s, o, agent) ensures WasOffered(Step(s, a), o, agent) {
        OfferedStays(s, a, o, agent);
      }
    }
  }

  /* ---- one winner per stay in ready ---- */

  predicate Held(db: Db, o: OrderId) {
    o in db.orders && db.orders[o].agent.Some?
  }

  /** Wins are recorded for known orders, in stay order, and a ready order's current stay has none yet. */
  ghost predicate WinsOrdered(s: Sys) {
    && (forall i | 0 <= i < |s.wins| :: WinOk(s, s.wins[i]))
    && (forall i, j | 0 <= i < j < |s.wins| && s.wins[i].order == s.wins[j].order :: s.wins[i].stay < s.wins[j].stay)
  }

  predicate WinOk(s: Sys, w: Win) {
    && w.order in s.db.orders
    && (if s.db.orders[w.order].status == Ready then w.stay < StayOf(s, w.order) else w.stay <= StayOf(s, w.order))
  }

  ghost predicate HoldersWon(s: Sys) {
    forall o | Held(s.db, o) :: HeldByWinner(s, o)
  }

  ghost predicate WinsOk(s: Sys) {
    OrdersOk(s.db) && WinsOrdered(s) && HoldersWon(s)
  }

  /** The agent on an order is the one that won its current stay. */
  ghost predicate HeldByWinner(s: Sys, o: OrderId)
    requires Held(s.db, o)
  {
    exists i | 0 <= i < |s.wins| ::
      s.wins[i].order == o && s.wins[i].stay == StayOf(s, o) && Some(s.wins[i].agent) == s.db.orders[o].agent
  }

  /** What a winning claim changes: the order goes to its agent, and the win is recorded for the stay it ends. */
  lemma WinEffect(s: Sys, t: ThreadId, found: seq<AgentId>, dbOk: bool)
    requires t in s.threads && Wins(s, s.threads[t], dbOk)
    ensures var after, o, a := AdvanceThread(s, t, found, dbOk), s.threads[t].order, s.threads[t].agent;
            && o in s.db.orders && s.db.orders[o].status == Ready
            && after.stays == s.stays
            && after.wins == s.wins + [Win(o, a, StayOf(s, o), s.threads[t].byOffer)]
            && after.db == Apply(s.db, OpClaim(o, a))
            && after.db.orders == s.db.orders[o := after.db.orders[o]]
            && after.db.orders[o].status == Assigned && after.db.orders[o].agent == Some(a)
  {
  }

  lemma NoWinEffect(s: Sys, t: ThreadId, found: seq<AgentId>, dbOk: bool)
    requires t in s.threads && !Wins(s, s.threads[t], dbOk)
    ensures var after := AdvanceThread(s, t, found, dbOk);
            after.stays == s.stays && after.wins == s.wins && after.db == s.db
  {
  }

  predicate Records(s: Sys, after: Sys, o: OrderId, a: AgentId, byOffer: bool) {
    && HasStatus(s.db, o, Ready) && o in after.db.orders
    && after.stays == s.stays && after.wins == s.wins + [Win(o, a, StayOf(s, o), byOffer)]
    && after.db.orders == s.db.orders[o := after.db.orders[o]]
    && after.db.orders[o].status == Assigned && after.db.orders[o].agent == Some(a)
  }

  /** Recording a win for the current stay of a ready order keeps the wins in order, one per stay. */
  lemma WinRecorded(s: Sys, after: Sys, o: OrderId, a: AgentId, byOffer: bool)
    requires WinsOrdered(s) && Records(s, after, o, a, byOffer)
    ensures WinsOrdered(after)
  {
    forall i | 0 <= i < |after.wins| ensures WinOk(after, after.wins[i]) {
      if i < |s.wins| { assert WinOk(s, s.wins[i]); }
    }
    forall i | 0 <= i < |s.wins| && s.wins[i].order == o ensures s.wins[i].stay < StayOf(s, o) {
      assert WinOk(s, s.wins[i]);
    }
  }

  lemma WinnerHolds(s: Sys, after: Sys, o: OrderId, a: AgentId, byOffer: bool)
    requires HoldersWon(s) && Records(s, after, o, a, byOffer)
    ensures HoldersWon(after)
  {
    forall p | Held(after.db, p) ensures HeldByWinner(after, p) {
      if p == o {
        assert after.wins[|s.wins|].order == p;
      } else {
        assert Held(s.db, p) && HeldByWinner(s, p);
        HolderKept(s, after, p);
      }
    }
  }

  lemma HolderKept(s: Sys, after: Sys, o: OrderId)
    requires Held(s.db, o) && HeldByWinner(s, o)
    requires Held(after.db, o) && after.db.orders[o].agent == s.db.orders[o].agent
    requires StayOf(after, o) == StayOf(s, o) && |s.wins| <= |after.wins| && after.wins[..|s.wins|] == s.wins
    ensures HeldByWinner(after, o)
  {
    var i :| 0 <= i < |s.wins| && s.wins[i].order == o && s.wins[i].stay == StayOf(s, o)
      && Some(s.wins[i].agent) == s.db.orders[o].agent;
    assert after.wins[i] == s.wins[i];
  }

  lemma WinsOkAdvance(s: Sys, t: ThreadId, found: seq<AgentId>, dbOk: bool)
    requires WinsOk(s) && t in s.threads
    ensures WinsOk(AdvanceThread(s, t, found, dbOk))
  {
    var after, th := AdvanceThread(s, t, found, dbOk), s.threads[t];
    if Wins(s, th, dbOk) {
      WinEffect(s, t, found, dbOk);
      OrdersOkStep(s.db, OpClaim(th.order, th.agent));
      WinRecorded(s, after, th.order, th.agent, th.byOffer);
      WinnerHolds(s, after, th.order, th.agent, th.byOffer);
    } else {
      NoWinEffect(s, t, found, dbOk);
      Unchanged(s, after);
    }
  }

  lemma Unchanged(s: Sys, after: Sys)
    requires WinsOk(s) && after.db == s.db && after.stays == s.stays && after.wins == s.wins
    ensures WinsOk(after)
  {
    forall o | Held(after.db, o) ensures HeldByWinner(after, o) {
      assert HeldByWinner(s, o);
      HolderKept(s, after, o);
    }
  }

  /** A transaction other than a claim never gives an order an agent, and takes one away only by entering ready. */
  lemma AgentStep(db: Db, op: Op, o: OrderId)
    requires OrdersOk(db) && !op.OpClaim?
    ensures o in db.orders ==> o in Apply(db, op).orders
    ensures Held(Apply(db, op), o) ==> Held(db, o) && Apply(db, op).orders[o].agent == db.orders[o].agent
    ensures Held(Apply(db, op), o) ==> !EntersReady(db, Apply(db, op), o)
  {
    if o in db.orders {
      assert RowOk(db.orders[o], db.now);
      StepRow(db, op, o);
      RowOkKept(db.orders[o], Apply(db, op).orders[o], op, db.now);
    } else if o in Apply(db, op).orders {
      StepNewRow(db, op, o);
    }
  }

  /** What a transaction other than a claim means for one order's stay and holder. */
  predicate StayKept(s: Sys, after: Sys, o: OrderId) {
    && (o in s.db.orders ==> o in after.db.orders)
    && (o in after.db.orders ==> StayOf(after, o) == StayOf(s, o) + if EntersReady(s.db, after.db, o) then 1 else 0)
    && (Held(after.db, o) ==>
          Held(s.db, o) && after.db.orders[o].agent == s.db.orders[o].agent && StayOf(after, o) == StayOf(s, o))
  }

  lemma StayCounted(s: Sys, after: Db, o: OrderId)
    requires o in after.orders
    ensures CountStays(s, after)[o] == StayOf(s, o) + if EntersReady(s.db, after, o) then 1 else 0
  {
  }

  lemma DatabaseStay(s: Sys, after: Sys, op: Op, o: OrderId)
    requires OrdersOk(s.db) && !op.OpClaim?
    requires after.db == Apply(s.db, op) && after.stays == CountStays(s, after.db)
    ensures StayKept(s, after, o)
  {
    AgentStep(s.db, op, o);
    if o in after.db.orders {
      StayCounted(s, after.db, o);
    }
  }

  lemma WinsOkDatabase(s: Sys, op: Op)
    requires WinsOk(s) && !op.OpClaim?
    ensures WinsOk(Step(s, Database(op)))
  {
    var after := Step(s, Database(op));
    OrdersOkStep(s.db, op);
    forall o ensures StayKept(s, after, o) { DatabaseStay(s, after, op, o); }
    OrderedAfter(s, after);
    HoldersAfter(s, after);
  }

  lemma OrderedAfter(s: Sys, after: Sys)
    requires WinsOrdered(s) && after.wins == s.wins && forall o :: StayKept(s, after, o)
    ensures WinsOrdered(after)
  {
    forall i | 0 <= i < |s.wins| ensures WinOk(after, s.wins[i]) {
      assert WinOk(s, s.wins[i]) && StayKept(s, after, s.wins[i].order);
    }
  }

  lemma HoldersAfter(s: Sys, after: Sys)
    requires HoldersWon(s) && after.wins == s.wins && forall o :: StayKept(s, after, o)
    ensures HoldersWon(after)
  {
    forall o | Held(after.db, o) ensures HeldByWinner(after, o) {
      assert StayKept(s, after, o) && HeldByWinner(s, o);
      HolderKept(s, after, o);
    }
  }

  lemma {:induction false} RunKeepsWins(t0: Time, actions: seq<Action>)
    ensures WinsOk(Exec(t0, actions))
  {
    if actions != [] {
      var prior, a := actions[..|actions| - 1], actions[|actions| - 1];
      RunKeepsWins(t0, prior);
      WinsOkStep(Exec(t0, prior), a);
    }
  }

  lemma WinsOkStep(s: Sys, a: Action)
    requires WinsOk(s)
    ensures WinsOk(Step(s, a))
  {
    match a
    case Advance(t, found, dbOk) => if t in s.threads { WinsOkAdvance(s, t, found, dbOk); }
    case Database(op) => if !op.OpClaim? { WinsOkDatabase(s, op); }
    case _ => Unchanged(s, Step(s, a));
  }

  /**
   Single winner: for any interleaving of claims, admin assignments, releases and everything else, with
   claim and offer keys vanishing at any time, each stay of an order in ready ends in at most one claim.
   */
  lemma SingleWinner(t0: Time, actions: seq<Action>, i: nat, j: nat)
    requires var w := Exec(t0, actions).wins;
             i < |w| && j < |w| && w[i].order == w[j].order && w[i].stay == w[j].stay
    ensures i == j
  {
    RunKeepsWins(t0, actions);
  }

  /** Whoever holds an order won its current stay, and a winner through claim had been offered the order. */
  lemma HolderWonItsStay(t0: Time, actions: seq<Action>, o: OrderId)
    requires Held(Exec(t0, actions).db, o)
    ensures WonAndOffered(Exec(t0, actions), o)
  {
    RunKeepsWins(t0, actions);
    WinnersWereOffered(t0, actions);
    HolderOffered(Exec(t0, actions), o);
  }

  ghost predicate WonAndOffered(s: Sys, o: OrderId)
    requires Held(s.db, o)
  {
    exists i | 0 <= i < |s.wins| ::
      && s.wins[i].order == o && s.wins[i].stay == StayOf(s, o)
      && s.db.orders[o].agent == Some(s.wins[i].agent)
      && (s.wins[i].byOffer ==> WasOffered(s, o, s.wins[i].agent))
  }

  lemma HolderOffered(s: Sys, o: OrderId)
    requires WinsOk(s) && OffersOk(s) && Held(s.db, o)
    ensures WonAndOffered(s, o)
  {
    assert HeldByWinner(s, o);
    var i :| 0 <= i < |s.wins| && s.wins[i].order == o && s.wins[i].stay == StayOf(s, o)
      && Some(s.wins[i].agent) == s.db.orders[o].agent;
    assert s.wins[i].byOffer ==> WasOffered(s, s.wins[i].order, s.wins[i].agent);
  }

  /* ---- the replies ---- */

  predicate AnsweredClaimed(s: Sys, t: ThreadId) {
    t in s.threads && s.threads[t].Finished? && s.threads[t].reply == Some(Claimed)
  }

  /** The win a thread will answer for or has answered for. */
  function Own(th: Thread): Option<Win> {
    match th
    case DropsOffer(_, w) => Some(w)
    case Finished(_, w) => w
    case _ => None
  }

  predicate AnswerOk(s: Sys, th: Thread) {
    && (Own(th).Some? ==> Own(th).value in s.wins)
    && (th.Finished? ==> (th.reply == Some(Claimed) <==> th.win.Some?))
    && (th.DropsLock? ==> th.why != Claimed)
  }

  /** Every thread that is told it claimed the order has a win, and no two threads have the same. */
  ghost predicate AnswersOk(s: Sys) {
    && (forall t | t in s.threads :: AnswerOk(s, s.threads[t]))
    && (forall t, u | t in s.threads && u in s.threads && t != u && Own(s.threads[t]).Some? ::
          Own(s.threads[t]) != Own(s.threads[u]))
  }

  lemma AnswersOkAdvance(s: Sys, t: ThreadId, found: seq<AgentId>, dbOk: bool)
    requires WinsOk(s) && AnswersOk(s) && t in s.threads
    ensures AnswersOk(AdvanceThread(s, t, found, dbOk))
  {
    var after, th := AdvanceThread(s, t, found, dbOk), s.threads[t];
    assert AnswerOk(s, th);
    NextAnswer(s, t, found, dbOk);
    forall u | u in after.threads && u != t
      ensures AnswerOk(after, after.threads[u]) && (Own(after.threads[u]).Some? ==>
                Own(after.threads[u]) != Own(after.threads[t]))
    {
      assert AnswerOk(s, s.threads[u]) && after.threads[u] == s.threads[u];
    }
  }

  /** A thread keeps the win it has, or comes by the one it has just committed, which nobody else has. */
  lemma NextAnswer(s: Sys, t: ThreadId, found: seq<AgentId>, dbOk: bool)
    requires WinsOk(s) && t in s.threads && AnswerOk(s, s.threads[t])
    ensures var after := AdvanceThread(s, t, found, dbOk);
            && AnswerOk(after, after.threads[t]) && s.wins <= after.wins
            && (Own(after.threads[t]).Some? ==>
                  Own(after.threads[t]) == Own(s.threads[t]) || Own(after.threads[t]).value !in s.wins)
  {
    var after, th := AdvanceThread(s, t, found, dbOk), s.threads[t];
    if Wins(s, th, dbOk) {
      var w := Win(th.order, th.agent, StayOf(s, th.order), th.byOffer);
      assert after.wins == s.wins + [w];
      NoWinYet(s, w);
    }
  }

  /** No win is recorded yet for the current stay of an order that is ready. */
  lemma NoWinYet(s: Sys, w: Win)
    requires WinsOrdered(s) && HasStatus(s.db, w.order, Ready) && w.stay == StayOf(s, w.order)
    ensures w !in s.wins
  {
    forall i | 0 <= i < |s.wins| ensures s.wins[i] != w { assert WinOk(s, s.wins[i]); }
  }

  lemma AnswersOkStep(s: Sys, a: Action)
    requires WinsOk(s) && AnswersOk(s)
    ensures AnswersOk(Step(s, a))
  {
    match a
    case Advance(t, found, dbOk) => if t in s.threads { AnswersOkAdvance(s, t, found, dbOk); }
    case _ => AnswersKept(s, Step(s, a));
  }

  /** A thread that is unchanged or has just begun answers for nothing new. */
  lemma AnswersKept(s: Sys, after: Sys)
    requires AnswersOk(s) && after.wins == s.wins
    requires forall t | t in after.threads ::
               (t in s.threads && after.threads[t] == s.threads[t]) || StartState(after.threads[t])
    ensures AnswersOk(after)
  {
    forall t | t in after.threads ensures AnswerOk(after, after.threads[t]) {
      if t in s.threads { assert AnswerOk(s, s.threads[t]); }
    }
  }

  lemma {:induction false} RunKeepsAnswers(t0: Time, actions: seq<Action>)
    ensures AnswersOk(Exec(t0, actions))
  {
    if actions != [] {
      var prior, a := actions[..|actions| - 1], actions[|actions| - 1];
      RunKeepsAnswers(t0, prior);
      RunKeepsWins(t0, prior);
      AnswersOkStep(Exec(t0, prior), a);
    }
  }

  /** The thread has a win, it holds the order as long as that stay is the last, and no other thread was told so. */
  ghost predicate AnsweredAlone(s: Sys, t: ThreadId)
    requires AnsweredClaimed(s, t)
  {
    s.threads[t].win.Some? &&
    var w := s.threads[t].win.value;
    && w in s.wins
    && (Held(s.db, w.order) && StayOf(s, w.order) == w.stay ==> s.db.orders[w.order].agent == Some(w.agent))
    && forall u | AnsweredClaimed(s, u) && u != t ::
         s.threads[u].win.Some? &&
         !(s.threads[u].win.value.order == w.order && s.threads[u].win.value.stay == w.stay)
  }

  /**
   Whoever is answered Claimed did win the order, in a stay of its own: in one stay of an order in ready at most
   one request is answered Claimed, and while that stay is the order's last its holder is the agent answered.
   */
  lemma OneAnswered(t0: Time, actions: seq<Action>, t: ThreadId)
    requires AnsweredClaimed(Exec(t0, actions), t)
    ensures AnsweredAlone(Exec(t0, actions), t)
  {
    RunKeepsAnswers(t0, actions);
    RunKeepsWins(t0, actions);
    AnswerIsOwn(Exec(t0, actions), t);
  }

  lemma SameStaySameWin(s: Sys, v: Win, w: Win)
    requires WinsOk(s) && v in s.wins && w in s.wins && v.order == w.order && v.stay == w.stay
    ensures v == w
  {
    var i :| 0 <= i < |s.wins| && s.wins[i] == v;
    var j :| 0 <= j < |s.wins| && s.wins[j] == w;
    assert s.wins[i].order == s.wins[j].order;
  }

  lemma HolderIsWinner(s: Sys, w: Win)
    requires WinsOk(s) && w in s.wins && Held(s.db, w.order) && StayOf(s, w.order) == w.stay
    ensures s.db.orders[w.order].agent == Some(w.agent)
  {
    assert HeldByWinner(s, w.order);
    var i :| 0 <= i < |s.wins| && s.wins[i].order == w.order && s.wins[i].stay == StayOf(s, w.order)
      && Some(s.wins[i].agent) == s.db.orders[w.order].agent;
    SameStaySameWin(s, s.wins[i], w);
  }

  lemma NotBothAnswered(s: Sys, t: ThreadId, u: ThreadId)
    requires WinsOk(s) && AnswersOk(s) && AnsweredClaimed(s, t) && AnsweredClaimed(s, u) && u != t
    ensures s.threads[t].win.Some? && s.threads[u].win.Some?
    ensures s.threads[u].win.value.order == s.threads[t].win.value.order ==>
              s.threads[u].win.value.stay != s.threads[t].win.value.stay
  {
    assert AnswerOk(s, s.threads[t]) && AnswerOk(s, s.threads[u]);
    var v, w := s.threads[u].win.value, s.threads[t].win.value;
    if v.order == w.order && v.stay == w.stay { SameStaySameWin(s, v, w); }
  }

  lemma AnswerIsOwn(s: Sys, t: ThreadId)
    requires WinsOk(s) && AnswersOk(s) && AnsweredClaimed(s, t)
    ensures AnsweredAlone(s, t)
  {
    assert AnswerOk(s, s.threads[t]);
    var w := s.threads[t].win.value;
    if Held(s.db, w.order) && StayOf(s, w.order) == w.stay { HolderIsWinner(s, w); }
    forall u | AnsweredClaimed(s, u) && u != t
      ensures s.threads[u].win.Some? &&
              !(s.threads[u].win.value.order == w.order && s.threads[u].win.value.stay == w.stay)
    {
      NotBothAnswered(s, t, u);
    }
  }
}
