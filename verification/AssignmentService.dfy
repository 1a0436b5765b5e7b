/**
 Offering and claiming one order, as the assignment service writes it against Redis and the shard. Each
 call is proved against what it does when nothing interleaves with it, and that is what the interleaved
 machine does too when one of its threads runs alone.
 */
module AssignmentService {
  import opened Types
  import opened ShardState
  import opened Repositories
  import opened AssignmentRuns

  type Offers = map<OrderId, seq<AgentId>>
  type Claims = map<OrderId, AgentId>

  /** The Redis keys of one region that assignment reads and writes. */
  class Cache {
    var offers: Offers
    var claims: Claims
    var attempts: map<OrderId, nat>
    var online: set<AgentId>       // agents whose presence:meta key has not expired
    var busy: set<AgentId>         // presence:busy

    constructor ()
      ensures offers == map[] && claims == map[] && attempts == map[] && online == {} && busy == {}
    {
      offers, claims, attempts, online, busy := map[], map[], map[], {}, {};
    }

    /** SET NX: false when the key is already there. */
    method TrySetClaim(o: OrderId, a: AgentId) returns (ok: bool)
      modifies `claims
      ensures ok <==> o !in old(claims)
      ensures claims == if ok then old(claims)[o := a] else old(claims)
    {
      ok := o !in claims;
      if ok {
        claims := claims[o := a];
      }
    }

    method TrySetOffer(o: OrderId, candidates: seq<AgentId>) returns (ok: bool)
      modifies `offers
      ensures ok <==> o !in old(offers)
      ensures offers == if ok then old(offers)[o := candidates] else old(offers)
    {
      ok := o !in offers;
      if ok {
        offers := offers[o := candidates];
      }
    }

    method CountAttempt(o: OrderId)
      modifies `attempts
      ensures attempts == old(attempts)[o := AttemptsOf(old(attempts), o) + 1]
    {
      attempts := attempts[o := AttemptsOf(attempts, o) + 1];
    }
  }

  function AttemptsOf(attempts: map<OrderId, nat>, o: OrderId): nat {
    if o in attempts then attempts[o] else 0
  }

  /* ---- candidates ---- */

  /** The agents of a list that are online and not busy, in the list's order. */
  function Eligible(raw: seq<AgentId>, online: set<AgentId>, busy: set<AgentId>): seq<AgentId> {
    if raw == [] then []
    else
      var last := raw[|raw| - 1];
      Eligible(raw[..|raw| - 1], online, busy) + if last in online && last !in busy then [last] else []
  }

  /** `at` lists, in order, where the eligible agents stand. */
  ghost predicate Picks(raw: seq<AgentId>, online: set<AgentId>, busy: set<AgentId>, at: seq<nat>) {
    && (forall i | 0 <= i < |at| :: at[i] < |raw| && raw[at[i]] in online && raw[at[i]] !in busy)
    && (forall i, j | 0 <= i < j < |at| :: at[i] < at[j])
    && (forall k | 0 <= k < |raw| && raw[k] in online && raw[k] !in busy :: k in at)
  }

  /** The agents at those places. */
  predicate Found(raw: seq<AgentId>, at: seq<nat>, kept: seq<AgentId>) {
    |at| == |kept| && forall i | 0 <= i < |at| :: at[i] < |raw| && raw[at[i]] == kept[i]
  }

  /** The agents kept are exactly the eligible ones, in the order the search returned them. */
  lemma {:induction false} EligibleKeepsOrder(raw: seq<AgentId>, online: set<AgentId>, busy: set<AgentId>)
      returns (at: seq<nat>)
    ensures Picks(raw, online, busy, at) && Found(raw, at, Eligible(raw, online, busy))
  {
    if raw == [] {
      return [];
    }
    var init, last := raw[..|raw| - 1], raw[|raw| - 1];
    assert raw == init + [last];
    var before := EligibleKeepsOrder(init, online, busy);
    at := OneMore(init, last, online, busy, before, Eligible(init, online, busy));
  }

  lemma OneMore(init: seq<AgentId>, last: AgentId, online: set<AgentId>, busy: set<AgentId>, before: seq<nat>,
      kept: seq<AgentId>)
    returns (at: seq<nat>)
    requires Picks(init, online, busy, before) && Found(init, before, kept)
    ensures Picks(init + [last], online, busy, at)
    ensures Found(init + [last], at, kept + if last in online && last !in busy then [last] else [])
  {
    if last in online && last !in busy {
      at := before + [|init|];
      OneKept(init, last, online, busy, before);
    } else {
      at := before;
      OneSkipped(init, last, online, busy, before);
      assert kept + [] == kept;
    }
  }

  lemma OneKept(init: seq<AgentId>, last: AgentId, online: set<AgentId>, busy: set<AgentId>, before: seq<nat>)
    requires Picks(init, online, busy, before) && last in online && last !in busy
    ensures Picks(init + [last], online, busy, before + [|init|])
  {
    var raw, at := init + [last], before + [|init|];
    forall k | 0 <= k < |raw| && raw[k] in online && raw[k] !in busy ensures k in at {
      if k < |init| { assert k in before; } else { assert at[|before|] == k; }
    }
  }

  lemma OneSkipped(init: seq<AgentId>, last: AgentId, online: set<AgentId>, busy: set<AgentId>, before: seq<nat>)
    requires Picks(init, online, busy, before) && (last !in online || last in busy)
    ensures Picks(init + [last], online, busy, before)
  {
    var raw := init + [last];
    forall k | 0 <= k < |raw| && raw[k] in online && raw[k] !in busy ensures k in before {
      assert raw[k] == init[k];
    }
  }

  lemma {:induction false} EligiblePrefix(raw: seq<AgentId>, n: nat, online: set<AgentId>, busy: set<AgentId>)
    requires n <= |raw|
    ensures |Eligible(raw[..n], online, busy)| <= |Eligible(raw, online, busy)|
    ensures Eligible(raw, online, busy)[..|Eligible(raw[..n], online, busy)|] == Eligible(raw[..n], online, busy)
  {
    if n == |raw| {
      assert raw[..n] == raw;
    } else {
      assert raw[..|raw| - 1][..n] == raw[..n];
      EligiblePrefix(raw[..|raw| - 1], n, online, busy);
    }
  }

  function AtLeastOne(limit: int): nat {
    if limit < 1 then 1 else limit
  }

  /** The front of the eligible agents: all of them or as many as the limit lets in. */
  predicate Nearest(all: seq<AgentId>, limit: int, result: seq<AgentId>) {
    && result <= all && (all != [] ==> result != [])
    && (limit >= 1 ==> |result| == if |all| < limit then |all| else limit)
    && (limit < 1 ==> |result| <= 1)
  }

  /**
   The nearest eligible agents, at most `limit` of them; the limit is looked at after the push, so a limit
   below one lets one in.
   */
  method FindCandidates(raw: seq<AgentId>, online: set<AgentId>, busy: set<AgentId>, limit: int)
      returns (result: seq<AgentId>)
    ensures Nearest(Eligible(raw, online, busy), limit, result)
  {
    result := [];
    var i := 0;
    while i < |raw|
      invariant i <= |raw| && result == Eligible(raw[..i], online, busy)
      invariant |result| < AtLeastOne(limit)
    {
      assert raw[..i + 1][..i] == raw[..i];
      var agent := raw[i];
      i := i + 1;
      if agent !in online || agent in busy { continue; }
      result := result + [agent];
      if |result| >= limit { break; }
    }
    EligiblePrefix(raw, i, online, busy);
    assert raw[..|raw|] == raw;
  }

  /* ---- offering ---- */

  datatype AssignResult = Offered | Skipped | Exhausted | NoCandidates

  /**
   An order with a live offer or too many attempts is left alone; otherwise an attempt is counted, and an offer
   stored if anyone can take it.
   */
  method TryAssign(cache: Cache, o: OrderId, raw: seq<AgentId>, limit: int, maxAttempts: nat) returns (r: AssignResult)
    modifies cache`offers, cache`attempts
    ensures var n := if o in old(cache.attempts) then old(cache.attempts)[o] else 0;
            && r == (if o in old(cache.offers) then Skipped
                     else if n >= maxAttempts then Exhausted
                     else if Eligible(raw, cache.online, cache.busy) == [] then NoCandidates
                     else Offered)
            && cache.attempts == (if r == Offered || r == NoCandidates then old(cache.attempts)[o := n + 1]
                                  else old(cache.attempts))
    ensures r != Offered ==> cache.offers == old(cache.offers)
    ensures r == Offered ==>
              && o in cache.offers && cache.offers == old(cache.offers)[o := cache.offers[o]]
              && Nearest(Eligible(raw, cache.online, cache.busy), limit, cache.offers[o])
  {
    if o in cache.offers { return Skipped; }
    if AttemptsOf(cache.attempts, o) >= maxAttempts { return Exhausted; }
    var candidates := FindCandidates(raw, cache.online, cache.busy, limit);
    if candidates == [] {
      cache.CountAttempt(o);
      return NoCandidates;
    }
    var offerSet := cache.TrySetOffer(o, candidates);
    if !offerSet { return Skipped; }
    cache.CountAttempt(o);
    return Offered;
  }

  /* ---- claiming ---- */

  /** What a call leaves in the shard and in Redis, and what it answers. */
  datatype Effect = Effect(db: Db, offers: Offers, claims: Claims, reply: Reply)

  function TakeOrder(db: Db, offers: Offers, claims: Claims, o: OrderId, a: AgentId, dbOk: bool): Effect {
    if o in claims then Effect(db, offers, claims, OrderAlreadyClaimed)
    else if !dbOk then Effect(db, offers, claims, ClaimFailed)
    else if o in db.orders && Claimable(db.orders[o])
      then Effect(ClaimReady(db, o, a), offers - {o}, claims[o := a], Claimed)
    else Effect(db, offers, claims, OrderNotInReadyState)
  }

  function ClaimEffect(db: Db, offers: Offers, claims: Claims, o: OrderId, a: AgentId, dbOk: bool): Effect {
    if o !in offers then Effect(db, offers, claims, OfferNotFoundOrExpired)
    else if a !in offers[o] then Effect(db, offers, claims, NotInCandidateList)
    else TakeOrder(db, offers, claims, o, a, dbOk)
  }

  /** Which reply the lock, the transaction and the row lead to. */
  predicate Replied(r: Reply, db: Db, claims: Claims, o: OrderId, dbOk: bool) {
    && (r == OrderAlreadyClaimed <==> o in claims)
    && (r == ClaimFailed <==> o !in claims && !dbOk)
    && (r == OrderNotInReadyState <==>
          o !in claims && dbOk && !(o in db.orders && db.orders[o].status == Ready && db.orders[o].agent == None))
    && (r == Claimed <==>
          o !in claims && dbOk && o in db.orders && db.orders[o].status == Ready && db.orders[o].agent == None)
  }

  /** What is left in the shard and in Redis: the order is the agent's and locked, or nothing has moved. */
  predicate Leaves(e: Effect, db: Db, offers: Offers, claims: Claims, o: OrderId, a: AgentId) {
    if e.reply == Claimed then
      && o in db.orders
      && e.db == db.(orders := db.orders[o := db.orders[o].(status := Assigned, agent := Some(a),
                                              stamps := db.orders[o].stamps[AssignedAt := db.now])])
      && e.offers == offers - {o} && e.claims == claims[o := a]
    else e.db == db && e.offers == offers && e.claims == claims
  }

  /** `dbOk` is false when the claim's transaction fails for a reason of its own. */
  method Claim(shard: Shard, cache: Cache, o: OrderId, a: AgentId, dbOk: bool) returns (r: Reply)
    modifies shard, cache
    ensures r == OfferNotFoundOrExpired <==> o !in old(cache.offers)
    ensures r == NotInCandidateList <==> o in old(cache.offers) && a !in old(cache.offers)[o]
    ensures o in old(cache.offers) && a in old(cache.offers)[o] ==>
              Replied(r, old(shard.Rows()), old(cache.claims), o, dbOk)
    ensures Leaves(Effect(shard.Rows(), cache.offers, cache.claims, r), old(shard.Rows()), old(cache.offers),
                   old(cache.claims), o, a)
    ensures Effect(shard.Rows(), cache.offers, cache.claims, r)
            == ClaimEffect(old(shard.Rows()), old(cache.offers), old(cache.claims), o, a, dbOk)
    ensures cache.busy == if r == Claimed then old(cache.busy) + {a} else old(cache.busy)
    ensures cache.attempts == old(cache.attempts) && cache.online == old(cache.online)
  {
    if o !in cache.offers { return OfferNotFoundOrExpired; }
    if a !in cache.offers[o] { return NotInCandidateList; }
    r := ClaimLocked(shard, cache, o, a, dbOk);
  }

  /** The lock, the conditional UPDATE behind it, and the clean-up of whichever key is left over. */
  method ClaimLocked(shard: Shard, cache: Cache, o: OrderId, a: AgentId, dbOk: bool) returns (r: Reply)
    modifies shard`orders, cache`claims, cache`offers, cache`busy
    ensures Replied(r, old(shard.Rows()), old(cache.claims), o, dbOk)
    ensures Leaves(Effect(shard.Rows(), cache.offers, cache.claims, r), old(shard.Rows()), old(cache.offers),
                   old(cache.claims), o, a)
    ensures Effect(shard.Rows(), cache.offers, cache.claims, r)
            == TakeOrder(old(shard.Rows()), old(cache.offers), old(cache.claims), o, a, dbOk)
    ensures cache.busy == if r == Claimed then old(cache.busy) + {a} else old(cache.busy)
  {
    var ok := cache.TrySetClaim(o, a);
    if !ok { return OrderAlreadyClaimed; }
    if !dbOk {
      cache.claims := cache.claims - {o};
      return ClaimFailed;
    }
    var claimed := shard.ClaimReadyOrderForAgent(o, a);
    if !claimed {
      cache.claims := cache.claims - {o};
      cache.claims := cache.claims - {o};
      return OrderNotInReadyState;
    }
    cache.busy := cache.busy + {a};
    cache.offers := cache.offers - {o};
    return Claimed;
  }

  /** The admin override goes straight to the lock. */
  method AdminAssign(shard: Shard, cache: Cache, o: OrderId, a: AgentId, dbOk: bool) returns (r: Reply)
    modifies shard, cache
    ensures Replied(r, old(shard.Rows()), old(cache.claims), o, dbOk)
    ensures Leaves(Effect(shard.Rows(), cache.offers, cache.claims, r), old(shard.Rows()), old(cache.offers),
                   old(cache.claims), o, a)
    ensures Effect(shard.Rows(), cache.offers, cache.claims, r)
            == TakeOrder(old(shard.Rows()), old(cache.offers), old(cache.claims), o, a, dbOk)
    ensures cache.busy == if r == Claimed then old(cache.busy) + {a} else old(cache.busy)
    ensures cache.attempts == old(cache.attempts) && cache.online == old(cache.online)
  {
    r := ClaimLocked(shard, cache, o, a, dbOk);
  }

  datatype RejectReply = Withdrawn | NoOffer | NotOffered

  function RejectEffect(offers: Offers, o: OrderId, a: AgentId): Offers {
    if o !in offers || a !in offers[o] then offers
    else
      var remaining := Without(offers[o], a);
      if remaining == [] then offers - {o} else offers[o := remaining]
  }

  /** The agent leaves the list; an offer nobody is left on goes away. */
  method Reject(cache: Cache, o: OrderId, a: AgentId) returns (r: RejectReply)
    modifies cache`offers
    ensures cache.offers == RejectEffect(old(cache.offers), o, a)
    ensures r != Withdrawn ==> cache.offers == old(cache.offers)
    ensures cache.offers - {o} == old(cache.offers) - {o}
    ensures r.Withdrawn? <==> o in old(cache.offers) && a in old(cache.offers)[o]
    ensures r.NoOffer? <==> o !in old(cache.offers)
  {
    if o !in cache.offers { return NoOffer; }
    if a !in cache.offers[o] { return NotOffered; }
    var remaining := Without(cache.offers[o], a);
    if remaining == [] {
      cache.offers := cache.offers - {o};
    } else {
      cache.offers := cache.offers[o := remaining];
    }
    return Withdrawn;
  }

  /** What is left of an offer is the old list without that agent: same agents, same order, no one new. */
  lemma {:induction false} RejectShortens(offers: Offers, o: OrderId, a: AgentId, b: AgentId)
    requires o in offers && a in offers[o]
    ensures b != a ==> (b in offers[o] <==> o in RejectEffect(offers, o, a) && b in RejectEffect(offers, o, a)[o])
    ensures o in RejectEffect(offers, o, a) ==> a !in RejectEffect(offers, o, a)[o]
    ensures o !in RejectEffect(offers, o, a) <==> forall c | c in offers[o] :: c == a
  {
    forall c ensures c in Without(offers[o], a) <==> c in offers[o] && c != a {
      WithoutMembers(offers[o], a, c);
    }
    var remaining := Without(offers[o], a);
    if remaining != [] {
      assert remaining[0] in remaining;
    }
  }

  lemma {:induction false} WithoutMembers(list: seq<AgentId>, a: AgentId, b: AgentId)
    ensures b in Without(list, a) <==> b in list && b != a
  {
    if list != [] {
      WithoutMembers(list[1..], a, b);
    }
  }

  /* ---- the same calls in the interleaved machine ---- */

  /** `n` commands of one thread in a row; `found` is what its geosearch brings. */
  function Alone(s: Sys, t: ThreadId, found: seq<AgentId>, n: nat, dbOk: bool): Sys
    requires t in s.threads
    decreases n
  {
    if n == 0 then s else Alone(AdvanceThread(s, t, found, dbOk), t, found, n - 1, dbOk)
  }

  predicate Ended(after: Sys, t: ThreadId, e: Effect) {
    && t in after.threads && after.threads[t].Finished? && after.threads[t].reply == Some(e.reply)
    && after.db == e.db && after.offers == e.offers && after.claims == e.claims
  }

  lemma SoloUpdate(s: Sys, t: ThreadId, o: OrderId, a: AgentId, byOffer: bool, dbOk: bool)
    requires t in s.threads && s.threads[t] == ClaimUpdates(o, a, byOffer)
    requires o in s.claims && s.claims[o] == a
    ensures Ended(Alone(s, t, [], 3, dbOk), t, TakeOrder(s.db, s.offers, s.claims - {o}, o, a, dbOk))
  {
    var s1 := AdvanceThread(s, t, [], dbOk);
    var s2 := AdvanceThread(s1, t, [], dbOk);
    var s3 := AdvanceThread(s2, t, [], dbOk);
    assert Alone(s, t, [], 3, dbOk) == Alone(s1, t, [], 2, dbOk) == Alone(s2, t, [], 1, dbOk)
      == Alone(s3, t, [], 0, dbOk);
    assert (s.claims - {o})[o := a] == s.claims;
  }

  predicate SameData(s: Sys, after: Sys) {
    after.db == s.db && after.offers == s.offers && after.claims == s.claims
  }

  lemma LockStep(s: Sys, t: ThreadId, dbOk: bool)
    requires t in s.threads && (s.threads[t].ClaimSetsLock? || s.threads[t].AdminSetsLock?)
    ensures var th, after := s.threads[t], AdvanceThread(s, t, [], dbOk);
            && after.db == s.db && after.offers == s.offers && t in after.threads
            && after.claims == (if th.order in s.claims then s.claims else s.claims[th.order := th.agent])
            && after.threads[t] == (if th.order in s.claims then Finished(Some(OrderAlreadyClaimed), None)
                                    else ClaimUpdates(th.order, th.agent, th.ClaimSetsLock?))
  {
  }

  lemma ReadStep(s: Sys, t: ThreadId, dbOk: bool)
    requires t in s.threads && s.threads[t].ClaimReadsOffer?
    ensures var th, after := s.threads[t], AdvanceThread(s, t, [], dbOk);
            && SameData(s, after) && t in after.threads
            && after.threads[t] == (if th.order !in s.offers then Finished(Some(OfferNotFoundOrExpired), None)
                                    else if th.agent !in s.offers[th.order]
                                      then Finished(Some(NotInCandidateList), None)
                                    else ClaimSetsLock(th.order, th.agent))
  {
  }

  /** From the lock on: the thread takes the order or cleans up after itself. */
  lemma SoloLock(s: Sys, t: ThreadId, dbOk: bool)
    requires t in s.threads && (s.threads[t].ClaimSetsLock? || s.threads[t].AdminSetsLock?)
    ensures Ended(Alone(s, t, [], 4, dbOk), t,
            TakeOrder(s.db, s.offers, s.claims, s.threads[t].order, s.threads[t].agent, dbOk))
  {
    var s1, o, a := AdvanceThread(s, t, [], dbOk), s.threads[t].order, s.threads[t].agent;
    LockStep(s, t, dbOk);
    assert Alone(s, t, [], 4, dbOk) == Alone(s1, t, [], 3, dbOk);
    if o in s.claims {
      FinishedStays(s1, t, 3, dbOk);
    } else {
      SoloUpdate(s1, t, o, a, s.threads[t].ClaimSetsLock?, dbOk);
      LockAndUnlock(s.claims, o, a);
    }
  }

  lemma LockAndUnlock(claims: map<OrderId, AgentId>, o: OrderId, a: AgentId)
    requires o !in claims
    ensures claims[o := a] - {o} == claims
  {
  }

  /** A claim thread that is never interrupted does exactly what the call does. */
  lemma SoloClaim(s: Sys, t: ThreadId, o: OrderId, a: AgentId, dbOk: bool)
    requires t in s.threads && s.threads[t] == ClaimReadsOffer(o, a)
    ensures Ended(Alone(s, t, [], 5, dbOk), t, ClaimEffect(s.db, s.offers, s.claims, o, a, dbOk))
  {
    var s1 := AdvanceThread(s, t, [], dbOk);
    ReadStep(s, t, dbOk);
    assert Alone(s, t, [], 5, dbOk) == Alone(s1, t, [], 4, dbOk);
    if o in s.offers && a in s.offers[o] {
      SoloLock(s1, t, dbOk);
    } else {
      FinishedStays(s1, t, 4, dbOk);
    }
  }

  lemma SoloAdminAssign(s: Sys, t: ThreadId, o: OrderId, a: AgentId, dbOk: bool)
    requires t in s.threads && s.threads[t] == AdminSetsLock(o, a)
    ensures Ended(Alone(s, t, [], 4, dbOk), t, TakeOrder(s.db, s.offers, s.claims, o, a, dbOk))
  {
    SoloLock(s, t, dbOk);
  }

  lemma {:induction false} FinishedStays(s: Sys, t: ThreadId, n: nat, dbOk: bool)
    requires t in s.threads && s.threads[t].Finished?
    ensures Alone(s, t, [], n, dbOk) == s
  {
    if n > 0 {
      assert s.threads[t := s.threads[t]] == s.threads;
      FinishedStays(s, t, n - 1, dbOk);
    }
  }

  /** A reject thread that is never interrupted stores what the call stores. */
  lemma SoloReject(s: Sys, t: ThreadId, o: OrderId, a: AgentId)
    requires t in s.threads && s.threads[t] == RejectReadsOffer(o, a)
    ensures var after := Alone(s, t, [], 2, true);
            && t in after.threads && after.threads[t].Finished?
            && after.db == s.db && after.claims == s.claims && after.offers == RejectEffect(s.offers, o, a)
  {
    var s1 := AdvanceThread(s, t, [], true);
    var s2 := AdvanceThread(s1, t, [], true);
    assert Alone(s, t, [], 2, true) == Alone(s1, t, [], 1, true) == Alone(s2, t, [], 0, true);
  }

  /** A tick that is never interrupted offers the order to whomever its search found, unless it is on offer. */
  lemma SoloAssign(s: Sys, t: ThreadId, o: OrderId, found: seq<AgentId>)
    requires t in s.threads && s.threads[t] == AssignChecksOffer(o)
    ensures var after, stores := Alone(s, t, found, 3, true), o !in s.offers && found != [];
            && t in after.threads && after.threads[t].Finished?
            && after.db == s.db && after.claims == s.claims
            && after.offers == (if stores then s.offers[o := found] else s.offers)
            && after.broadcasts == (if stores then s.broadcasts + [Offer(o, found)] else s.broadcasts)
  {
    var s1 := AdvanceThread(s, t, found, true);
    var s2 := AdvanceThread(s1, t, found, true);
    var s3 := AdvanceThread(s2, t, found, true);
    assert Alone(s, t, found, 3, true) == Alone(s1, t, found, 2, true) == Alone(s2, t, found, 1, true)
      == Alone(s3, t, found, 0, true);
  }
}
