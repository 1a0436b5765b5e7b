/**
 Any number of drain passes at once over one outbox: the locks of SKIP LOCKED, single publishes, commits,
 rollbacks and deaths, interleaved with each other and with the inserts of the application.
 */
module OutboxRuns {
  import opened IdOrder
  import opened Outbox

  type PassId = nat

  /** A pass in progress: the rows it locked, how many it published with confirmation, and whether one failed. */
  datatype Pass = Pass(batch: seq<EventId>, sent: nat, failed: bool)

  datatype Sys = Sys(
    rows: Rows,
    log: seq<EventId>,
    passes: map<PassId, Pass>,
    visible: seq<EventId>,            // the rows in the order their inserts committed
    confirmed: multiset<EventId>,     // confirmed publishes
    undone: multiset<EventId>,        // those whose pass then rolled back or died
    failures: multiset<EventId>)      // failed publishes whose pass committed

  datatype Action =
    | Insert(id: EventId)
    | Claim(pass: PassId, limit: nat)
    | Send(pass: PassId, how: Publish)
    | Commit(pass: PassId)
    | Abort(pass: PassId)             // a rollback, or the death of the process

  function Start(): Sys {
    Sys(map[], [], map[], [], multiset{}, multiset{}, multiset{})
  }

  function Locked(passes: map<PassId, Pass>): set<EventId> {
    set p, id | p in passes && id in passes[p].batch :: id
  }

  /** The rows it published with confirmation. */
  function Sent(p: Pass): (r: seq<EventId>)
    ensures forall id | id in r :: id in p.batch
  {
    Take(p.batch, p.sent)
  }

  function FailedRow(p: Pass): set<EventId> {
    if p.failed && p.sent < |p.batch| then {p.batch[p.sent]} else {}
  }

  predicate Sending(p: Pass) {
    !p.failed && p.sent < |p.batch|
  }

  function SendOne(s: Sys, p: PassId, how: Publish): Sys
    requires p in s.passes && Sending(s.passes[p])
  {
    var pass := s.passes[p];
    var id := pass.batch[pass.sent];
    s.(log := if how.Refused? then s.log else s.log + [id],
       confirmed := if how.Confirmed? then s.confirmed + multiset{id} else s.confirmed,
       passes := s.passes[p := if how.Confirmed? then pass.(sent := pass.sent + 1) else pass.(failed := true)])
  }

  function CommitPass(s: Sys, p: PassId): Sys
    requires p in s.passes
  {
    var pass := s.passes[p];
    s.(rows := Marked(s.rows, Sent(pass), FailedRow(pass)),
       failures := s.failures + multiset(FailedRow(pass)),
       passes := s.passes - {p})
  }

  function Step(s: Sys, a: Action): Sys {
    match a
    case Insert(id) =>
      if id in s.rows then s else s.(rows := s.rows[id := OutRow(false, 0)], visible := s.visible + [id])
    case Claim(p, limit) =>
      var batch := ClaimBatch(s.rows, Locked(s.passes), limit);
      if p in s.passes || batch == [] then s else s.(passes := s.passes[p := Pass(batch, 0, false)])
    case Send(p, how) => if p in s.passes && Sending(s.passes[p]) then SendOne(s, p, how) else s
    case Commit(p) => if p in s.passes && !Sending(s.passes[p]) then CommitPass(s, p) else s
    case Abort(p) =>
      if p !in s.passes then s
      else s.(undone := s.undone + multiset(Sent(s.passes[p])), passes := s.passes - {p})
  }

  function Exec(actions: seq<Action>): Sys {
    if actions == [] then Start() else Step(Exec(actions[..|actions| - 1]), actions[|actions| - 1])
  }

  /* ---- one pass on its own ---- */

  /** The broker's answer alone decides what is logged, what counts as sent, and whether the pass stops. */
  lemma SendEffect(s: Sys, p: PassId, how: Publish)
    requires p in s.passes && Sending(s.passes[p])
    ensures var after, was := Step(s, Send(p, how)), s.passes[p];
            && p in after.passes && after.rows == s.rows && after.passes == s.passes[p := after.passes[p]]
            && after.passes[p].batch == was.batch
            && after.passes[p].sent == was.sent + (if how == Confirmed then 1 else 0)
            && (after.passes[p].failed <==> how != Confirmed)
            && after.log == s.log + (if how == Refused then [] else [was.batch[was.sent]])
  {
  }

  /** The publishes of one pass, answered one after the other. */
  function Sends(s: Sys, p: PassId, answers: seq<(EventId, Publish)>): Sys
    decreases |answers|
  {
    if answers == [] then s
    else Step(Sends(s, p, answers[..|answers| - 1]), Send(p, answers[|answers| - 1].1))
  }

  /** How far a pass is: its rows so far are in the log and nothing else of the outbox has moved. */
  predicate Reached(s: Sys, now: Sys, p: PassId, batch: seq<EventId>, i: nat, failed: bool, tail: seq<EventId>)
    requires i <= |batch|
  {
    && now.rows == s.rows && now.passes == s.passes[p := Pass(batch, i, failed)]
    && now.log == s.log + batch[..i] + tail
  }

  lemma {:induction false} ConfirmedSends(s: Sys, now: Sys, p: PassId, batch: seq<EventId>,
      answers: seq<(EventId, Publish)>, i: nat)
    requires i <= |batch| && i <= |answers| && Reached(s, now, p, batch, 0, false, [])
    requires forall j | 0 <= j < i :: answers[j] == (batch[j], Confirmed)
    ensures Reached(s, Sends(now, p, answers[..i]), p, batch, i, false, [])
  {
    if i > 0 {
      ConfirmedSends(s, now, p, batch, answers, i - 1);
      assert answers[..i][..i - 1] == answers[..i - 1];
      OneMoreSent(s, Sends(now, p, answers[..i - 1]), p, batch, i - 1);
    }
  }

  lemma OneMoreSent(s: Sys, now: Sys, p: PassId, batch: seq<EventId>, i: nat)
    requires i < |batch| && Reached(s, now, p, batch, i, false, [])
    ensures Reached(s, Step(now, Send(p, Confirmed)), p, batch, i + 1, false, [])
  {
    SendEffect(now, p, Confirmed);
    assert batch[..i + 1] == batch[..i] + [batch[i]];
  }

  lemma AnsweredSends(s: Sys, now: Sys, p: PassId, batch: seq<EventId>, answers: seq<(EventId, Publish)>, n: nat,
      failed: bool)
    requires Reached(s, now, p, batch, 0, false, []) && Answered(answers, batch, n, failed)
    ensures Reached(s, Sends(now, p, answers), p, batch, n, failed,
            if failed && answers[n].1 == Lost then [batch[n]] else [])
  {
    ConfirmedSends(s, now, p, batch, answers, n);
    if failed {
      assert answers[..n] == answers[..|answers| - 1];
      SendEffect(Sends(now, p, answers[..n]), p, answers[n].1);
    } else {
      assert answers[..n] == answers;
    }
  }

  /** The pass is gone, the rows are these, and the log is what the publishes made it. */
  predicate Left(s: Sys, sent: Sys, after: Sys, rows: Rows) {
    after.rows == rows && after.log == sent.log && after.passes == s.passes
  }

  lemma PassLeaves(s: Sys, sent: Sys, p: PassId, batch: seq<EventId>, n: nat, failed: bool, tail: seq<EventId>)
    requires p !in s.passes && n <= |batch| && (failed <==> n < |batch|)
    requires Reached(s, sent, p, batch, n, failed, tail)
    ensures Left(s, sent, Step(sent, Commit(p)), Marked(s.rows, batch[..n], if failed then {batch[n]} else {}))
    ensures Left(s, sent, Step(sent, Abort(p)), s.rows)
  {
    assert sent.passes - {p} == s.passes;
    assert Sent(sent.passes[p]) == batch[..n];
  }

  predicate LogGrew(s: Sys, sent: Sys, answers: seq<(EventId, Publish)>, batch: seq<EventId>, n: nat, failed: bool)
    requires Answered(answers, batch, n, failed)
  {
    s.log <= sent.log && Logged(sent.log[|s.log|..], answers, batch, n, failed)
  }

  lemma ReachedLog(s: Sys, sent: Sys, p: PassId, answers: seq<(EventId, Publish)>, batch: seq<EventId>, n: nat,
      failed: bool)
    requires Answered(answers, batch, n, failed)
    requires Reached(s, sent, p, batch, n, failed, if failed && answers[n].1 == Lost then [batch[n]] else [])
    ensures LogGrew(s, sent, answers, batch, n, failed)
  {
  }

  /**
   A pass nothing interleaves with leaves exactly what the drain method leaves for the same answers of the broker,
   whether it commits or is rolled back.
   */
  lemma SoloPass(s: Sys, p: PassId, limit: nat, answers: seq<(EventId, Publish)>, n: nat, failed: bool)
    requires p !in s.passes
    requires var batch := ClaimBatch(s.rows, Locked(s.passes), limit);
             batch != [] && Answered(answers, batch, n, failed)
    ensures var batch := ClaimBatch(s.rows, Locked(s.passes), limit);
            var sent := Sends(Step(s, Claim(p, limit)), p, answers);
            && LogGrew(s, sent, answers, batch, n, failed)
            && Left(s, sent, Step(sent, Commit(p)), Marked(s.rows, batch[..n], if failed then {batch[n]} else {}))
            && AsAnswered(s.rows, Marked(s.rows, batch[..n], if failed then {batch[n]} else {}), answers)
            && Left(s, sent, Step(sent, Abort(p)), s.rows)
  {
    var batch, claimed := ClaimBatch(s.rows, Locked(s.passes), limit), Step(s, Claim(p, limit));
    ClaimReaches(s, p, limit);
    AnsweredPass(s, claimed, p, batch, answers, n, failed);
    MarkedAsAnswered(s.rows, answers, batch, n, failed);
  }

  lemma ClaimReaches(s: Sys, p: PassId, limit: nat)
    requires p !in s.passes && ClaimBatch(s.rows, Locked(s.passes), limit) != []
    ensures Reached(s, Step(s, Claim(p, limit)), p, ClaimBatch(s.rows, Locked(s.passes), limit), 0, false, [])
  {
  }

  lemma AnsweredPass(s: Sys, claimed: Sys, p: PassId, batch: seq<EventId>, answers: seq<(EventId, Publish)>, n: nat,
      failed: bool)
    requires p !in s.passes && Reached(s, claimed, p, batch, 0, false, []) && Answered(answers, batch, n, failed)
    ensures var sent := Sends(claimed, p, answers);
            && LogGrew(s, sent, answers, batch, n, failed)
            && Left(s, sent, Step(sent, Commit(p)), Marked(s.rows, batch[..n], if failed then {batch[n]} else {}))
            && Left(s, sent, Step(sent, Abort(p)), s.rows)
  {
    AnsweredSends(s, claimed, p, batch, answers, n, failed);
    ReachedLog(s, Sends(claimed, p, answers), p, answers, batch, n, failed);
    PassLeaves(s, Sends(claimed, p, answers), p, batch, n, failed,
      if failed && answers[n].1 == Lost then [batch[n]] else []);
  }

  /* ---- any number of drainers ---- */

  ghost predicate PassOk(s: Sys, p: Pass) {
    && Increasing(p.batch) && p.sent <= |p.batch| && (p.failed ==> p.sent < |p.batch|)
    && forall id | id in p.batch :: id in s.rows && !s.rows[id].dispatched
  }

  ghost predicate LocksDisjoint(s: Sys) {
    forall p, q, id | p in s.passes && q in s.passes && id in s.passes[p].batch && id in s.passes[q].batch :: p == q
  }

  predicate Holds(s: Sys, id: EventId) {
    exists p | p in s.passes :: id in Sent(s.passes[p])
  }

  predicate Dispatched(s: Sys, id: EventId) {
    id in s.rows && s.rows[id].dispatched
  }

  /** Every confirmed publish of a row was undone, but for the one that dispatched it or that a live pass holds. */
  predicate Accounted(s: Sys, id: EventId) {
    && s.confirmed[id] == s.undone[id] + (if Dispatched(s, id) || Holds(s, id) then 1 else 0)
    && (s.confirmed[id] > 0 ==> id in s.log)
    && s.failures[id] == (if id in s.rows then s.rows[id].attempts else 0)
  }

  ghost predicate DrainOk(s: Sys) {
    && (forall p | p in s.passes :: PassOk(s, s.passes[p]))
    && LocksDisjoint(s)
    && (forall id :: Accounted(s, id))
  }

  lemma {:induction false} IncreasingCount(s: seq<EventId>, id: EventId)
    requires Increasing(s)
    ensures multiset(s)[id] == if id in s then 1 else 0
  {
    if s != [] {
      var init := s[..|s| - 1];
      IncreasingCount(init, id);
      assert s == init + [s[|s| - 1]];
    }
  }

  lemma ClaimKeepsOk(s: Sys, p: PassId, limit: nat)
    requires DrainOk(s)
    ensures DrainOk(Step(s, Claim(p, limit)))
  {
    var after, batch := Step(s, Claim(p, limit)), ClaimBatch(s.rows, Locked(s.passes), limit);
    BatchRows(s.rows, Locked(s.passes), limit);
    if after != s {
      forall q | q in after.passes ensures PassOk(after, after.passes[q]) {
        if q != p { assert PassOk(s, s.passes[q]); }
      }
      forall id ensures Accounted(after, id) {
        assert Accounted(s, id);
        SameHolds(s, after, p, id);
      }
    }
  }

  /** A pass that holds nothing yet changes nothing about what is held. */
  lemma SameHolds(s: Sys, after: Sys, p: PassId, id: EventId)
    requires p !in s.passes && p in after.passes && Sent(after.passes[p]) == []
             && after.passes == s.passes[p := after.passes[p]]
    ensures Holds(s, id) <==> Holds(after, id)
  {
    if Holds(s, id) {
      var q :| q in s.passes && id in Sent(s.passes[q]);
      assert q in after.passes && id in Sent(after.passes[q]);
    }
  }

  lemma SendKeepsOk(s: Sys, p: PassId, how: Publish)
    requires DrainOk(s) && p in s.passes && Sending(s.passes[p])
    ensures DrainOk(SendOne(s, p, how))
  {
    var after, pass := SendOne(s, p, how), s.passes[p];
    var id := pass.batch[pass.sent];
    assert PassOk(s, pass);
    forall q | q in after.passes ensures PassOk(after, after.passes[q]) {
      if q != p { assert PassOk(s, s.passes[q]); }
    }
    NextIsFree(s, p);
    forall x ensures Accounted(after, x) {
      assert Accounted(s, x);
      HeldAfterSend(s, p, how, x);
    }
  }

  /** The row a pass publishes next is held by no pass and not dispatched. */
  lemma NextIsFree(s: Sys, p: PassId)
    requires DrainOk(s) && p in s.passes && Sending(s.passes[p])
    ensures var id := s.passes[p].batch[s.passes[p].sent]; !Holds(s, id) && !Dispatched(s, id)
  {
    var pass := s.passes[p];
    var id := pass.batch[pass.sent];
    assert PassOk(s, pass) && id in pass.batch;
    forall q | q in s.passes ensures id !in Sent(s.passes[q]) {
      if q == p {
        assert forall i | 0 <= i < pass.sent :: pass.batch[i] < id;
      } else {
        assert id !in s.passes[q].batch;
      }
    }
  }

  lemma SentAfterSend(p: Pass)
    requires p.sent < |p.batch|
    ensures Sent(p.(sent := p.sent + 1)) == Sent(p) + [p.batch[p.sent]]
    ensures Sent(p.(failed := true)) == Sent(p)
  {
  }

  lemma HeldAfterSend(s: Sys, p: PassId, how: Publish, x: EventId)
    requires p in s.passes && Sending(s.passes[p])
    ensures Holds(SendOne(s, p, how), x)
            <==> Holds(s, x) || (how.Confirmed? && x == s.passes[p].batch[s.passes[p].sent])
  {
    var after, pass := SendOne(s, p, how), s.passes[p];
    SentAfterSend(pass);
    if q :| q in s.passes && x in Sent(s.passes[q]) {
      assert q in after.passes && x in Sent(after.passes[q]);
    }
    if q :| q in after.passes && x in Sent(after.passes[q]) {
      assert q in s.passes;
    }
    if how.Confirmed? {
      assert p in after.passes && pass.batch[pass.sent] in Sent(after.passes[p]);
    }
  }

  /** What leaving passes do to what is held. */
  lemma HeldAfterLeaving(s: Sys, after: Sys, p: PassId, id: EventId)
    requires LocksDisjoint(s) && p in s.passes && after.passes == s.passes - {p}
    ensures Holds(after, id) <==> Holds(s, id) && id !in Sent(s.passes[p])
  {
    if q :| q in s.passes && id in Sent(s.passes[q]) {
      if id !in Sent(s.passes[p]) { assert q in after.passes; }
    }
    if q :| q in after.passes && id in Sent(after.passes[q]) {
      assert q in s.passes && id in s.passes[q].batch;
    }
  }

  lemma AbortKeepsOk(s: Sys, p: PassId)
    requires DrainOk(s) && p in s.passes
    ensures DrainOk(Step(s, Abort(p)))
  {
    var after, sent := Step(s, Abort(p)), Sent(s.passes[p]);
    assert PassOk(s, s.passes[p]);
    forall q | q in after.passes ensures PassOk(after, after.passes[q]) { assert PassOk(s, s.passes[q]); }
    forall id ensures Accounted(after, id) {
      assert Accounted(s, id);
      IncreasingCount(sent, id);
      HeldAfterLeaving(s, after, p, id);
      if id in sent { assert Holds(s, id); }
    }
  }

  lemma CommitKeepsOk(s: Sys, p: PassId)
    requires DrainOk(s) && p in s.passes
    ensures DrainOk(CommitPass(s, p))
  {
    var after, pass := CommitPass(s, p), s.passes[p];
    assert PassOk(s, pass);
    forall q | q in after.passes ensures PassOk(after, after.passes[q]) {
      assert PassOk(s, s.passes[q]);
    }
    forall id ensures Accounted(after, id) {
      assert Accounted(s, id);
      HeldAfterLeaving(s, after, p, id);
      if id in Sent(pass) { assert Holds(s, id); }
    }
  }

  lemma StepKeepsOk(s: Sys, a: Action)
    requires DrainOk(s)
    ensures DrainOk(Step(s, a))
  {
    match a
    case Insert(id) => if id !in s.rows { InsertKeepsOk(s, id); }
    case Claim(p, limit) => ClaimKeepsOk(s, p, limit);
    case Send(p, how) => if p in s.passes && Sending(s.passes[p]) { SendKeepsOk(s, p, how); }
    case Commit(p) => if p in s.passes && !Sending(s.passes[p]) { CommitKeepsOk(s, p); }
    case Abort(p) => if p in s.passes { AbortKeepsOk(s, p); }
  }

  lemma InsertKeepsOk(s: Sys, id: EventId)
    requires DrainOk(s) && id !in s.rows
    ensures DrainOk(Step(s, Insert(id)))
  {
    var after := Step(s, Insert(id));
    forall q | q in after.passes ensures PassOk(after, after.passes[q]) { assert PassOk(s, s.passes[q]); }
    forall x ensures Accounted(after, x) {
      assert Accounted(s, x);
      assert Holds(after, x) <==> Holds(s, x);
    }
  }

  lemma {:induction false} RunKeepsDrainOk(actions: seq<Action>)
    ensures DrainOk(Exec(actions))
  {
    if actions != [] {
      RunKeepsDrainOk(actions[..|actions| - 1]);
      StepKeepsOk(Exec(actions[..|actions| - 1]), actions[|actions| - 1]);
    }
  }

  /** No two passes ever hold a lock on the same row, and no row is dispatched while locked. */
  lemma PassesNeverShareARow(actions: seq<Action>, p: PassId, q: PassId, id: EventId)
    requires var s := Exec(actions);
             p in s.passes && q in s.passes && id in s.passes[p].batch && id in s.passes[q].batch
    ensures p == q && !Dispatched(Exec(actions), id)
  {
    RunKeepsDrainOk(actions);
    assert PassOk(Exec(actions), Exec(actions).passes[p]);
  }

  /** A dispatched row was published, and confirmed exactly once by a pass that was not undone. */
  lemma DispatchedWasPublished(actions: seq<Action>, id: EventId)
    requires Dispatched(Exec(actions), id)
    ensures var s := Exec(actions); id in s.log && s.confirmed[id] == s.undone[id] + 1
  {
    RunKeepsDrainOk(actions);
    assert Accounted(Exec(actions), id);
  }

  /** A row is published only while every earlier confirmation of it has been undone by a rollback or a death. */
  lemma PublishedAgainOnlyWhenUndone(actions: seq<Action>, p: PassId)
    requires p in Exec(actions).passes && Sending(Exec(actions).passes[p])
    ensures var s := Exec(actions); var id := s.passes[p].batch[s.passes[p].sent]; s.confirmed[id] == s.undone[id]
  {
    var s := Exec(actions);
    RunKeepsDrainOk(actions);
    assert Accounted(s, s.passes[p].batch[s.passes[p].sent]);
    NextIsFree(s, p);
  }

  lemma FailedPass(s: Sys, p: PassId, id: EventId)
    requires p in s.passes && PassOk(s, s.passes[p]) && s.passes[p].failed && id in s.rows
    ensures var pass := s.passes[p];
            CommitPass(s, p).rows[id] == (if id in pass.batch[..pass.sent] then s.rows[id].(dispatched := true)
                                          else if id == pass.batch[pass.sent]
                                            then s.rows[id].(attempts := s.rows[id].attempts + 1)
                                          else s.rows[id])
    ensures var pass := s.passes[p];
            pass.batch[pass.sent] !in pass.batch[..pass.sent] && !s.rows[pass.batch[pass.sent]].dispatched
  {
    var pass := s.passes[p];
    assert Sent(pass) == pass.batch[..pass.sent] && FailedRow(pass) == {pass.batch[pass.sent]};
    assert pass.batch[pass.sent] in pass.batch;
  }

  /**
   A pass that commits after a failure dispatches the rows before the failing one, counts an attempt for that
   one, and touches no other.
   */
  lemma FailureEffect(actions: seq<Action>, p: PassId, id: EventId)
    requires var s := Exec(actions); p in s.passes && s.passes[p].failed && id in s.rows
    ensures var s := Exec(actions);
            var pass, after := s.passes[p], Step(s, Commit(p));
            && pass.sent < |pass.batch| && pass.batch[pass.sent] in s.rows
            && (id in pass.batch[..pass.sent] ==> after.rows[id] == s.rows[id].(dispatched := true))
            && (id == pass.batch[pass.sent] ==>
                  !after.rows[id].dispatched && after.rows[id].attempts == s.rows[id].attempts + 1)
            && (id !in pass.batch[..pass.sent + 1] ==> after.rows[id] == s.rows[id])
  {
    RunKeepsDrainOk(actions);
    assert PassOk(Exec(actions), Exec(actions).passes[p]);
    FailedCommit(Exec(actions), p, id);
  }

  lemma FailedCommit(s: Sys, p: PassId, id: EventId)
    requires p in s.passes && PassOk(s, s.passes[p]) && s.passes[p].failed && id in s.rows
    ensures var pass, after := s.passes[p], CommitPass(s, p);
            && pass.sent < |pass.batch| && pass.batch[pass.sent] in s.rows
            && (id in pass.batch[..pass.sent] ==> after.rows[id] == s.rows[id].(dispatched := true))
            && (id == pass.batch[pass.sent] ==>
                  !after.rows[id].dispatched && after.rows[id].attempts == s.rows[id].attempts + 1)
            && (id !in pass.batch[..pass.sent + 1] ==> after.rows[id] == s.rows[id])
  {
    FailedPass(s, p, id);
    var pass := s.passes[p];
    assert pass.batch[pass.sent] in pass.batch;
    assert pass.batch[..pass.sent + 1] == pass.batch[..pass.sent] + [pass.batch[pass.sent]];
  }

  /* ---- one drainer at a time ---- */

  /** One pass at a time, and rows that become visible in id order. */
  predicate Orderly(s: Sys, a: Action) {
    match a
    case Claim(_, _) => s.passes == map[]
    case Insert(id) => id !in s.rows ==> forall x | x in s.rows :: x < id
    case _ => true
  }

  ghost predicate OrderlyRun(actions: seq<Action>) {
    actions != [] ==>
      OrderlyRun(actions[..|actions| - 1]) && Orderly(Exec(actions[..|actions| - 1]), actions[|actions| - 1])
  }

  /** The first occurrence of each id. */
  function Firsts(log: seq<EventId>): seq<EventId> {
    if log == [] then []
    else
      var before, last := Firsts(log[..|log| - 1]), log[|log| - 1];
      if last in before then before else before + [last]
  }

  /** The first `d` visible rows are the dispatched ones, and the first `k` have reached the broker, in that order. */
  ghost predicate Ordered(s: Sys, d: nat, k: nat) {
    && Increasing(s.visible) && (forall id :: id in s.visible <==> id in s.rows)
    && d <= k <= |s.visible|
    && (forall i | 0 <= i < |s.visible| :: s.rows[s.visible[i]].dispatched <==> i < d)
    && Firsts(s.log) == s.visible[..k]
    && (forall p, q | p in s.passes && q in s.passes :: p == q)
    && (forall p | p in s.passes :: AtFront(s, s.passes[p], d, k))
  }

  predicate AtFront(s: Sys, p: Pass, d: nat, k: nat) {
    && d + |p.batch| <= |s.visible| && p.batch == s.visible[d..d + |p.batch|]
    && p.sent <= |p.batch| && d + p.sent <= k
  }

  lemma InsertOrdered(s: Sys, id: EventId, d: nat, k: nat)
    requires Ordered(s, d, k) && id !in s.rows && Orderly(s, Insert(id))
    ensures Ordered(Step(s, Insert(id)), d, k)
  {
    var after := Step(s, Insert(id));
    forall i | 0 <= i < |s.visible| ensures s.visible[i] in s.rows && s.visible[i] < id {
      assert s.visible[i] in s.visible;
    }
    assert after.visible[..k] == s.visible[..k];
    forall p | p in after.passes ensures AtFront(after, after.passes[p], d, k) {
      assert AtFront(s, s.passes[p], d, k);
      var n := d + |s.passes[p].batch|;
      assert after.visible[d..n] == s.visible[d..n];
    }
  }

  /** With nothing locked, the batch is the front of what is not dispatched yet. */
  lemma ClaimedFront(s: Sys, limit: nat, d: nat, k: nat)
    requires Ordered(s, d, k) && s.passes == map[]
    ensures var batch := ClaimBatch(s.rows, Locked(s.passes), limit);
            d + |batch| <= |s.visible| && batch == s.visible[d..d + |batch|]
  {
    var open := Unclaimed(s.rows, Locked(s.passes));
    AscendingIds(open);
    forall id ensures id in s.visible[d..] <==> id in open { FrontMember(s, d, k, id); }
    IncreasingUnique(Ascending(open), s.visible[d..]);
  }

  lemma FrontMember(s: Sys, d: nat, k: nat, id: EventId)
    requires Ordered(s, d, k) && s.passes == map[]
    ensures id in s.visible[d..] <==> id in s.rows && !s.rows[id].dispatched
  {
    if id in s.rows {
      assert id in s.visible;
      var i :| 0 <= i < |s.visible| && s.visible[i] == id;
      if i >= d { assert s.visible[d..][i - d] == id; }
    }
    if id in s.visible[d..] {
      var i :| d <= i < |s.visible| && s.visible[i] == id;
      assert id in s.visible;
    }
  }

  /** Publishing the next row of the list, or one already published, keeps the first occurrences a prefix of it. */
  lemma FirstsGrow(visible: seq<EventId>, log: seq<EventId>, k: nat, at: nat)
    requires Increasing(visible) && k <= |visible| && at <= k && at < |visible| && Firsts(log) == visible[..k]
    ensures Firsts(log + [visible[at]]) == visible[..if at < k then k else k + 1]
  {
    var id := visible[at];
    assert (log + [id])[..|log|] == log;
    if at < k {
      assert visible[..k][at] == id;
    } else {
      assert forall i | 0 <= i < k :: visible[..k][i] < id;
      assert visible[..k] + [id] == visible[..k + 1];
    }
  }

  /** What a publish makes of the first occurrences in the log. */
  lemma SentFirsts(s: Sys, p: PassId, how: Publish, d: nat, k: nat) returns (k': nat)
    requires Ordered(s, d, k) && p in s.passes && Sending(s.passes[p])
    ensures k <= k' <= |s.visible| && Firsts(SendOne(s, p, how).log) == s.visible[..k']
    ensures how.Confirmed? ==> d + s.passes[p].sent < k'
  {
    var pass := s.passes[p];
    assert AtFront(s, pass, d, k);
    var at := d + pass.sent;
    assert s.visible[at] == pass.batch[pass.sent];
    k' := if how.Refused? || at < k then k else at + 1;
    FirstsGrow(s.visible, s.log, k, at);
  }

  lemma SendOrdered(s: Sys, p: PassId, how: Publish, d: nat, k: nat) returns (k': nat)
    requires Ordered(s, d, k) && p in s.passes && Sending(s.passes[p])
    ensures Ordered(SendOne(s, p, how), d, k')
  {
    var after := SendOne(s, p, how);
    assert AtFront(s, s.passes[p], d, k);
    k' := SentFirsts(s, p, how, d, k);
    assert AtFront(after, after.passes[p], d, k');
  }

  lemma CommitOrdered(s: Sys, p: PassId, d: nat, k: nat)
    requires Ordered(s, d, k) && p in s.passes
    ensures Ordered(CommitPass(s, p), d + s.passes[p].sent, k)
  {
    var after, pass := CommitPass(s, p), s.passes[p];
    assert AtFront(s, pass, d, k);
    var done := Sent(pass);
    assert done == s.visible[d..d + pass.sent];
    forall i | 0 <= i < |s.visible|
      ensures s.visible[i] in s.rows && (s.visible[i] in done <==> d <= i < d + pass.sent)
    {
      assert s.visible[i] in s.visible;
      if d <= i < d + pass.sent { assert done[i - d] == s.visible[i]; }
      if s.visible[i] in done {
        var j :| 0 <= j < |done| && done[j] == s.visible[i];
        assert s.visible[d + j] == s.visible[i];
      }
    }
  }

  lemma OrderedStep(s: Sys, a: Action, d: nat, k: nat) returns (d': nat, k': nat)
    requires Ordered(s, d, k) && Orderly(s, a)
    ensures Ordered(Step(s, a), d', k')
  {
    d', k' := d, k;
    match a
    case Insert(id) => if id !in s.rows { InsertOrdered(s, id, d, k); }
    case Claim(p, limit) => ClaimedFront(s, limit, d, k);
    case Send(p, how) => if p in s.passes && Sending(s.passes[p]) { k' := SendOrdered(s, p, how, d, k); }
    case Commit(p) =>
      if p in s.passes && !Sending(s.passes[p]) {
        CommitOrdered(s, p, d, k);
        d' := d + s.passes[p].sent;
      }
    case Abort(p) =>
  }

  /**
   Ordered at-least-once delivery: with one drainer at a time and rows visible in id order, across any
   passes, failures, rollbacks and deaths, the dispatched rows are a prefix of the outbox, and the first
   occurrences in the broker's log are a prefix of the outbox in id order that contains it.
   */
  lemma {:induction false} OrderedDelivery(actions: seq<Action>) returns (d: nat, k: nat)
    requires OrderlyRun(actions)
    ensures Ordered(Exec(actions), d, k)
  {
    if actions == [] {
      return 0, 0;
    }
    var prior := actions[..|actions| - 1];
    d, k := OrderedDelivery(prior);
    d, k := OrderedStep(Exec(prior), actions[|actions| - 1], d, k);
  }

  lemma ClaimOne(s: Sys, p: PassId, first: EventId)
    requires p !in s.passes && first in Unclaimed(s.rows, Locked(s.passes))
    requires forall id | id in Unclaimed(s.rows, Locked(s.passes)) :: first <= id
    ensures Step(s, Claim(p, 1)) == s.(passes := s.passes[p := Pass([first], 0, false)])
  {
    var open := Unclaimed(s.rows, Locked(s.passes));
    assert Least(open) == first;
    assert Ascending(open) == [first] + Ascending(open - {first});
  }

  /**
   With a second drainer the order is gone: it locks, publishes and commits the second row while the first is
   still locked.
   */
  lemma SecondDrainerOvertakes(s: Sys, a: EventId, b: EventId, p: PassId, q: PassId)
    requires s.passes == map[] && p != q && a < b && Unclaimed(s.rows, {}) == {a, b}
    ensures var claimed := Step(Step(s, Claim(p, 1)), Claim(q, 1));
            var after := Step(Step(claimed, Send(q, Confirmed)), Commit(q));
            Dispatched(after, b) && !Dispatched(after, a) && after.log == s.log + [b]
  {
    assert Locked(s.passes) == {};
    assert a in Unclaimed(s.rows, {}) && b in Unclaimed(s.rows, {});
    ClaimOne(s, p, a);
    var s1 := Step(s, Claim(p, 1));
    assert s1.passes == map[p := Pass([a], 0, false)] && a in s1.passes[p].batch;
    assert Locked(s1.passes) == {a};
    forall id ensures id in Unclaimed(s1.rows, {a}) <==> id in Unclaimed(s.rows, {}) && id != a {}
    assert Unclaimed(s1.rows, {a}) == {b};
    ClaimOne(s1, q, b);
    var s2 := Step(s1, Claim(q, 1));
    assert Sending(s2.passes[q]) && s2.passes[q].batch[0] == b;
    var s3 := Step(s2, Send(q, Confirmed));
    assert s3.passes[q] == Pass([b], 1, false) && Sent(s3.passes[q]) == [b];
  }
}
