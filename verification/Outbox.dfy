/** The transactional outbox of one region: one drain pass over the rows no other pass has locked. */
module Outbox {
  import opened IdOrder

  type EventId = nat       // events_outbox.id, a bigserial

  datatype OutRow = OutRow(dispatched: bool, attempts: nat)

  type Rows = map<EventId, OutRow>

  /** What the broker makes of a publish; a lost one is in the log although the publisher sees it fail. */
  datatype Publish = Confirmed | Lost | Refused

  function Unclaimed(rows: Rows, locked: set<EventId>): set<EventId> {
    set id | id in rows && !rows[id].dispatched && id !in locked
  }

  /** WHERE dispatched_at IS NULL ORDER BY id LIMIT n FOR UPDATE SKIP LOCKED */
  function ClaimBatch(rows: Rows, locked: set<EventId>, limit: nat): seq<EventId> {
    Take(Ascending(Unclaimed(rows, locked)), limit)
  }

  lemma BatchRows(rows: Rows, locked: set<EventId>, limit: nat)
    ensures var batch := ClaimBatch(rows, locked, limit);
            && Increasing(batch) && |batch| <= limit
            && (forall id | id in batch :: id in rows && !rows[id].dispatched && id !in locked)
            && (|batch| < limit ==> forall id | id in rows && !rows[id].dispatched && id !in locked :: id in batch)
            && (forall id, b | id in Unclaimed(rows, locked) && id !in batch && b in batch :: b < id)
  {
    var all, batch := Ascending(Unclaimed(rows, locked)), ClaimBatch(rows, locked, limit);
    AscendingIds(Unclaimed(rows, locked));
    forall id | id in batch ensures id in all {}
    forall i | 0 <= i < |batch| ensures all[i] in batch { assert batch[i] == all[i]; }
    forall id, b | id in all && id !in batch && b in batch ensures b < id {
      var i :| 0 <= i < |all| && all[i] == id;
      var j :| 0 <= j < |batch| && batch[j] == b;
      assert batch[j] == all[j];
    }
  }

  /** The rows after a pass marked `done` dispatched and counted one attempt for each row in `failed`. */
  function Marked(rows: Rows, done: seq<EventId>, failed: set<EventId>): Rows {
    map id | id in rows :: OutRow(rows[id].dispatched || id in done, rows[id].attempts + if id in failed then 1 else 0)
  }

  class Queue {
    var rows: Rows
    var log: seq<EventId>                    // what the broker accepted, in order
    var answers: seq<(EventId, Publish)>     // what became of each publish, in order

    constructor (r: Rows)
      ensures rows == r && log == [] && answers == []
    {
      rows, log, answers := r, [], [];
    }

    /** The broker alone decides how a publish ends. */
    method PublishRow(id: EventId) returns (how: Publish)
      modifies `log, `answers
      ensures log == if how.Refused? then old(log) else old(log) + [id]
      ensures answers == old(answers) + [(id, how)]
    {
      how := *;
      answers := answers + [(id, how)];
      if !how.Refused? {
        log := log + [id];
      }
    }

    method MarkFailed(id: EventId)
      requires id in rows
      modifies `rows
      ensures rows == Marked(old(rows), [], {id})
    {
      rows := rows[id := rows[id].(attempts := rows[id].attempts + 1)];
    }

    method MarkDispatchedBatch(ids: seq<EventId>)
      modifies `rows
      ensures rows == Marked(old(rows), ids, {})
    {
      rows := map id | id in rows :: rows[id].(dispatched := rows[id].dispatched || id in ids);
    }
  }

  datatype DrainResult = Nothing | Drained(sent: nat, failed: bool) | RolledBack(sent: nat, failed: bool)

  lemma MarkedTwice(rows: Rows, done: seq<EventId>, failed: set<EventId>)
    ensures Marked(Marked(rows, [], failed), done, {}) == Marked(rows, done, failed)
    ensures Marked(rows, [], {}) == rows
  {
  }

  /** The broker confirmed the first `n` rows of a batch, and then did not confirm the next one if one failed. */
  predicate Answered(answers: seq<(EventId, Publish)>, batch: seq<EventId>, n: nat, failed: bool) {
    && n <= |batch| && (failed <==> n < |batch|)
    && |answers| == n + (if failed then 1 else 0)
    && (forall i | 0 <= i < n :: answers[i] == (batch[i], Confirmed))
    && (failed ==> answers[n].0 == batch[n] && answers[n].1 in {Lost, Refused})
  }

  /** The log has the confirmed rows, and the failing one too if only its confirmation was lost. */
  predicate Logged(log: seq<EventId>, answers: seq<(EventId, Publish)>, batch: seq<EventId>, n: nat, failed: bool)
    requires Answered(answers, batch, n, failed)
  {
    log == batch[..n] + if failed && answers[n].1 == Lost then [batch[n]] else []
  }

  /** A row is newly dispatched iff its publish was answered Confirmed, and counts one attempt iff it was not. */
  predicate AsAnswered(before: Rows, after: Rows, answers: seq<(EventId, Publish)>) {
    && after.Keys == before.Keys
    && forall id | id in before ::
         && (after[id].dispatched <==> before[id].dispatched || (id, Confirmed) in answers)
         && after[id].attempts ==
              before[id].attempts + if (id, Lost) in answers || (id, Refused) in answers then 1 else 0
  }

  lemma MarkedAsAnswered(rows: Rows, answers: seq<(EventId, Publish)>, batch: seq<EventId>, n: nat, failed: bool)
    requires Answered(answers, batch, n, failed)
    ensures AsAnswered(rows, Marked(rows, batch[..n], if failed then {batch[n]} else {}), answers)
  {
    forall id ensures id in batch[..n] <==> (id, Confirmed) in answers {
      if id in batch[..n] {
        var i :| 0 <= i < n && batch[i] == id;
        assert answers[i] == (id, Confirmed);
      }
    }
    if failed { assert answers[n] in answers; }
  }

  /** The publish loop of a pass: in id order, up to the first publish that is not confirmed. */
  method PublishBatch(q: Queue, batch: seq<EventId>)
    returns (dispatchedIds: seq<EventId>, failed: bool, ghost answers: seq<(EventId, Publish)>)
    requires forall id | id in batch :: id in q.rows
    modifies q
    ensures Answered(answers, batch, |dispatchedIds|, failed) && dispatchedIds == batch[..|dispatchedIds|]
    ensures q.rows == Marked(old(q.rows), [], if failed then {batch[|dispatchedIds|]} else {})
    ensures q.answers == old(q.answers) + answers
    ensures old(q.log) <= q.log && Logged(q.log[|old(q.log)|..], answers, batch, |dispatchedIds|, failed)
  {
    dispatchedIds, failed, answers := [], false, [];
    MarkedTwice(q.rows, [], {});
    for i := 0 to |batch|
      invariant dispatchedIds == batch[..i] && !failed && |answers| == i
      invariant forall j | 0 <= j < i :: answers[j] == (batch[j], Confirmed)
      invariant q.rows == old(q.rows) && q.log == old(q.log) + batch[..i] && q.answers == old(q.answers) + answers
    {
      var how := q.PublishRow(batch[i]);
      answers := answers + [(batch[i], how)];
      if !how.Confirmed? {
        q.MarkFailed(batch[i]);
        return dispatchedIds, true, answers;
      }
      dispatchedIds := dispatchedIds + [batch[i]];
    }
  }

  /**
   Publishes the batch in id order up to the first publish that is not confirmed. A committed pass has marked
   dispatched exactly the rows the broker confirmed, has counted one attempt for the row it did not confirm, and has
   left every later row alone; a pass that is rolled back leaves the table as it was and the log as it is.
   */
  method DrainOutboxForRegion(q: Queue, locked: set<EventId>, limit: nat, commitOk: bool)
    returns (r: DrainResult, ghost answers: seq<(EventId, Publish)>)
    modifies q
    ensures q.answers == old(q.answers) + answers && old(q.log) <= q.log
    ensures var batch := ClaimBatch(old(q.rows), locked, limit);
            match r
            case Nothing => batch == [] && answers == [] && q.rows == old(q.rows) && q.log == old(q.log)
            case Drained(n, failed) =>
              && commitOk && batch != [] && Answered(answers, batch, n, failed)
              && AsAnswered(old(q.rows), q.rows, answers)
              && q.rows == Marked(old(q.rows), batch[..n], if failed then {batch[n]} else {})
              && Logged(q.log[|old(q.log)|..], answers, batch, n, failed)
            case RolledBack(n, failed) =>
              && !commitOk && batch != [] && Answered(answers, batch, n, failed) && q.rows == old(q.rows)
              && Logged(q.log[|old(q.log)|..], answers, batch, n, failed)
  {
    var batch := ClaimBatch(q.rows, locked, limit);
    if |batch| == 0 { return Nothing, []; }
    BatchRows(q.rows, locked, limit);
    var saved := q.rows;
    var dispatchedIds, failed;
    dispatchedIds, failed, answers := PublishBatch(q, batch);
    var n := |dispatchedIds|;
    q.MarkDispatchedBatch(dispatchedIds);
    MarkedTwice(saved, dispatchedIds, if failed then {batch[n]} else {});
    MarkedAsAnswered(saved, answers, batch, n, failed);
    if !commitOk {
      q.rows := saved;
      return RolledBack(n, failed), answers;
    }
    return Drained(n, failed), answers;
  }
}
