/**
 Payout transactions statement by statement: the guarded decrement takes the balance row's lock, the insert
 takes the unique key, and both become visible at the commit, with every other transaction in between.
 */
module PayoutRuns {
  import opened Types
  import opened ShardState
  import opened OrderRuns
  import opened Money

  type TxId = nat

  /** An open payout transaction that has decremented its balance row. */
  datatype Open = Open(account: Account, amount: nat, key: LedgerKey, owner: UserId, inserted: bool)

  /** `db` is what is committed. */
  datatype Sys = Sys(db: Db, open: map<TxId, Open>)

  datatype Action =
    | Decrement(tx: TxId, account: Account, amount: nat, key: LedgerKey, owner: UserId)
    | InsertRow(tx: TxId)
    | Commit(tx: TxId)
    | Rollback(tx: TxId)
    | Other(op: Op)

  /** The row is written by the transaction: it appears, goes, or changes value. */
  predicate WritesAccount(db: Db, op: Op, a: Account) {
    var after := Apply(db, op).balances;
    (a in after <==> a !in db.balances) || (a in after && a in db.balances && after[a] != db.balances[a])
  }

  predicate WritesKey(db: Db, op: Op, k: LedgerKey) {
    k in Apply(db, op).ledger && k !in db.ledger
  }

  /** A transaction waits for the rows and unique keys that an open payout has written. */
  ghost predicate Waits(s: Sys, op: Op) {
    exists t | t in s.open :: WritesAccount(s.db, op, s.open[t].account)
      || (s.open[t].inserted && WritesKey(s.db, op, s.open[t].key))
  }

  ghost predicate AccountHeld(s: Sys, a: Account) {
    exists t | t in s.open :: s.open[t].account == a
  }

  ghost predicate KeyHeld(s: Sys, k: LedgerKey) {
    exists t | t in s.open :: s.open[t].inserted && s.open[t].key == k
  }

  /** What the commit makes visible: the decrement and the row written earlier. */
  function Committed(db: Db, p: Open): Db
    requires p.account in db.balances
  {
    db.(balances := db.balances[p.account := db.balances[p.account] - p.amount],
        ledger := db.ledger[p.key := PayoutRow(p.account, p.amount, p.owner)],
        payouts := db.payouts + [Payout(p.account, p.amount, p.key)])
  }

  /** A statement that must wait changes nothing; one whose guard fails, and a duplicate key, end in a rollback. */
  ghost function Step(s: Sys, a: Action): Sys {
    match a
    case Decrement(t, account, amount, key, owner) =>
      if t in s.open || AccountHeld(s, account) || amount == 0 || account !in s.db.balances
        || s.db.balances[account] < amount then s
      else s.(open := s.open[t := Open(account, amount, key, owner, false)])
    case InsertRow(t) =>
      if t !in s.open || KeyHeld(s, s.open[t].key) then s
      else if s.open[t].key in s.db.ledger then s.(open := s.open - {t})
      else s.(open := s.open[t := s.open[t].(inserted := true)])
    case Commit(t) =>
      if t !in s.open || !s.open[t].inserted || s.open[t].account !in s.db.balances then s
      else s.(db := Committed(s.db, s.open[t]), open := s.open - {t})
    case Rollback(t) => s.(open := s.open - {t})
    case Other(op) => if op.OpPayout? || Waits(s, op) then s else s.(db := Apply(s.db, op))
  }

  ghost function Exec(t0: Time, actions: seq<Action>): Sys {
    if actions == [] then Sys(EmptyShard(t0), map[])
    else Step(Exec(t0, actions[..|actions| - 1]), actions[|actions| - 1])
  }

  /** What an open payout has read still holds when it commits. */
  predicate OpenOk(db: Db, p: Open) {
    && p.amount > 0 && p.account in db.balances && db.balances[p.account] >= p.amount
    && (p.inserted ==> p.key !in db.ledger)
  }

  ghost predicate LocksOk(s: Sys) {
    && (forall t | t in s.open :: OpenOk(s.db, s.open[t]))
    && (forall t, u | t in s.open && u in s.open && t != u :: s.open[t].account != s.open[u].account)
    && (forall t, u | t in s.open && u in s.open && t != u && s.open[t].inserted && s.open[u].inserted ::
       s.open[t].key != s.open[u].key)
  }

  lemma OtherKeepsLocks(s: Sys, op: Op)
    requires LocksOk(s) && !Waits(s, op)
    ensures LocksOk(s.(db := Apply(s.db, op)))
  {
    var after := Apply(s.db, op);
    forall t | t in s.open ensures OpenOk(after, s.open[t]) {
      assert OpenOk(s.db, s.open[t]);
      assert !WritesAccount(s.db, op, s.open[t].account);
      assert s.open[t].inserted ==> !WritesKey(s.db, op, s.open[t].key);
    }
  }

  lemma CommitKeepsLocks(s: Sys, t: TxId)
    requires LocksOk(s)
    ensures LocksOk(Step(s, Commit(t)))
  {
    if t in s.open && s.open[t].inserted {
      forall u | u in s.open && u != t ensures OpenOk(Committed(s.db, s.open[t]), s.open[u]) {
        assert OpenOk(s.db, s.open[u]);
      }
    }
  }

  lemma StepKeepsLocks(s: Sys, a: Action)
    requires LocksOk(s)
    ensures LocksOk(Step(s, a))
  {
    match a
    case Commit(t) => CommitKeepsLocks(s, t);
    case Other(op) => if !Waits(s, op) { OtherKeepsLocks(s, op); }
    case _ =>
  }

  lemma {:induction false} RunKeepsLocks(t0: Time, actions: seq<Action>)
    ensures LocksOk(Exec(t0, actions))
  {
    if actions != [] {
      RunKeepsLocks(t0, actions[..|actions| - 1]);
      StepKeepsLocks(Exec(t0, actions[..|actions| - 1]), actions[|actions| - 1]);
    }
  }

  /* ---- the interleaved transactions are a run of whole ones ---- */

  ghost function CommittedOp(s: Sys, a: Action): seq<Op> {
    match a
    case Commit(t) =>
      if t in s.open && s.open[t].inserted && s.open[t].account in s.db.balances then
        [OpPayout(s.open[t].account, s.open[t].amount, s.open[t].key, Some(s.open[t].owner))]
      else []
    case Other(op) => if op.OpPayout? || Waits(s, op) then [] else [op]
    case _ => []
  }

  ghost function Trace(t0: Time, actions: seq<Action>): seq<Op> {
    if actions == [] then []
    else
      var prior := actions[..|actions| - 1];
      Trace(t0, prior) + CommittedOp(Exec(t0, prior), actions[|actions| - 1])
  }

  /** At its commit a payout does what it would have done in one step: its guards still hold. */
  lemma CommitIsAtomic(s: Sys, a: Action)
    requires LocksOk(s)
    ensures |CommittedOp(s, a)| <= 1
    ensures Step(s, a).db == if CommittedOp(s, a) == [] then s.db else Apply(s.db, CommittedOp(s, a)[0])
  {
    if a.Commit? && a.tx in s.open {
      assert OpenOk(s.db, s.open[a.tx]);
    }
  }

  /**
   However payouts overlap with each other and with everything else, what is committed is a run of whole
   transactions.
   */
  lemma {:induction false} PayoutsAreSerial(t0: Time, actions: seq<Action>)
    ensures Exec(t0, actions).db == Run(t0, Trace(t0, actions))
  {
    if actions != [] {
      var prior, a := actions[..|actions| - 1], actions[|actions| - 1];
      PayoutsAreSerial(t0, prior);
      RunKeepsLocks(t0, prior);
      CommitIsAtomic(Exec(t0, prior), a);
      var ops, more := Trace(t0, prior), CommittedOp(Exec(t0, prior), a);
      if more == [] {
        assert ops + more == ops;
      } else {
        assert more == [more[0]];
        RunExtend(t0, ops, more[0]);
      }
    }
  }

  ghost predicate SaneActions(actions: seq<Action>) {
    forall i | 0 <= i < |actions| && actions[i].Other? :: SaneRate(actions[i].op)
  }

  lemma {:induction false} TraceIsSane(t0: Time, actions: seq<Action>)
    requires SaneActions(actions)
    ensures forall i | 0 <= i < |Trace(t0, actions)| :: SaneRate(Trace(t0, actions)[i])
  {
    if actions != [] {
      TraceIsSane(t0, actions[..|actions| - 1]);
    }
  }

  /** No overdraft and no half payout under any interleaving of the statements. */
  lemma InterleavedPayouts(t0: Time, actions: seq<Action>)
    requires SaneActions(actions)
    ensures NoOverdraft(Exec(t0, actions).db) && PayoutsMatch(Exec(t0, actions).db)
  {
    PayoutsAreSerial(t0, actions);
    TraceIsSane(t0, actions);
    NeverOverdrawn(t0, Trace(t0, actions));
    RunPayoutsMatch(t0, Trace(t0, actions));
  }
}
