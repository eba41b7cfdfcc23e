/** Concurrent wallet transactions: every database statement of `ApplyTransaction` is one step, steps of different
    transactions interleave freely, and any transaction can fail at any point before it commits.

    `SELECT ... FOR UPDATE` locks an existing row and waits while another transaction holds it; it locks nothing when
    there is no committed row.  `INSERT` of a wallet waits while another transaction has inserted the same key and not
    ended, and fails when the row has been committed meanwhile. */
module WalletInterleaving {
  import opened Common
  import opened Wallet

  /** Where a transaction stands; `base` is the wallet it read or created, `next` the one it will commit. */
  datatype Stage =
    | Started
    | NoRow
    | Holding(base: Summary)
    | Saved(next: Summary)
    | Logged(next: Summary)
    | Committed
    | Aborted

  datatype Txn = Txn(tx: Tx, stage: Stage)

  /** `tables` are the committed rows, `owner` the keys locked by a transaction that has not ended, `commits` the
      transactions in the order they committed. */
  datatype State = State(tables: Store, owner: map<string, nat>, txns: map<nat, Txn>, commits: seq<nat>)

  const INIT := State(Store(map[], []), map[], map[], [])

  datatype Step =
    | Begin(id: nat, tx: Tx)
    | Select(id: nat)
    | Insert(id: nat)
    | Save(id: nat)
    | Log(id: nat)
    | Commit(id: nat)
    | Fail(id: nat)
    | TouchRow(user: string)

  predicate Holds(stage: Stage) { stage.Holding? || stage.Saved? || stage.Logged? }

  ghost predicate Enabled(s: State, step: Step) {
    match step
    case Begin(id, tx) => id !in s.txns && tx.user != "" && tx.amount >= 0
    case Select(id) =>
      && id in s.txns && s.txns[id].stage.Started?
      && (s.txns[id].tx.user in s.tables.wallets ==> s.txns[id].tx.user !in s.owner)
    case Insert(id) => id in s.txns && s.txns[id].stage.NoRow? && s.txns[id].tx.user !in s.owner
    case Save(id) => id in s.txns && s.txns[id].stage.Holding?
    case Log(id) => id in s.txns && s.txns[id].stage.Saved?
    case Commit(id) => id in s.txns && s.txns[id].stage.Logged?
    case Fail(id) => id in s.txns && !s.txns[id].stage.Committed? && !s.txns[id].stage.Aborted?
    case TouchRow(user) => user != "" && user !in s.owner && user !in s.tables.wallets
  }

  function At(s: State, id: nat, stage: Stage): State
    requires id in s.txns
  {
    s.(txns := s.txns[id := s.txns[id].(stage := stage)])
  }

  /** Rolls a transaction back: its lock goes, and nothing it wrote was ever in the tables. */
  function Abort(s: State, id: nat): State
    requires id in s.txns
  {
    var released := if Holds(s.txns[id].stage) then s.owner - {s.txns[id].tx.user} else s.owner;
    At(s, id, Aborted).(owner := released)
  }

  function Next(s: State, step: Step): State
    requires Enabled(s, step)
  {
    match step
    case Begin(id, tx) => s.(txns := s.txns[id := Txn(tx, Started)])
    case Select(id) =>
      var user := s.txns[id].tx.user;
      if user in s.tables.wallets then At(s, id, Holding(s.tables.wallets[user])).(owner := s.owner[user := id])
      else At(s, id, NoRow)
    case Insert(id) =>
      var user := s.txns[id].tx.user;
      if user in s.tables.wallets then Abort(s, id)
      else At(s, id, Holding(EMPTY_WALLET)).(owner := s.owner[user := id])
    case Save(id) =>
      (match Apply(s.txns[id].stage.base, s.txns[id].tx)
       case Ok(w) => At(s, id, Saved(w))
       case Err(_) => Abort(s, id))
    case Log(id) => At(s, id, Logged(s.txns[id].stage.next))
    case Commit(id) =>
      var tx := s.txns[id].tx;
      At(s, id, Committed).(
        tables := Store(s.tables.wallets[tx.user := s.txns[id].stage.next], s.tables.ledger + [tx]),
        owner := s.owner - {tx.user},
        commits := s.commits + [id])
    case Fail(id) => Abort(s, id)
    case TouchRow(user) => s.(tables := Touch(s.tables, user))
  }

  ghost predicate Legal(steps: seq<Step>) {
    steps != [] ==> Legal(steps[..|steps| - 1]) && Enabled(Run(steps[..|steps| - 1]), steps[|steps| - 1])
  }

  ghost function Run(steps: seq<Step>): State {
    if steps == [] then INIT
    else
      var before := Run(steps[..|steps| - 1]);
      if Enabled(before, steps[|steps| - 1]) then Next(before, steps[|steps| - 1]) else before
  }

  // ---------------------------------------------------------------- invariants

  /** A transaction that has its row holds the only lock on it, and has computed from the committed wallet. */
  ghost predicate TxnOk(s: State, id: nat)
    requires id in s.txns
  {
    var Txn(tx, stage) := s.txns[id];
    && tx.user != "" && tx.amount >= 0
    && (Holds(stage) <==> tx.user in s.owner && s.owner[tx.user] == id)
    && (stage.Holding? ==> stage.base == View(s.tables.wallets, tx.user))
    && (stage.Saved? || stage.Logged? ==> Apply(View(s.tables.wallets, tx.user), tx) == Ok(stage.next))
    && (stage.Committed? <==> id in s.commits)
  }

  /** Running the committed transactions one at a time, in commit order, refuses none and leads to the wallet stored. */
  ghost predicate Serial(s: State, user: string) {
    Replay(s.tables.ledger, user) == Ok(View(s.tables.wallets, user))
  }

  ghost predicate Invariant(s: State) {
    && (forall id :: id in s.txns ==> TxnOk(s, id))
    && (forall user :: user in s.owner ==> s.owner[user] in s.txns && s.txns[s.owner[user]].tx.user == user)
    && (forall user :: Serial(s, user))
    && NonNegative(s.tables.ledger)
    && |s.commits| == |s.tables.ledger|
    && (forall i :: 0 <= i < |s.commits| ==> s.commits[i] in s.txns && s.txns[s.commits[i]].tx == s.tables.ledger[i])
    && (forall i, j :: 0 <= i < j < |s.commits| ==> s.commits[i] != s.commits[j])
  }

  lemma ReplaySnoc(ledger: seq<Tx>, tx: Tx, user: string)
    ensures
      Replay(ledger + [tx], user) ==
      if Replay(ledger, user).Err? || tx.user != user then Replay(ledger, user) else Apply(Replay(ledger, user).value, tx)
  {
    assert (ledger + [tx])[..|ledger|] == ledger;
  }

  lemma CommitKeeps(s: State, id: nat)
    requires Invariant(s) && Enabled(s, Commit(id))
    ensures Invariant(Next(s, Commit(id)))
  {
    var t, tx := Next(s, Commit(id)), s.txns[id].tx;
    assert TxnOk(s, id);
    forall user ensures Serial(t, user) {
      assert Serial(s, user);
      ReplaySnoc(s.tables.ledger, tx, user);
    }
    forall other | other in t.txns ensures TxnOk(t, other) {
      assert TxnOk(s, other);
    }
  }

  lemma OthersKeepTxn(s: State, step: Step, id: nat)
    requires Invariant(s) && Enabled(s, step) && !step.Commit? && id in Next(s, step).txns
    ensures TxnOk(Next(s, step), id)
  {
    assert id in s.txns ==> TxnOk(s, id);
    if !step.Begin? && !step.TouchRow? { assert TxnOk(s, step.id); }
  }

  lemma OthersKeep(s: State, step: Step)
    requires Invariant(s) && Enabled(s, step) && !step.Commit?
    ensures Invariant(Next(s, step))
  {
    var t := Next(s, step);
    forall id | id in t.txns ensures TxnOk(t, id) {
      OthersKeepTxn(s, step, id);
    }
    forall user ensures Serial(t, user) {
      assert Serial(s, user);
    }
  }

  lemma {:induction false} Invariants(steps: seq<Step>)
    requires Legal(steps)
    ensures Invariant(Run(steps))
  {
    if steps == [] {
      forall user ensures Serial(INIT, user) { }
    } else {
      var before, step := steps[..|steps| - 1], steps[|steps| - 1];
      Invariants(before);
      if step.Commit? { CommitKeeps(Run(before), step.id); } else { OthersKeep(Run(before), step); }
    }
  }

  // ---------------------------------------------------------------- results

  /** Every interleaving is serial: for each rider the committed rows, replayed in commit order as transactions run
      alone, all succeed and give the stored wallet. */
  lemma Serializable(steps: seq<Step>, user: string)
    requires Legal(steps)
    ensures Replay(Run(steps).tables.ledger, user) == Ok(View(Run(steps).tables.wallets, user))
  {
    Invariants(steps);
    assert Serial(Run(steps), user);
  }

  /** In every interleaving a stored balance is the committed top-ups less the committed deductions, a difference that
      is never negative, and the points are the committed rewards: each exactly if it fits the column, and modulo two to
      the 64 whether or not. */
  lemma Conservation(steps: seq<Step>, user: string)
    requires Legal(steps)
    ensures
      var Store(wallets, ledger) := Run(steps).tables;
      var w := View(wallets, user);
      && w.balance == Wrap64(Net(ledger, user)) && w.points == Wrap64(Total(ledger, user, Reward))
      && Net(ledger, user) >= 0
      && (w.balance == Net(ledger, user) <==> Net(ledger, user) <= MAX_INT64)
      && (w.points == Total(ledger, user, Reward) <==> Total(ledger, user, Reward) <= MAX_INT64)
  {
    Invariants(steps);
    Serializable(steps, user);
    LedgerSum(Run(steps).tables.ledger, user);
  }

  /** The ledger is exactly the transactions that committed, each once: one that aborted, whenever it did, left no row. */
  lemma {:induction false} LedgerIsCommitted(steps: seq<Step>)
    requires Legal(steps)
    ensures
      var s := Run(steps);
      && |s.tables.ledger| == |s.commits|
      && (forall i :: 0 <= i < |s.commits| ==>
            && s.commits[i] in s.txns && s.txns[s.commits[i]].stage.Committed?
            && s.txns[s.commits[i]].tx == s.tables.ledger[i])
      && (forall i, j :: 0 <= i < j < |s.commits| ==> s.commits[i] != s.commits[j])
      && (forall id :: id in s.txns && s.txns[id].stage.Aborted? ==> id !in s.commits)
  {
    Invariants(steps);
    var s := Run(steps);
    forall i | 0 <= i < |s.commits| ensures s.txns[s.commits[i]].stage.Committed? {
      assert TxnOk(s, s.commits[i]);
    }
    forall id | id in s.txns && s.txns[id].stage.Aborted? ensures id !in s.commits {
      assert TxnOk(s, id);
    }
  }

  /** Only a commit changes what other transactions can read, apart from the empty row a balance query creates. */
  lemma OnlyCommitsWrite(s: State, step: Step, user: string)
    requires Enabled(s, step) && !step.Commit?
    ensures Next(s, step).tables.ledger == s.tables.ledger
    ensures View(Next(s, step).tables.wallets, user) == View(s.tables.wallets, user)
  {
  }

  /** A transaction that fails, at whatever point before its commit, is rolled back: the tables are as they were, and the
      wallet it held is free for the next one to look up or create. */
  lemma FailExactly(steps: seq<Step>, id: nat, next: nat, tx: Tx)
    requires Legal(steps) && Enabled(Run(steps), Fail(id))
    requires next !in Run(steps).txns && tx.user == Run(steps).txns[id].tx.user && tx.amount >= 0
    ensures
      var s, t := Run(steps), Next(Run(steps), Fail(id));
      && t.tables == s.tables && t.commits == s.commits && id in t.txns && t.txns[id].stage.Aborted?
      && (forall other :: other in s.txns && other != id ==> other in t.txns && t.txns[other] == s.txns[other])
      && (Holds(s.txns[id].stage) ==>
            Enabled(t, Begin(next, tx)) && Enabled(Next(t, Begin(next, tx)), Select(next)))
  {
    Invariants(steps);
    assert TxnOk(Run(steps), id);
  }

  /** No two transactions hold the same wallet, so the loser of a first-touch race waits and then aborts. */
  lemma {:induction false} Exclusive(steps: seq<Step>, a: nat, b: nat)
    requires Legal(steps) && a in Run(steps).txns && b in Run(steps).txns && a != b
    requires Holds(Run(steps).txns[a].stage) && Holds(Run(steps).txns[b].stage)
    ensures Run(steps).txns[a].tx.user != Run(steps).txns[b].tx.user
  {
    Invariants(steps);
    assert TxnOk(Run(steps), a) && TxnOk(Run(steps), b);
  }

  /** The steps a transaction takes when no other one is in its way, up to having its row. */
  ghost function HoldAlone(s: State, id: nat, tx: Tx): (t: State)
    requires Enabled(s, Begin(id, tx)) && tx.user !in s.owner
    ensures t == s.(txns := s.txns[id := Txn(tx, Holding(View(s.tables.wallets, tx.user)))], owner := s.owner[tx.user := id])
  {
    var looked := Next(Next(s, Begin(id, tx)), Select(id));
    if looked.txns[id].stage.NoRow? then Next(looked, Insert(id)) else looked
  }

  /** The rest of them. */
  ghost function RunAlone(s: State, id: nat, tx: Tx): State
    requires Enabled(s, Begin(id, tx)) && tx.user !in s.owner
  {
    var saved := Next(HoldAlone(s, id, tx), Save(id));
    if saved.txns[id].stage.Aborted? then saved else Next(Next(saved, Log(id)), Commit(id))
  }

  /** The steps taken without interference are the transaction as the repository runs it alone: they commit exactly when
      it succeeds, and then leave the tables it leaves. */
  lemma AloneIsTransact(s: State, id: nat, tx: Tx)
    requires Enabled(s, Begin(id, tx)) && tx.user !in s.owner
    ensures
      var t := RunAlone(s, id, tx);
      && t.tables == Transact(s.tables, tx).0
      && id in t.txns && t.txns[id] == Txn(tx, if Transact(s.tables, tx).1.Ok? then Committed else Aborted)
      && t.owner == s.owner
  {
    assert s.owner[tx.user := id] - {tx.user} == s.owner;
  }

  /** A transaction run alone, as `Transact` does it, keeps tables that a ledger explains explained. */
  lemma {:induction false} AloneIsSerial(s: Store, tx: Tx, user: string)
    requires Replay(s.ledger, user) == Ok(View(s.wallets, user))
    ensures Replay(Transact(s, tx).0.ledger, user) == Ok(View(Transact(s, tx).0.wallets, user))
  {
    ReplaySnoc(s.ledger, tx, user);
  }
}
