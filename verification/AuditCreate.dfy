/**
  `AuditRepository.create` as the steps its database transaction takes, with any number of
  transactions interleaved and any of them aborting at any point. Reading the singleton row
  `FOR UPDATE` waits until no other transaction holds it; what a transaction inserts becomes
  visible when it commits.
 */
module AuditCreate {
  import opened Common
  import opened CanonicalJson
  import opened AuditChain

  /** How far one transaction has got. */
  datatype Tx =
    | Begun(content: Content)
    | Locked(content: Content, previousHash: Option<string>)
    | Inserted(row: Row)
    | HeadWritten(row: Row)

  datatype Db = Db(rows: seq<Row>, lastHash: Option<string>, lockedBy: Option<nat>, txs: map<nat, Tx>)

  datatype Event =
    | Begin(tx: nat, content: Content)
    | LockHead(tx: nat)
    | Insert(tx: nat)
    | WriteHead(tx: nat)
    | Commit(tx: nat)
    | Abort(tx: nat)

  function ContentOf(t: Tx): Content {
    match t
    case Begun(c) => c
    case Locked(c, _) => c
    case Inserted(r) => r.content
    case HeadWritten(r) => r.content
  }

  function NewRow(h: RowHash, c: Content, previousHash: Option<string>): Row {
    Row(c, Some(h(c, previousHash)), previousHash)
  }

  /** A random id is assumed to be new to the table and to every running transaction. */
  predicate FreshId(db: Db, id: string) {
    && (forall r :: r in db.rows ==> r.content.id != id)
    && (forall t :: t in db.txs ==> ContentOf(db.txs[t]).id != id)
  }

  function Forget(txs: map<nat, Tx>, tx: nat): map<nat, Tx> {
    map t | t in txs && t != tx :: txs[t]
  }

  predicate Enabled(db: Db, e: Event) {
    match e
    case Begin(tx, c) => tx !in db.txs && FreshId(db, c.id)
    case LockHead(tx) => tx in db.txs && db.txs[tx].Begun? && db.lockedBy.None?
    case Insert(tx) => tx in db.txs && db.txs[tx].Locked?
    case WriteHead(tx) => tx in db.txs && db.txs[tx].Inserted?
    case Commit(tx) => tx in db.txs && db.txs[tx].HeadWritten?
    case Abort(tx) => tx in db.txs
  }

  /** One atomic step; a step that cannot be taken leaves the database as it is. */
  function Step(h: RowHash, db: Db, e: Event): Db {
    if !Enabled(db, e) then db
    else match e
    case Begin(tx, c) => db.(txs := db.txs[tx := Begun(c)])
    case LockHead(tx) =>
      db.(lockedBy := Some(tx), txs := db.txs[tx := Locked(db.txs[tx].content, db.lastHash)])
    case Insert(tx) =>
      db.(txs := db.txs[tx := Inserted(NewRow(h, db.txs[tx].content, db.txs[tx].previousHash))])
    case WriteHead(tx) => db.(txs := db.txs[tx := HeadWritten(db.txs[tx].row)])
    case Commit(tx) =>
      Db(db.rows + [db.txs[tx].row], db.txs[tx].row.hash, None, Forget(db.txs, tx))
    case Abort(tx) =>
      db.(lockedBy := if db.lockedBy == Some(tx) then None else db.lockedBy, txs := Forget(db.txs, tx))
  }

  function Exec(h: RowHash, db: Db, es: seq<Event>): Db {
    if es == [] then db else Step(h, Exec(h, db, es[..|es| - 1]), es[|es| - 1])
  }

  /** Before the chain starts: old rows without a hash, and the singleton row without one. */
  ghost predicate Init(db: Db) {
    UniqueIds(db.rows) && Hashed(db.rows) == [] && db.lastHash == None && db.lockedBy == None && db.txs == map[]
  }

  /** Only the holder of the lock is past its read, and what it read is still the last hash. */
  ghost predicate TxInv(h: RowHash, db: Db, tx: nat)
    requires tx in db.txs
  {
    && (db.txs[tx].Begun? <==> db.lockedBy != Some(tx))
    && (match db.txs[tx]
        case Begun(_) => true
        case Locked(_, p) => p == db.lastHash
        case Inserted(r) => r == NewRow(h, r.content, db.lastHash)
        case HeadWritten(r) => r == NewRow(h, r.content, db.lastHash))
    && (forall r :: r in db.rows ==> r.content.id != ContentOf(db.txs[tx]).id)
    && (forall t :: t in db.txs && t != tx ==> ContentOf(db.txs[t]).id != ContentOf(db.txs[tx]).id)
  }

  ghost predicate Inv(h: RowHash, db: Db) {
    && IsChain(h, Hashed(db.rows))
    && db.lastHash == LastHash(Hashed(db.rows))
    && UniqueIds(db.rows)
    && (db.lockedBy.Some? ==> db.lockedBy.value in db.txs)
    && (forall tx :: tx in db.txs ==> TxInv(h, db, tx))
  }

  lemma {:induction false} HashedAppend(rows: seq<Row>, r: Row)
    ensures Hashed(rows + [r]) == Hashed(rows) + if r.hash.Some? then [r] else []
  {
    var all := rows + [r];
    if rows == [] {
      assert all == [r] && all[1..] == [];
    } else {
      assert all[0] == rows[0] && all[1..] == rows[1..] + [r];
      HashedAppend(rows[1..], r);
      var head := if rows[0].hash.Some? then [rows[0]] else [];
      assert Hashed(all) == head + Hashed(all[1..]) && Hashed(rows) == head + Hashed(rows[1..]);
    }
  }

  lemma CommitKeepsChain(h: RowHash, rows: seq<Row>, r: Row)
    requires IsChain(h, Hashed(rows)) && r == NewRow(h, r.content, LastHash(Hashed(rows)))
    ensures IsChain(h, Hashed(rows + [r]))
    ensures LastHash(Hashed(rows + [r])) == r.hash
  {
    HashedAppend(rows, r);
    ChainSnoc(h, Hashed(rows), r);
  }

  /** Nothing a running transaction relies on is changed by the end of the one that held the lock. */
  lemma CommitKeepsOthers(h: RowHash, db: Db, tx: nat, t: nat)
    requires Inv(h, db) && Enabled(db, Commit(tx)) && t in Step(h, db, Commit(tx)).txs
    ensures TxInv(h, Step(h, db, Commit(tx)), t)
  {
    assert TxInv(h, db, tx) && TxInv(h, db, t);
  }

  lemma CommitKeepsInv(h: RowHash, db: Db, tx: nat)
    requires Inv(h, db) && Enabled(db, Commit(tx))
    ensures Inv(h, Step(h, db, Commit(tx)))
  {
    var db' := Step(h, db, Commit(tx));
    assert TxInv(h, db, tx);
    CommitKeepsChain(h, db.rows, db.txs[tx].row);
    forall t | t in db'.txs
      ensures TxInv(h, db', t)
    {
      CommitKeepsOthers(h, db, tx, t);
    }
  }

  lemma BeginKeepsInv(h: RowHash, db: Db, tx: nat, c: Content)
    requires Inv(h, db) && Enabled(db, Begin(tx, c))
    ensures Inv(h, Step(h, db, Begin(tx, c)))
  {
    var db' := Step(h, db, Begin(tx, c));
    forall t | t in db'.txs
      ensures TxInv(h, db', t)
    {
      assert t in db.txs ==> TxInv(h, db, t);
    }
  }

  lemma AbortKeepsInv(h: RowHash, db: Db, tx: nat)
    requires Inv(h, db) && Enabled(db, Abort(tx))
    ensures Inv(h, Step(h, db, Abort(tx)))
  {
    var db' := Step(h, db, Abort(tx));
    assert TxInv(h, db, tx);
    forall t | t in db'.txs
      ensures TxInv(h, db', t)
    {
      assert TxInv(h, db, t);
    }
  }

  /** Steps inside a transaction leave the rows alone. */
  lemma InnerStepKeepsInv(h: RowHash, db: Db, e: Event)
    requires Inv(h, db) && Enabled(db, e) && (e.LockHead? || e.Insert? || e.WriteHead?)
    ensures Inv(h, Step(h, db, e))
  {
    var db' := Step(h, db, e);
    assert TxInv(h, db, e.tx);
    forall t | t in db'.txs
      ensures TxInv(h, db', t)
    {
      assert TxInv(h, db, t);
    }
  }

  lemma StepKeepsInv(h: RowHash, db: Db, e: Event)
    requires Inv(h, db)
    ensures Inv(h, Step(h, db, e))
    ensures db.rows <= Step(h, db, e).rows
  {
    if Enabled(db, e) {
      match e
      case Begin(tx, c) => BeginKeepsInv(h, db, tx, c);
      case Commit(tx) => CommitKeepsInv(h, db, tx);
      case Abort(tx) => AbortKeepsInv(h, db, tx);
      case _ => InnerStepKeepsInv(h, db, e);
    }
  }

  lemma {:induction false} ReachableInv(h: RowHash, db: Db, es: seq<Event>)
    requires Inv(h, db)
    ensures Inv(h, Exec(h, db, es))
    ensures db.rows <= Exec(h, db, es).rows
  {
    if es != [] {
      ReachableInv(h, db, es[..|es| - 1]);
      StepKeepsInv(h, Exec(h, db, es[..|es| - 1]), es[|es| - 1]);
    }
  }

  /**
    In every interleaving the committed rows form one unforked chain, in commit order, that
    ends at the stored last hash; this is what the verifier accepts.
   */
  lemma CommittedRowsFormChain(h: RowHash, db: Db, es: seq<Event>)
    requires Init(db)
    ensures var end := Exec(h, db, es);
            && UniqueIds(end.rows)
            && IsChain(h, Hashed(end.rows)) && end.lastHash == LastHash(Hashed(end.rows))
            && Chainable(h, Hashed(end.rows))
            && db.rows <= end.rows
  {
    ReachableInv(h, db, es);
    var rows := Hashed(Exec(h, db, es).rows);
    assert IsOrderingOf(rows, rows);
  }

  // ---- What is committed is what was given ----

  /** The fields that the transaction under this number was begun with, the last time it was. */
  function BegunWith(h: RowHash, db: Db, es: seq<Event>, tx: nat): Option<Content> {
    if es == [] then None
    else
      var before, e := es[..|es| - 1], es[|es| - 1];
      if e.Begin? && e.tx == tx && Enabled(Exec(h, db, before), e) then Some(e.content)
      else BegunWith(h, db, before, tx)
  }

  /** The fields of the transactions that the run commits, in the order of their commits. */
  function Committed(h: RowHash, db: Db, es: seq<Event>): seq<Option<Content>> {
    if es == [] then []
    else
      var before, e := es[..|es| - 1], es[|es| - 1];
      Committed(h, db, before)
      + if e.Commit? && Enabled(Exec(h, db, before), e) then [BegunWith(h, db, before, e.tx)] else []
  }

  /** No step of a transaction changes its fields. */
  lemma StepKeepsContent(h: RowHash, db: Db, e: Event, tx: nat)
    requires tx in Step(h, db, e).txs && !(e.Begin? && e.tx == tx && Enabled(db, e))
    ensures tx in db.txs && ContentOf(Step(h, db, e).txs[tx]) == ContentOf(db.txs[tx])
  {}

  lemma {:induction false} RunKeepsContent(h: RowHash, db: Db, es: seq<Event>, tx: nat)
    requires Init(db) && tx in Exec(h, db, es).txs
    ensures BegunWith(h, db, es, tx) == Some(ContentOf(Exec(h, db, es).txs[tx]))
  {
    if es != [] {
      var before, e := es[..|es| - 1], es[|es| - 1];
      if !(e.Begin? && e.tx == tx && Enabled(Exec(h, db, before), e)) {
        StepKeepsContent(h, Exec(h, db, before), e, tx);
        RunKeepsContent(h, db, before, tx);
      }
    }
  }

  /** Only a commit adds a row, and it adds the one whose fields its transaction holds. */
  lemma StepAddsRow(h: RowHash, db: Db, e: Event)
    ensures var added := e.Commit? && Enabled(db, e);
            && (added ==> Step(h, db, e).rows == db.rows + [db.txs[e.tx].row])
            && (!added ==> Step(h, db, e).rows == db.rows)
  {}

  /**
    Over all runs: behind the rows that were there, the table holds one row for each commit,
    in the order of the commits, with exactly the fields that its transaction was begun with.
   */
  lemma {:induction false} CommittedAsGiven(h: RowHash, db: Db, es: seq<Event>)
    requires Init(db)
    ensures var rows, given := Exec(h, db, es).rows, Committed(h, db, es);
            && |rows| == |db.rows| + |given| && rows[..|db.rows|] == db.rows
            && forall i :: 0 <= i < |given| ==> given[i] == Some(rows[|db.rows| + i].content)
  {
    if es != [] {
      var before, e := es[..|es| - 1], es[|es| - 1];
      CommittedAsGiven(h, db, before);
      StepAddsRow(h, Exec(h, db, before), e);
      if e.Commit? && Enabled(Exec(h, db, before), e) {
        RunKeepsContent(h, db, before, e.tx);
      }
    }
  }

  /** A `create` that nobody disturbs appends its row, linked to the last hash, and makes its hash the last one. */
  lemma UndisturbedCreate(h: RowHash, db: Db, tx: nat, c: Content)
    requires tx !in db.txs && FreshId(db, c.id) && db.lockedBy == None
    ensures var begun := Step(h, db, Begin(tx, c));
            var inserted := Step(h, Step(h, begun, LockHead(tx)), Insert(tx));
            var end := Step(h, Step(h, inserted, WriteHead(tx)), Commit(tx));
            && end.rows == db.rows + [Row(c, Some(h(c, db.lastHash)), db.lastHash)]
            && end.lastHash == Some(h(c, db.lastHash)) && end.lockedBy == None && end.txs == db.txs
  {
    var begun := Step(h, db, Begin(tx, c));
    var locked := Step(h, begun, LockHead(tx));
    assert locked.txs[tx] == Locked(c, db.lastHash);
    var inserted := Step(h, locked, Insert(tx));
    assert inserted.txs[tx] == Inserted(Row(c, Some(h(c, db.lastHash)), db.lastHash));
    var written := Step(h, inserted, WriteHead(tx));
    assert Forget(written.txs, tx) == db.txs;
  }

  /** Of a table built by `create`, a remainder verifies exactly when only its newest rows are gone. */
  lemma RemovalDetectedUnlessSuffix(h: RowHash, db: Db, es: seq<Event>, left: seq<Row>)
    requires Init(db) && CollisionFree(h, Hashed(Exec(h, db, es).rows))
    requires Within(left, Hashed(Exec(h, db, es).rows)) && Distinct(left)
    ensures var rows := Hashed(Exec(h, db, es).rows);
            Chainable(h, left) <==> exists k :: 0 <= k <= |rows| && IsOrderingOf(rows[..k], left)
  {
    CommittedRowsFormChain(h, db, es);
    HashedKeepsUniqueIds(Exec(h, db, es).rows);
    SurvivorsVerifyIffPrefix(h, Hashed(Exec(h, db, es).rows), left);
  }

  /** Of a table built by `create`, no change of contents under kept hash columns verifies. */
  lemma TamperedTableRejected(h: RowHash, db: Db, es: seq<Event>, rows': seq<Row>)
    requires Init(db) && CollisionFree(h, Hashed(Exec(h, db, es).rows) + rows')
    requires ContentTampered(Hashed(Exec(h, db, es).rows), rows')
    ensures !Chainable(h, rows')
  {
    CommittedRowsFormChain(h, db, es);
    TamperingIsDetected(h, Hashed(Exec(h, db, es).rows), rows');
  }

  /** The repository's tables and running transactions, updated in place one statement at a time. */
  class AuditRepository {
    const h: RowHash
    var rows: seq<Row>
    var lastHash: Option<string>
    var lockedBy: Option<nat>
    var txs: map<nat, Tx>

    ghost function View(): Db
      reads this
    {
      Db(rows, lastHash, lockedBy, txs)
    }

    constructor (h: RowHash)
      ensures this.h == h && Init(View())
    {
      this.h := h;
      rows, lastHash, lockedBy, txs := [], None, None, map[];
    }

    method BeginTransaction(tx: nat, content: Content)
      requires tx !in txs && FreshId(View(), content.id)
      modifies this
      ensures View() == Step(h, old(View()), Begin(tx, content))
      ensures txs == old(txs)[tx := Begun(content)] && rows == old(rows)
    {
      txs := txs[tx := Begun(content)];
    }

    /** `SELECT last_hash ... FOR UPDATE`; false while another transaction holds the row. */
    method SelectForUpdate(tx: nat) returns (granted: bool)
      requires tx in txs && txs[tx].Begun?
      modifies this
      ensures View() == Step(h, old(View()), LockHead(tx))
      ensures granted <==> old(lockedBy).None?
      ensures granted ==> lockedBy == Some(tx) && txs == old(txs)[tx := Locked(ContentOf(old(txs)[tx]), lastHash)]
      ensures rows == old(rows) && lastHash == old(lastHash)
    {
      granted := lockedBy.None?;
      if granted {
        lockedBy := Some(tx);
        txs := txs[tx := Locked(txs[tx].content, lastHash)];
      }
    }

    method InsertRow(tx: nat)
      requires tx in txs && txs[tx].Locked?
      modifies this
      ensures View() == Step(h, old(View()), Insert(tx))
      ensures var c, p := old(txs)[tx].content, old(txs)[tx].previousHash;
              txs == old(txs)[tx := Inserted(Row(c, Some(h(c, p)), p))] && rows == old(rows)
    {
      var t := txs[tx];
      var hash := h(t.content, t.previousHash);
      txs := txs[tx := Inserted(Row(t.content, Some(hash), t.previousHash))];
    }

    method UpsertLastHash(tx: nat)
      requires tx in txs && txs[tx].Inserted?
      modifies this
      ensures View() == Step(h, old(View()), WriteHead(tx))
      ensures txs == old(txs)[tx := HeadWritten(old(txs)[tx].row)] && rows == old(rows) && lastHash == old(lastHash)
    {
      txs := txs[tx := HeadWritten(txs[tx].row)];
    }

    method CommitTransaction(tx: nat) returns (created: Row)
      requires tx in txs && txs[tx].HeadWritten?
      modifies this
      ensures View() == Step(h, old(View()), Commit(tx))
      ensures created == old(txs)[tx].row && rows == old(rows) + [created]
      ensures lastHash == created.hash && lockedBy == None && tx !in txs
    {
      created := txs[tx].row;
      rows := rows + [created];
      lastHash := created.hash;
      lockedBy := None;
      txs := map t | t in txs && t != tx :: txs[t];
    }

    method RollBack(tx: nat)
      requires tx in txs
      modifies this
      ensures View() == Step(h, old(View()), Abort(tx))
      ensures rows == old(rows) && lastHash == old(lastHash) && tx !in txs && lockedBy != Some(tx)
    {
      if lockedBy == Some(tx) {
        lockedBy := None;
      }
      txs := map t | t in txs && t != tx :: txs[t];
    }
  }
}
