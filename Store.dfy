/**
 * storeTransaction (payeer.php lines 457-505): the transaction table keyed by
 * txn_id, and the project whose funds a completed transaction raises.
 *
 * Commit is the operation on values; TransactionTable.StoreTransaction is the
 * in-place method the plugin calls, proved to follow Commit. The lemmas at
 * the end are about any sequence of notifications: whatever arrives, and in
 * whatever order, the funds for one txn_id are credited at most once.
 */
module Store {
  import opened Wrappers
  import opened Transaction
  import opened Amount

  /** A stored transaction: its internal id, its bound columns and the extra-data snapshots appended so far. */
  datatype Record = Record(id: nat, fields: TxnFields, extraData: seq<map<string, string>>)

  /** The transaction table, keyed by txn_id, and the internal id the next new row receives. */
  datatype Table = Table(records: map<string, Record>, nextId: nat)

  /** What storeTransaction hands back: the bound data (extra data removed) and the row's internal id. */
  datatype Stored = Stored(id: nat, fields: TxnFields)

  predicate Completed(t: Table, txnId: string) {
    txnId in t.records && t.records[txnId].fields.status == COMPLETED
  }

  /** Each row sits under its own txn_id, and internal ids are distinct and below nextId. */
  predicate Valid(t: Table) {
    && (forall k :: k in t.records ==> t.records[k].fields.txnId == k && t.records[k].id < t.nextId)
    && (forall k, k' :: k in t.records && k' in t.records && k != k' ==> t.records[k].id != t.records[k'].id)
  }

  /** bind(): every column of the draft overwrites the row's; a draft without receiver id keeps the stored one. */
  function Bind(stored: TxnFields, incoming: TxnFields): TxnFields {
    if incoming.receiverId.None? then incoming.(receiverId := stored.receiverId) else incoming
  }

  /** addExtraData, called only when the snapshot is not empty. */
  function AppendExtra(history: seq<map<string, string>>, extra: map<string, string>): seq<map<string, string>> {
    if extra == map[] then history else history + [extra]
  }

  /**
   * storeTransaction on values: the new table and the call's result. A row
   * that is already completed is left alone and nothing is returned;
   * otherwise the draft is upserted under its txn_id, and the call returns
   * the stored data exactly when the row is now completed, which is when the
   * caller's project is credited.
   */
  function Commit(t: Table, d: Draft): (out: (Table, Option<Stored>))
    ensures Valid(t) ==> Valid(out.0)
    ensures Completed(t, d.fields.txnId) ==> out == (t, None)
    ensures !Completed(t, d.fields.txnId) ==>
      var key := d.fields.txnId;
      && key in out.0.records
      && out.0.records[key].fields == Bind(if key in t.records then t.records[key].fields else d.fields, d.fields)
      && out.0.records[key].extraData
         == AppendExtra(if key in t.records then t.records[key].extraData else [], d.extraData)
      && (key in t.records ==> out.0.records[key].id == t.records[key].id && out.0.nextId == t.nextId)
      && (key !in t.records ==> out.0.records[key].id == t.nextId && out.0.nextId == t.nextId + 1)
      && (out.1.Some? <==> d.fields.status == COMPLETED)
      && (out.1.Some? ==> out.1.value == Stored(out.0.records[key].id, d.fields))
    ensures forall k :: k != d.fields.txnId ==>
      (k in out.0.records <==> k in t.records) && (k in t.records ==> out.0.records[k] == t.records[k])
    ensures forall k :: Completed(t, k) ==> Completed(out.0, k)
  {
    var key := d.fields.txnId;
    if Completed(t, key) then (t, None)
    else
      var existing := key in t.records;
      var row := if existing then t.records[key] else Record(t.nextId, d.fields, []);
      var row' := Record(row.id, Bind(row.fields, d.fields), AppendExtra(row.extraData, d.extraData));
      var t' := Table(t.records[key := row'], if existing then t.nextId else t.nextId + 1);
      (t', if row'.fields.status == COMPLETED then Some(Stored(row'.id, d.fields)) else None)
  }

  // ------------------------------------------------------------ in place

  /** The crowdfunding project a transaction funds (Crowdfunding\Project). */
  class Project {
    const id: int
    const userId: int
    var funds: int

    constructor (id: int, userId: int, funds: int)
      ensures this.id == id && this.userId == userId && this.funds == funds
    {
      this.id := id;
      this.userId := userId;
      this.funds := funds;
    }

    /** addFunds followed by storeFunds. */
    method AddFunds(amount: int)
      modifies this
      ensures funds == old(funds) + amount
    {
      funds := funds + amount;
    }
  }

  /** The transaction table (Crowdfunding\Transaction rows), updated in place. */
  class TransactionTable {
    var records: map<string, Record>
    var nextId: nat

    function State(): Table
      reads this
    {
      Table(records, nextId)
    }

    constructor ()
      ensures State() == Table(map[], 1) && Valid(State())
    {
      records := map[];
      nextId := 1;
    }

    /** storeTransaction: follows Commit, and credits the project with the draft's amount exactly when it returns data. */
    method StoreTransaction(d: Draft, project: Project) returns (r: Option<Stored>)
      modifies this, project
      ensures (State(), r) == Commit(old(State()), d)
      ensures project.funds == old(project.funds) + (if r.Some? then AmountCents(d.fields.amount) else 0)
    {
      var key := d.fields.txnId;
      var found := key in records;
      if found && records[key].fields.status == COMPLETED {
        return None;
      }
      var row := if found then records[key] else Record(nextId, d.fields, []);
      if d.extraData != map[] {
        row := row.(extraData := row.extraData + [d.extraData]);
      }
      row := row.(fields := Bind(row.fields, d.fields));
      records := records[key := row];
      if !found {
        nextId := nextId + 1;
      }
      if row.fields.status != COMPLETED {
        return None;
      }
      r := Some(Stored(row.id, d.fields));
      project.AddFunds(AmountCents(d.fields.amount));
    }
  }

  // ------------------------------------------------- sequences of notifications

  /** The table after committing every draft in turn. */
  function Run(t: Table, ds: seq<Draft>): Table
    decreases |ds|
  {
    if ds == [] then t else Run(Commit(t, ds[0]).0, ds[1..])
  }

  /**
   * Whatever notifications arrive, starting from the empty table (or any
   * table where it holds), every row stays under its own txn_id and no two
   * rows share an internal id.
   */
  lemma {:induction false} RunKeepsValid(t: Table, ds: seq<Draft>)
    requires Valid(t)
    ensures Valid(Run(t, ds))
    decreases |ds|
  {
    if ds != [] {
      RunKeepsValid(Commit(t, ds[0]).0, ds[1..]);
    }
  }

  /** The amounts credited for txnId while committing the drafts in turn, in order. */
  function Credited(t: Table, ds: seq<Draft>, txnId: string): seq<int>
    decreases |ds|
  {
    if ds == [] then []
    else
      var out := Commit(t, ds[0]);
      (if out.1.Some? && ds[0].fields.txnId == txnId then [AmountCents(ds[0].fields.amount)] else [])
      + Credited(out.0, ds[1..], txnId)
  }

  /**
   * At most one credit per txn_id, whatever notifications arrive: none at all
   * when the row starts out completed, and otherwise at most one, whose
   * amount is that of a completed notification for that txn_id.
   */
  lemma {:induction false} CreditedAtMostOnce(t: Table, ds: seq<Draft>, txnId: string)
    ensures |Credited(t, ds, txnId)| <= 1
    ensures Completed(t, txnId) ==> Credited(t, ds, txnId) == []
    ensures forall a :: a in Credited(t, ds, txnId) ==>
      exists i :: 0 <= i < |ds| && ds[i].fields.txnId == txnId && ds[i].fields.status == COMPLETED
                  && a == AmountCents(ds[i].fields.amount)
    decreases |ds|
  {
    if ds != [] {
      var out := Commit(t, ds[0]);
      var rest := Credited(out.0, ds[1..], txnId);
      CreditedAtMostOnce(out.0, ds[1..], txnId);
      forall a | a in rest
        ensures exists i :: 0 <= i < |ds| && ds[i].fields.txnId == txnId && ds[i].fields.status == COMPLETED
                            && a == AmountCents(ds[i].fields.amount)
      {
        var j :| 0 <= j < |ds[1..]| && ds[1..][j].fields.txnId == txnId && ds[1..][j].fields.status == COMPLETED
                 && a == AmountCents(ds[1..][j].fields.amount);
        assert ds[j + 1] == ds[1..][j];
      }
      if out.1.Some? && ds[0].fields.txnId == txnId {
        assert Completed(out.0, txnId);
        assert rest == [];
      }
    }
  }

  /** A completed row stays completed whatever arrives later. */
  lemma {:induction false} CompletedIsFinal(t: Table, ds: seq<Draft>, txnId: string)
    requires Completed(t, txnId)
    ensures Completed(Run(t, ds), txnId) && Run(t, ds).records[txnId] == t.records[txnId]
    decreases |ds|
  {
    if ds != [] {
      CompletedIsFinal(Commit(t, ds[0]).0, ds[1..], txnId);
    }
  }

  /** The same completed notification delivered twice: credited once, the second delivery returns nothing. */
  lemma DuplicateCompletedCreditedOnce(t: Table, d: Draft)
    requires d.fields.status == COMPLETED && !Completed(t, d.fields.txnId)
    ensures Commit(t, d).1.Some?
    ensures Commit(Commit(t, d).0, d) == (Commit(t, d).0, None)
    ensures Credited(t, [d, d], d.fields.txnId) == [AmountCents(d.fields.amount)]
  {
    var t1 := Commit(t, d).0;
    assert [d, d][1..] == [d];
    assert Credited(t1, [d], d.fields.txnId) == [] + Credited(t1, [], d.fields.txnId);
  }

  /** A failed notification followed by a completed one for the same txn_id: completed, credited once, at the second. */
  lemma FailedThenCompletedCreditedOnce(t: Table, failed: Draft, completed: Draft)
    requires failed.fields.txnId == completed.fields.txnId && !Completed(t, failed.fields.txnId)
    requires failed.fields.status == FAIL && completed.fields.status == COMPLETED
    ensures Completed(Run(t, [failed, completed]), completed.fields.txnId)
    ensures Credited(t, [failed, completed], completed.fields.txnId) == [AmountCents(completed.fields.amount)]
  {
    var id := completed.fields.txnId;
    var t1 := Commit(t, failed).0;
    assert !Completed(t1, id);
    assert [failed, completed][1..] == [completed];
    assert Run(t1, [completed]) == Commit(t1, completed).0;
    assert Credited(t1, [completed], id) == [AmountCents(completed.fields.amount)] + Credited(Commit(t1, completed).0, [], id);
  }
}
