/** How the getters see the writes: a created record is found under its id,
    an update is found merged, and a deleted id is gone.  Together with the
    validators these are the round trips a client of the store relies on. */
module Lifecycle {
  import opened Json
  import opened Results
  import opened Records
  import opened Validation
  import opened Store
  import opened Integrity

  /** An appended record whose id was new is what the lookup finds. */
  lemma FindAppended(rs: seq<Record>, id: string, p: Record)
    requires !AnyWith(rs, "id", JStr(id)) && "id" in p && p["id"] == JStr(id)
    ensures FindById(rs + [p], id) == Some(p)
  {
    FirstIndexAppend(rs, "id", JStr(id), p);
  }

  /** After a merge at the first match the lookup finds the merged record. */
  lemma FindReplaced(rs: seq<Record>, id: string, i: nat, r: Record)
    requires FirstIndex(rs, "id", JStr(id)) == Some(i) && "id" in r && r["id"] == JStr(id)
    ensures FindById(rs[i := r], id) == Some(r)
  {
    FirstIndexReplace(rs, "id", JStr(id), i, r);
  }

  // ---------------------------------------------------------------- services

  /** `create_service` then `get_service` returns the created record. */
  lemma CreateThenGetService(db: Document, p: Record, id: string)
    requires Shaped(db) && CreateService(db, p).Ok? && p["id"] == JStr(id)
    ensures GetService(CreateService(db, p).value.0, id) == Some(p)
  {
    FindAppended(db.services, id, p);
  }

  /** `update_service` then `get_service` returns the merged record: the
      payload's fields over the stored ones. */
  lemma UpdateThenGetService(db: Document, id: string, p: Record)
    requires Shaped(db) && UpdateService(db, id, p).Ok?
    ensures var (db', merged) := UpdateService(db, id, p).value;
            && GetService(db', id) == Some(merged)
            && (forall k :: k in p ==> k in merged && merged[k] == p[k])
            && (forall k :: k in merged && k !in p ==> GetService(db, id).Some? && merged[k] == GetService(db, id).value[k])
  {
    var i := FirstIndex(db.services, "id", JStr(id)).value;
    FindReplaced(db.services, id, i, db.services[i] + p);
  }

  /** After `delete_service` the id is gone. */
  lemma DeleteThenGetService(db: Document, id: string)
    requires Shaped(db) && DeleteService(db, id).Ok?
    ensures GetService(DeleteService(db, id).value, id) == None
  {
    var db' := DeleteService(db, id).value;
    assert !AnyWith(db'.services, "id", JStr(id));
  }

  /** `delete_service` looks only at accounts: in a valid document a
      recommendation about a service outlives the service. */
  lemma DeleteServiceCanOrphanRecommendation()
    ensures exists db: Document, id: string ::
              && Valid(db)
              && DeleteService(db, id).Ok?
              && Valid(DeleteService(db, id).value)
              && AnyWith(db.services, "id", JStr(id))
              && AnyWith(DeleteService(db, id).value.recommendations, "service_id", JStr(id))
              && !AnyWith(DeleteService(db, id).value.services, "id", JStr(id))
  {
    var svc := map["id" := JStr("s1"), "category" := JStr("coding")];
    var rec := map["id" := JStr("r1"), "service_id" := JStr("s1"), "account_id" := JNull, "priority" := JInt(1)];
    var db := Document([svc], [], [], [rec], map[]);
    assert KeyIs(svc, "id", JStr("s1"));
    assert KeyIs(rec, "service_id", JStr("s1"));
    assert Valid(db);
    assert !AnyWith(db.accounts, "service_id", JStr("s1"));
    assert svc in db.services;
    var db' := DeleteService(db, "s1").value;
    assert rec in db'.recommendations;
    DeleteThenGetService(db, "s1");
    DeleteServiceKeepsValid(db, "s1");
  }

  // ---------------------------------------------------------------- accounts

  lemma CreateThenGetAccount(db: Document, p: Record, id: string)
    requires Shaped(db) && CreateAccount(db, p).Ok? && p["id"] == JStr(id)
    ensures GetAccount(CreateAccount(db, p).value.0, id) == Some(p)
  {
    FindAppended(db.accounts, id, p);
  }

  lemma UpdateThenGetAccount(db: Document, id: string, p: Record)
    requires Shaped(db) && UpdateAccount(db, id, p).Ok?
    ensures var (db', merged) := UpdateAccount(db, id, p).value;
            && GetAccount(db', id) == Some(merged)
            && (forall k :: k in p ==> k in merged && merged[k] == p[k])
            && (forall k :: k in merged && k !in p ==> GetAccount(db, id).Some? && merged[k] == GetAccount(db, id).value[k])
  {
    var i := FirstIndex(db.accounts, "id", JStr(id)).value;
    FindReplaced(db.accounts, id, i, db.accounts[i] + p);
  }

  /** After `delete_account` neither the account nor any budget for it is
      left. */
  lemma DeleteThenGetAccount(db: Document, id: string)
    requires Shaped(db) && DeleteAccount(db, id).Ok?
    ensures GetAccount(DeleteAccount(db, id).value, id) == None
    ensures !AnyWith(DeleteAccount(db, id).value.budgets, "account_id", JStr(id))
  {
    var db' := DeleteAccount(db, id).value;
    assert !AnyWith(db'.accounts, "id", JStr(id));
  }

  // ---------------------------------------------------------------- budgets

  lemma CreateThenGetBudget(db: Document, p: Record, id: string)
    requires Shaped(db) && CreateBudget(db, p).Ok? && p["id"] == JStr(id)
    ensures GetBudget(CreateBudget(db, p).value.0, id) == Some(p)
  {
    FindAppended(db.budgets, id, p);
  }

  lemma UpdateThenGetBudget(db: Document, id: string, p: Record)
    requires Shaped(db) && UpdateBudget(db, id, p).Ok?
    ensures var (db', merged) := UpdateBudget(db, id, p).value;
            && GetBudget(db', id) == Some(merged)
            && (forall k :: k in p ==> k in merged && merged[k] == p[k])
            && (forall k :: k in merged && k !in p ==> GetBudget(db, id).Some? && merged[k] == GetBudget(db, id).value[k])
  {
    var i := FirstIndex(db.budgets, "id", JStr(id)).value;
    FindReplaced(db.budgets, id, i, db.budgets[i] + p);
  }

  lemma DeleteThenGetBudget(db: Document, id: string)
    requires Shaped(db) && DeleteBudget(db, id).Ok?
    ensures GetBudget(DeleteBudget(db, id).value, id) == None
  {
    var db' := DeleteBudget(db, id).value;
    assert !AnyWith(db'.budgets, "id", JStr(id));
  }

  // -------------------------------------------------------- recommendations

  lemma CreateThenGetRecommendation(db: Document, p: Record, id: string)
    requires Shaped(db) && CreateRecommendation(db, p).Ok? && p["id"] == JStr(id)
    ensures GetRecommendation(CreateRecommendation(db, p).value.0, id) == Some(p)
  {
    FindAppended(db.recommendations, id, p);
  }

  lemma UpdateThenGetRecommendation(db: Document, id: string, p: Record)
    requires Shaped(db) && UpdateRecommendation(db, id, p).Ok?
    ensures var (db', merged) := UpdateRecommendation(db, id, p).value;
            && GetRecommendation(db', id) == Some(merged)
            && (forall k :: k in p ==> k in merged && merged[k] == p[k])
            && (forall k :: k in merged && k !in p ==>
                  GetRecommendation(db, id).Some? && merged[k] == GetRecommendation(db, id).value[k])
  {
    var i := FirstIndex(db.recommendations, "id", JStr(id)).value;
    FindReplaced(db.recommendations, id, i, db.recommendations[i] + p);
  }

  lemma DeleteThenGetRecommendation(db: Document, id: string)
    requires Shaped(db) && DeleteRecommendation(db, id).Ok?
    ensures GetRecommendation(DeleteRecommendation(db, id).value, id) == None
  {
    var db' := DeleteRecommendation(db, id).value;
    assert !AnyWith(db'.recommendations, "id", JStr(id));
  }
}
