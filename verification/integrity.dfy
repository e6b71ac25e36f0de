/** The invariants the store keeps across all its operations, given that
    every write goes through the validated entry points:
    ids are unique in each collection, an account has at most one budget, and
    every account.service_id, budget.account_id and non-empty
    recommendation.account_id names an existing record.

    recommendation.service_id is deliberately absent: `delete_service` only
    looks at accounts, so a recommendation about a service can outlive it
    (`DeleteServiceCanOrphanRecommendation` below). */
module Integrity {
  import opened Json
  import opened Results
  import opened Records
  import opened Validation
  import opened Store

  predicate AccountsResolve(db: Document)
  {
    forall a :: a in db.accounts ==> AnyWith(db.services, "id", Get(a, "service_id"))
  }

  predicate BudgetsResolve(db: Document)
  {
    forall b :: b in db.budgets ==> AnyWith(db.accounts, "id", Get(b, "account_id"))
  }

  predicate RecommendationsResolve(db: Document)
  {
    forall c :: c in db.recommendations && Truthy(Get(c, "account_id")) ==>
      AnyWith(db.accounts, "id", Get(c, "account_id"))
  }

  predicate UniqueIds(db: Document)
  {
    && Distinct(db.services, "id")
    && Distinct(db.accounts, "id")
    && Distinct(db.budgets, "id")
    && Distinct(db.recommendations, "id")
  }

  predicate Valid(db: Document)
  {
    && Shaped(db)
    && UniqueIds(db)
    && Distinct(db.budgets, "account_id")   // at most one budget per account
    && AccountsResolve(db)
    && BudgetsResolve(db)
    && RecommendationsResolve(db)
  }

  /** The document of a fresh store is valid. */
  lemma DefaultValid()
    ensures Load(DefaultFile).Ok? && Valid(Load(DefaultFile).value)
  {
    LoadDefault();
  }

  // ---------------------------------------------------------------- services

  lemma {:induction false} CreateServiceKeepsValid(db: Document, p: Record)
    requires Valid(db) && CreateService(db, p).Ok?
    ensures Valid(CreateService(db, p).value.0)
  {
    var db' := CreateService(db, p).value.0;
    assert db'.services == db.services + [p];
    DistinctAppend(db.services, "id", p);
    forall a | a in db'.accounts ensures AnyWith(db'.services, "id", Get(a, "service_id")) {
      AnyWithAppend(db.services, "id", Get(a, "service_id"), p);
    }
  }

  lemma {:induction false} UpdateServiceKeepsValid(db: Document, id: string, p: Record)
    requires Valid(db) && UpdateService(db, id, p).Ok?
    ensures Valid(UpdateService(db, id, p).value.0)
  {
    var i := FirstIndex(db.services, "id", JStr(id)).value;
    var merged := db.services[i] + p;
    var db' := UpdateService(db, id, p).value.0;
    assert db'.services == db.services[i := merged];
    assert db.services[i] in db.services;
    DistinctReplace(db.services, "id", i, merged);
    forall a | a in db'.accounts ensures AnyWith(db'.services, "id", Get(a, "service_id")) {
      AnyWithReplace(db.services, "id", Get(a, "service_id"), i, merged);
    }
  }

  lemma {:induction false} DeleteServiceKeepsValid(db: Document, id: string)
    requires Valid(db) && DeleteService(db, id).Ok?
    ensures Valid(DeleteService(db, id).value)
  {
    var db' := DeleteService(db, id).value;
    var keep := KeyIsNot("id", JStr(id));
    DistinctWhere(db.services, "id", keep);
    forall a | a in db'.accounts ensures AnyWith(db'.services, "id", Get(a, "service_id")) {
      var s :| s in db.services && KeyIs(s, "id", Get(a, "service_id"));
      assert !KeyIs(a, "service_id", JStr(id));
      assert keep(s);
    }
  }

  // ---------------------------------------------------------------- accounts

  lemma {:induction false} CreateAccountKeepsValid(db: Document, p: Record)
    requires Valid(db) && CreateAccount(db, p).Ok?
    ensures Valid(CreateAccount(db, p).value.0)
  {
    assert AcceptableAccount(p, db.services) && !AnyWith(db.accounts, "id", p["id"]);
    AcceptedAccountShape(p, db.services);
    assert CreateAccount(db, p).value.0 == db.(accounts := db.accounts + [p]);
    AppendAccountKeepsValid(db, p);
  }

  /** What an accepted account payload guarantees about its shape. */
  lemma AcceptedAccountShape(p: Record, services: seq<Record>)
    requires AcceptableAccount(p, services)
    ensures AccountShaped(p) && AnyWith(services, "id", Get(p, "service_id"))
  {
    assert "service_id" in AccountRequired && "monthly_cost_usd" in AccountRequired;
  }

  /** An account whose id is new and whose service exists can be appended. */
  lemma AppendAccountKeepsValid(db: Document, p: Record)
    requires Valid(db) && AccountShaped(p)
    requires !AnyWith(db.accounts, "id", p["id"]) && AnyWith(db.services, "id", Get(p, "service_id"))
    ensures Valid(db.(accounts := db.accounts + [p]))
  {
    var db' := db.(accounts := db.accounts + [p]);
    assert Shaped(db');
    DistinctAppend(db.accounts, "id", p);
    assert UniqueIds(db');
    assert AccountsResolve(db');
    forall b | b in db'.budgets ensures AnyWith(db'.accounts, "id", Get(b, "account_id")) {
      AnyWithAppend(db.accounts, "id", Get(b, "account_id"), p);
    }
    forall c | c in db'.recommendations && Truthy(Get(c, "account_id"))
      ensures AnyWith(db'.accounts, "id", Get(c, "account_id"))
    {
      AnyWithAppend(db.accounts, "id", Get(c, "account_id"), p);
    }
  }

  lemma {:induction false} UpdateAccountKeepsValid(db: Document, id: string, p: Record)
    requires Valid(db) && UpdateAccount(db, id, p).Ok?
    ensures Valid(UpdateAccount(db, id, p).value.0)
  {
    var i := FirstIndex(db.accounts, "id", JStr(id)).value;
    var merged := db.accounts[i] + p;
    assert AcceptableAccount(p, db.services) && p["id"] == JStr(id);
    AcceptedAccountShape(p, db.services);
    assert UpdateAccount(db, id, p).value.0 == db.(accounts := db.accounts[i := merged]);
    assert db.accounts[i] in db.accounts;
    ReplaceAccountKeepsValid(db, i, merged);
  }

  /** An account can be replaced by one with the same id whose service exists. */
  lemma ReplaceAccountKeepsValid(db: Document, i: nat, merged: Record)
    requires Valid(db) && i < |db.accounts| && AccountShaped(merged)
    requires "id" in merged && PyEq(merged["id"], Get(db.accounts[i], "id"))
    requires AnyWith(db.services, "id", Get(merged, "service_id"))
    ensures Valid(db.(accounts := db.accounts[i := merged]))
  {
    var db' := db.(accounts := db.accounts[i := merged]);
    assert db.accounts[i] in db.accounts;
    assert Shaped(db') by {
      forall a | a in db'.accounts ensures AccountShaped(a) {
        var k :| 0 <= k < |db'.accounts| && db'.accounts[k] == a;
        if k != i { assert db.accounts[k] in db.accounts; }
      }
    }
    DistinctReplace(db.accounts, "id", i, merged);
    assert AccountsResolve(db') by {
      forall a | a in db'.accounts ensures AnyWith(db'.services, "id", Get(a, "service_id")) {
        var k :| 0 <= k < |db'.accounts| && db'.accounts[k] == a;
        if k != i { assert db.accounts[k] in db.accounts; }
      }
    }
    forall b | b in db'.budgets ensures AnyWith(db'.accounts, "id", Get(b, "account_id")) {
      AnyWithReplace(db.accounts, "id", Get(b, "account_id"), i, merged);
    }
    forall c | c in db'.recommendations && Truthy(Get(c, "account_id"))
      ensures AnyWith(db'.accounts, "id", Get(c, "account_id"))
    {
      AnyWithReplace(db.accounts, "id", Get(c, "account_id"), i, merged);
    }
  }

  lemma {:induction false} DeleteAccountKeepsValid(db: Document, id: string)
    requires Valid(db) && DeleteAccount(db, id).Ok?
    ensures Valid(DeleteAccount(db, id).value)
  {
    var db' := DeleteAccount(db, id).value;
    var keepA := KeyIsNot("id", JStr(id));
    var keepB := KeyIsNot("account_id", JStr(id));
    var keepC := KeyIsNot("account_id", JStr(id));
    DistinctWhere(db.accounts, "id", keepA);
    DistinctWhere(db.budgets, "id", keepB);
    DistinctWhere(db.budgets, "account_id", keepB);
    DistinctWhere(db.recommendations, "id", keepC);
    forall b | b in db'.budgets ensures AnyWith(db'.accounts, "id", Get(b, "account_id")) {
      var a :| a in db.accounts && KeyIs(a, "id", Get(b, "account_id"));
      assert keepA(a);
    }
    forall c | c in db'.recommendations && Truthy(Get(c, "account_id"))
      ensures AnyWith(db'.accounts, "id", Get(c, "account_id"))
    {
      var a :| a in db.accounts && KeyIs(a, "id", Get(c, "account_id"));
      assert keepA(a);
    }
  }

  // ----------------------------------------------------------------- budgets

  lemma {:induction false} CreateBudgetKeepsValid(db: Document, p: Record)
    requires Valid(db) && CreateBudget(db, p).Ok?
    ensures Valid(CreateBudget(db, p).value.0)
  {
    assert AcceptableBudget(p, db.accounts);
    AcceptedBudgetShape(p, db.accounts);
    assert CreateBudget(db, p).value.0 == db.(budgets := db.budgets + [p]);
    AppendBudgetKeepsValid(db, p);
  }

  /** A budget whose id and account are new and whose account exists can be
      appended. */
  lemma AppendBudgetKeepsValid(db: Document, p: Record)
    requires Valid(db) && BudgetShaped(p)
    requires !AnyWith(db.budgets, "id", p["id"]) && !AnyWith(db.budgets, "account_id", p["account_id"])
    requires AnyWith(db.accounts, "id", Get(p, "account_id"))
    ensures Valid(db.(budgets := db.budgets + [p]))
  {
    var db' := db.(budgets := db.budgets + [p]);
    assert Shaped(db');
    DistinctAppend(db.budgets, "id", p);
    DistinctAppend(db.budgets, "account_id", p);
    assert BudgetsResolve(db');
  }

  /** The merged budget's account is owned by no other budget. */
  lemma {:induction false} UpdateBudgetKeepsOnePerAccount(db: Document, id: string, p: Record)
    requires Valid(db) && UpdateBudget(db, id, p).Ok?
    ensures Distinct(UpdateBudget(db, id, p).value.0.budgets, "account_id")
  {
    var i := FirstIndex(db.budgets, "id", JStr(id)).value;
    var merged := db.budgets[i] + p;
    assert UpdateBudget(db, id, p).value.0.budgets == db.budgets[i := merged];
    assert !BudgetTakenByOther(db, id, p["account_id"]);
    assert Get(merged, "account_id") == p["account_id"];
    forall j | 0 <= j < |db.budgets| && j != i
      ensures !PyEq(Get(db.budgets[j], "account_id"), Get(merged, "account_id"))
    {
      assert db.budgets[j] in db.budgets;
      assert !KeyIs(db.budgets[j], "id", JStr(id)) by {
        if j < i {
          assert !PyEq(Get(db.budgets[j], "id"), Get(db.budgets[i], "id"));
        } else {
          assert !PyEq(Get(db.budgets[i], "id"), Get(db.budgets[j], "id"));
        }
      }
    }
    DistinctReplaceFresh(db.budgets, "account_id", i, merged);
  }

  lemma {:induction false} UpdateBudgetKeepsValid(db: Document, id: string, p: Record)
    requires Valid(db) && UpdateBudget(db, id, p).Ok?
    ensures Valid(UpdateBudget(db, id, p).value.0)
  {
    var i := FirstIndex(db.budgets, "id", JStr(id)).value;
    var merged := db.budgets[i] + p;
    assert AcceptableBudget(p, db.accounts) && p["id"] == JStr(id);
    AcceptedBudgetShape(p, db.accounts);
    assert UpdateBudget(db, id, p).value.0 == db.(budgets := db.budgets[i := merged]);
    UpdateBudgetKeepsOnePerAccount(db, id, p);
    ReplaceBudgetKeepsValid(db, i, merged);
  }

  /** What an accepted budget payload guarantees about its shape. */
  lemma AcceptedBudgetShape(p: Record, accounts: seq<Record>)
    requires AcceptableBudget(p, accounts)
    ensures BudgetShaped(p) && AnyWith(accounts, "id", Get(p, "account_id"))
  {
    assert forall f :: f in BudgetNumbers ==> f in BudgetRequired;
  }

  /** A budget can be replaced by one with the same id, an existing account
      and an account no other budget owns. */
  lemma ReplaceBudgetKeepsValid(db: Document, i: nat, merged: Record)
    requires Valid(db) && i < |db.budgets| && BudgetShaped(merged)
    requires PyEq(Get(merged, "id"), Get(db.budgets[i], "id"))
    requires AnyWith(db.accounts, "id", Get(merged, "account_id"))
    requires Distinct(db.budgets[i := merged], "account_id")
    ensures Valid(db.(budgets := db.budgets[i := merged]))
  {
    var db' := db.(budgets := db.budgets[i := merged]);
    assert Shaped(db') by {
      forall b | b in db'.budgets ensures BudgetShaped(b) {
        var k :| 0 <= k < |db'.budgets| && db'.budgets[k] == b;
        if k != i { assert db.budgets[k] in db.budgets; }
      }
    }
    DistinctReplace(db.budgets, "id", i, merged);
    assert BudgetsResolve(db') by {
      forall b | b in db'.budgets ensures AnyWith(db'.accounts, "id", Get(b, "account_id")) {
        var k :| 0 <= k < |db'.budgets| && db'.budgets[k] == b;
        if k != i { assert db.budgets[k] in db.budgets; }
      }
    }
  }

  lemma {:induction false} DeleteBudgetKeepsValid(db: Document, id: string)
    requires Valid(db) && DeleteBudget(db, id).Ok?
    ensures Valid(DeleteBudget(db, id).value)
  {
    var db' := DeleteBudget(db, id).value;
    var keep := KeyIsNot("id", JStr(id));
    DistinctWhere(db.budgets, "id", keep);
    DistinctWhere(db.budgets, "account_id", keep);
  }

  // --------------------------------------------------------- recommendations

  lemma {:induction false} CreateRecommendationKeepsValid(db: Document, p: Record)
    requires Valid(db) && CreateRecommendation(db, p).Ok?
    ensures Valid(CreateRecommendation(db, p).value.0)
  {
    var db' := CreateRecommendation(db, p).value.0;
    assert db'.recommendations == db.recommendations + [p];
    DistinctAppend(db.recommendations, "id", p);
  }

  lemma {:induction false} UpdateRecommendationKeepsValid(db: Document, id: string, p: Record)
    requires Valid(db) && UpdateRecommendation(db, id, p).Ok?
    ensures Valid(UpdateRecommendation(db, id, p).value.0)
  {
    var i := FirstIndex(db.recommendations, "id", JStr(id)).value;
    var merged := db.recommendations[i] + p;
    var db' := UpdateRecommendation(db, id, p).value.0;
    assert db'.recommendations == db.recommendations[i := merged];
    assert db.recommendations[i] in db.recommendations;
    DistinctReplace(db.recommendations, "id", i, merged);
    assert Get(merged, "account_id") ==
           if "account_id" in p then p["account_id"] else Get(db.recommendations[i], "account_id");
  }

  lemma {:induction false} DeleteRecommendationKeepsValid(db: Document, id: string)
    requires Valid(db) && DeleteRecommendation(db, id).Ok?
    ensures Valid(DeleteRecommendation(db, id).value)
  {
    var db' := DeleteRecommendation(db, id).value;
    DistinctWhere(db.recommendations, "id", KeyIsNot("id", JStr(id)));
  }

  // ----------------------------------------------------------------- lookups

  /** In a valid document the lookups by `next(...)` (first match) and by a
      dict comprehension (last match) find the same service and the same
      budget, so the dashboard sees the records the getters return. */
  lemma ValidLookupsAgree(db: Document, v: JValue)
    requires Valid(db)
    ensures FirstIndex(db.services, "id", v) == LastIndex(db.services, "id", v)
    ensures FirstIndex(db.budgets, "account_id", v) == LastIndex(db.budgets, "account_id", v)
  {
    DistinctFirstIsLast(db.services, "id", v);
    DistinctFirstIsLast(db.budgets, "account_id", v);
  }
}
