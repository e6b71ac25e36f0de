/** The store's documented scenarios, stated on concrete documents: the
    dashboard counts active accounts only, a budget over its threshold raises
    one alert, and recommendations come back by ascending priority. */
module Scenarios {
  import opened Json
  import opened Results
  import opened Records
  import opened Validation
  import opened Store
  import opened Ordering
  import opened Dashboard

  const Service: Record := map["id" := JStr("chatgpt_plus"), "category" := JStr("general")]

  function Account(id: string, status: string, cost: real): Record
  {
    map["id" := JStr(id), "service_id" := JStr("chatgpt_plus"), "email" := JStr("owner@example.com"),
        "status" := JStr(status), "monthly_cost_usd" := JNum(cost)]
  }

  function Budget(spend: real): Record
  {
    map["id" := JStr("bud_1"), "account_id" := JStr("acc_1"), "monthly_budget_usd" := JNum(30.0),
        "alert_threshold_percent" := JNum(80.0), "current_month_spend_usd" := JNum(spend)]
  }

  function Recommendation(id: string, priority: int): Record
  {
    map["id" := JStr(id), "account_id" := JNull, "priority" := JInt(priority)]
  }

  /** Only the active account of the two is counted. */
  lemma OnlyActiveCounted(active: Record, paused: Record)
    requires active == Account("acc_1", "active", 20.0) && paused == Account("acc_2", "paused", 50.0)
    ensures Where([active, paused], IsActive) == [active]
  {
    assert Get(active, "status") == JStr("active");
    assert Get(paused, "status") == JStr("paused");
    var both: seq<Record> := [active, paused];
    var justPaused: seq<Record> := [paused];
    assert both[1..] == justPaused && justPaused[1..] == [];
    assert Where(justPaused, IsActive) == [];
  }

  /** An active account at 20 and a paused one at 50. */
  function TwoAccountDoc(): Document
  {
    Document([Service], [Account("acc_1", "active", 20.0), Account("acc_2", "paused", 50.0)], [], [], map[])
  }

  /** The two-account document is well shaped, raises no TypeError and has
      one active account, whose service is in "general". */
  lemma TwoAccountDocFacts()
    ensures Shaped(TwoAccountDoc())
    ensures !DashboardFaults(TwoAccountDoc())
    ensures ActiveAccounts(TwoAccountDoc()) == [Account("acc_1", "active", 20.0)]
    ensures CategoryOf(TwoAccountDoc(), Account("acc_1", "active", 20.0)) == "general"
  {
    var active := Account("acc_1", "active", 20.0);
    var paused := Account("acc_2", "paused", 50.0);
    var db := TwoAccountDoc();
    assert AccountShaped(active) && AccountShaped(paused) && ServiceShaped(Service);
    assert Shaped(db);
    OnlyActiveCounted(active, paused);
    assert KeyIs(Service, "id", JStr("chatgpt_plus"));
    assert LastIndex(db.services, "id", active["service_id"]) == Some(0);
    assert Hashable(active["service_id"]) && Hashable(active["id"]) && Hashable(Service["id"]);
  }

  /** The dashboard reports 20 in total, all of it under "general". */
  lemma DashboardCountsActiveOnly()
    ensures var db := TwoAccountDoc();
            && Shaped(db)
            && !DashboardFaults(db)
            && ActiveAccounts(db) == [Account("acc_1", "active", 20.0)]
            && TotalCost(ActiveAccounts(db)) == 20.0
            && CategoryTotal(db, ActiveAccounts(db), "general") == 20.0
  {
    TwoAccountDocFacts();
    var justActive: seq<Record> := [Account("acc_1", "active", 20.0)];
    assert justActive[..0] == [];
  }

  /** An active account at 10 on the service "copilot", which is stored twice:
      first under "general", then under "coding". */
  function CodingDoc(): Document
  {
    var first := map["id" := JStr("copilot"), "category" := JStr("general")];
    var second := map["id" := JStr("copilot"), "category" := JStr("coding")];
    var account := Account("acc_3", "active", 10.0)["service_id" := JStr("copilot")];
    Document([first, second], [account], [], [], map[])
  }

  /** The account's cost lands under the category of the LAST service with
      its id, "coding", and nothing lands under "general". */
  lemma DashboardUsesServiceCategory()
    ensures var db := CodingDoc();
            && Shaped(db)
            && !DashboardFaults(db)
            && CategoryTotal(db, ActiveAccounts(db), "coding") == 10.0
            && CategoryTotal(db, ActiveAccounts(db), "general") == 0.0
  {
    var db := CodingDoc();
    var account := db.accounts[0];
    assert AccountShaped(account) && ServiceShaped(db.services[0]) && ServiceShaped(db.services[1]);
    assert Shaped(db);
    var one: seq<Record> := [account];
    assert ActiveAccounts(db) == one by {
      assert IsActive(account) && db.accounts == one && one[1..] == [];
    }
    assert KeyIs(db.services[1], "id", JStr("copilot"));
    assert LastIndex(db.services, "id", account["service_id"]) == Some(1);
    assert CategoryOf(db, account) == "coding";
    assert Hashable(account["service_id"]) && Hashable(account["id"]);
    assert !DashboardFaults(db);
    assert one[..0] == [];
  }

  /** One active account at 20 with the budget `Budget(spend)`. */
  function BudgetDoc(spend: real): Document
  {
    Document([Service], [Account("acc_1", "active", 20.0)], [Budget(spend)], [], map[])
  }

  /** The facts about `BudgetDoc` both budget scenarios share. */
  lemma BudgetDocFacts(spend: real)
    requires spend >= 0.0
    ensures Shaped(BudgetDoc(spend))
    ensures ActiveAccounts(BudgetDoc(spend)) == [Account("acc_1", "active", 20.0)]
    ensures BudgetOf(BudgetDoc(spend), Account("acc_1", "active", 20.0)) == Some(Budget(spend))
  {
    var a := Account("acc_1", "active", 20.0);
    var db := BudgetDoc(spend);
    assert Shaped(db) by {
      assert forall f :: f in BudgetNumbers ==> f in Budget(spend) && PyNumber(Budget(spend)[f]);
    }
    var one: seq<Record> := [a];
    assert ActiveAccounts(db) == one by { assert one[1..] == []; }
    assert KeyIs(Budget(spend), "account_id", JStr("acc_1"));
    assert LastIndex(db.budgets, "account_id", a["id"]) == Some(0);
  }

  /** The alerts of a single account are its own alert, if any. */
  lemma AlertsOfOne(db: Document, a: Record)
    requires Shaped(db) && AccountShaped(a)
    ensures AlertsOf(db, [a]) == match AlertFor(db, a) case Some(al) => [al] case None => []
  {
    var one: seq<Record> := [a];
    assert one[..0] == [];
  }

  /** Spending 28 of a 30 budget with an 80% threshold raises one alert,
      for the budget's account. */
  lemma BudgetAlertRaised()
    ensures var db := BudgetDoc(28.0);
            && Shaped(db)
            && |AlertsOf(db, ActiveAccounts(db))| == 1
            && AlertsOf(db, ActiveAccounts(db))[0].accountId == JStr("acc_1")
  {
    var a := Account("acc_1", "active", 20.0);
    BudgetDocFacts(28.0);
    assert PercentUsed(Budget(28.0)) >= 80.0;
    assert OverThreshold(BudgetDoc(28.0), a);
    AlertsOfOne(BudgetDoc(28.0), a);
  }

  /** Spending 20 of the same budget stays under the threshold: no alert. */
  lemma BudgetAlertNotRaised()
    ensures var db := BudgetDoc(20.0);
            && Shaped(db)
            && AlertsOf(db, ActiveAccounts(db)) == []
  {
    var a := Account("acc_1", "active", 20.0);
    BudgetDocFacts(20.0);
    assert PercentUsed(Budget(20.0)) < 80.0;
    assert !OverThreshold(BudgetDoc(20.0), a);
    AlertsOfOne(BudgetDoc(20.0), a);
  }


  lemma SortTwo()
    ensures SortByPriority([Recommendation("a", 1), Recommendation("b", 2)])
            == [Recommendation("a", 1), Recommendation("b", 2)]
  {
    var ra, rb := Recommendation("a", 1), Recommendation("b", 2);
    assert PriorityOf(ra) == 1.0 && PriorityOf(rb) == 2.0;
    var two: seq<Record> := [ra, rb];
    var one: seq<Record> := [rb];
    assert two[1..] == one && one[1..] == [];
    assert SortByPriority(one) == one;
    assert Insert(ra, one) == two;
  }

  lemma InsertLast()
    ensures Insert(Recommendation("c", 3), [Recommendation("a", 1), Recommendation("b", 2)])
            == [Recommendation("a", 1), Recommendation("b", 2), Recommendation("c", 3)]
  {
    var ra, rb, rc := Recommendation("a", 1), Recommendation("b", 2), Recommendation("c", 3);
    assert PriorityOf(ra) == 1.0 && PriorityOf(rb) == 2.0 && PriorityOf(rc) == 3.0;
    var two: seq<Record> := [ra, rb];
    var one: seq<Record> := [rb];
    assert two[1..] == one && one[1..] == [];
    assert Insert(rc, []) == [rc];
    assert Insert(rc, one) == [rb, rc];
  }

  /** Recommendations stored with priorities 3, 1, 2 are listed as 1, 2, 3. */
  lemma RecommendationsListedByPriority()
    ensures var db := Document([], [], [],
                               [Recommendation("c", 3), Recommendation("a", 1), Recommendation("b", 2)], map[]);
            && Shaped(db)
            && ListRecommendations(db) == [Recommendation("a", 1), Recommendation("b", 2), Recommendation("c", 3)]
  {
    var ra, rb, rc := Recommendation("a", 1), Recommendation("b", 2), Recommendation("c", 3);
    var rs: seq<Record> := [rc, ra, rb];
    var db := Document([], [], [], rs, map[]);
    assert RecommendationShaped(ra) && RecommendationShaped(rb) && RecommendationShaped(rc);
    assert Shaped(db);
    assert rs[0] == rc && rs[1..] == [ra, rb];
    assert SortByPriority(rs) == Insert(rc, SortByPriority([ra, rb]));
    SortTwo();
    InsertLast();
  }
}
