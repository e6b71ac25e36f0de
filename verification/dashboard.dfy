/** `FileDatabase.dashboard_summary`: spending over the active accounts, a
    per-category breakdown, and the budget alerts, computed from one read of
    the document.  Amounts are exact reals; the source rounds each reported
    figure to two decimals, which the model leaves out. */
module Dashboard {
  import opened Json
  import opened Results
  import opened Records
  import opened Validation
  import opened Store

  datatype Alert = Alert(accountId: JValue, email: JValue, percentUsed: real)

  datatype Summary = Summary(
    total: real,                     // total_monthly_spend_usd
    breakdown: map<string, real>,    // category_breakdown_usd
    alerts: seq<Alert>)              // budget_alerts

  predicate IsActive(a: Record)
  {
    Get(a, "status") == JStr("active")
  }

  function ActiveAccounts(db: Document): (active: seq<Record>)
    requires Shaped(db)
    ensures forall a :: a in active ==> AccountShaped(a)
    ensures forall a :: a in active <==> a in db.accounts && Get(a, "status") == JStr("active")
    ensures active == Where(db.accounts, IsActive)
  {
    Where(db.accounts, IsActive)
  }

  /** An account's monthly cost. */
  function Cost(a: Record): real
    requires AccountShaped(a)
  {
    Num(a["monthly_cost_usd"])
  }

  /** `service_by_id.get(acc["service_id"], {}).get("category", "general")`:
      the category of the last service with that id, or "general". */
  function CategoryOf(db: Document, a: Record): (c: string)
    requires Shaped(db) && AccountShaped(a)
    ensures c in Categories
    ensures !AnyWith(db.services, "id", a["service_id"]) ==> c == "general"
    ensures AnyWith(db.services, "id", a["service_id"]) ==>
              exists i :: LastWith(db.services, "id", a["service_id"], i) && Get(db.services[i], "category") == JStr(c)
  {
    match LastIndex(db.services, "id", a["service_id"])
    case None => "general"
    case Some(i) =>
      assert db.services[i] in db.services;
      db.services[i]["category"].s
  }

  /** `budgets_by_account_id.get(acc["id"])`: the last budget for the account. */
  function BudgetOf(db: Document, a: Record): (b: Option<Record>)
    requires Shaped(db) && AccountShaped(a)
    ensures b.Some? ==> b.value in db.budgets && KeyIs(b.value, "account_id", a["id"]) && BudgetShaped(b.value)
    ensures b.None? <==> !AnyWith(db.budgets, "account_id", a["id"])
    ensures b.Some? ==> exists i :: LastWith(db.budgets, "account_id", a["id"], i) && db.budgets[i] == b.value
  {
    match LastIndex(db.budgets, "account_id", a["id"])
    case None => None
    case Some(i) =>
      assert db.budgets[i] in db.budgets;
      Some(db.budgets[i])
  }

  /** Spend as a percentage of the budget. */
  function PercentUsed(b: Record): real
    requires BudgetShaped(b) && Num(b["monthly_budget_usd"]) > 0.0
  {
    assert "monthly_budget_usd" in BudgetNumbers && "current_month_spend_usd" in BudgetNumbers;
    Num(b["current_month_spend_usd"]) / Num(b["monthly_budget_usd"]) * 100.0
  }

  /** The budget of `a` is positive and its spend has reached the threshold. */
  predicate OverThreshold(db: Document, a: Record)
    requires Shaped(db) && AccountShaped(a)
  {
    var b := BudgetOf(db, a);
    assert "monthly_budget_usd" in BudgetNumbers && "alert_threshold_percent" in BudgetNumbers;
    && b.Some?
    && Num(b.value["monthly_budget_usd"]) > 0.0
    && PercentUsed(b.value) >= Num(b.value["alert_threshold_percent"])
  }

  /** The alert raised for one active account, if any. */
  function AlertFor(db: Document, a: Record): (alert: Option<Alert>)
    requires Shaped(db) && AccountShaped(a)
    ensures alert.Some? <==> OverThreshold(db, a)
    ensures alert.Some? ==> alert.value.accountId == a["id"] && alert.value.email == a["email"]
    ensures alert.Some? ==>
              var b := BudgetOf(db, a).value;
              assert BudgetShaped(b) && "monthly_budget_usd" in BudgetNumbers
                     && "current_month_spend_usd" in BudgetNumbers && "alert_threshold_percent" in BudgetNumbers;
              && Num(b["monthly_budget_usd"]) > 0.0
              && alert.value.percentUsed == Num(b["current_month_spend_usd"]) / Num(b["monthly_budget_usd"]) * 100.0
              && alert.value.percentUsed >= Num(b["alert_threshold_percent"])
  {
    if OverThreshold(db, a) then
      Some(Alert(a["id"], a["email"], PercentUsed(BudgetOf(db, a).value)))
    else None
  }

  // --------------------------------------------------- reference definitions

  function TotalCost(xs: seq<Record>): real
    requires forall a :: a in xs ==> AccountShaped(a)
  {
    if xs == [] then 0.0 else TotalCost(xs[..|xs| - 1]) + Cost(xs[|xs| - 1])
  }

  /** The cost of the accounts of `xs` whose category is `c`. */
  function CategoryTotal(db: Document, xs: seq<Record>, c: string): real
    requires Shaped(db) && forall a :: a in xs ==> AccountShaped(a)
  {
    if xs == [] then 0.0
    else
      var last := xs[|xs| - 1];
      CategoryTotal(db, xs[..|xs| - 1], c) + (if CategoryOf(db, last) == c then Cost(last) else 0.0)
  }

  /** The alerts of the accounts of `xs`, in their order. */
  function AlertsOf(db: Document, xs: seq<Record>): seq<Alert>
    requires Shaped(db) && forall a :: a in xs ==> AccountShaped(a)
  {
    if xs == [] then []
    else
      var last := xs[|xs| - 1];
      AlertsOf(db, xs[..|xs| - 1]) + (match AlertFor(db, last) case Some(al) => [al] case None => [])
  }

  /** The dict lookups `dashboard_summary` makes raise TypeError on a
      list-valued key. */
  predicate DashboardFaults(db: Document)
    requires Shaped(db)
  {
    || (exists s :: s in db.services && !Hashable(s["id"]))
    || (exists b :: b in db.budgets && !Hashable(b["account_id"]))
    || (exists a :: a in ActiveAccounts(db) && !(Hashable(a["service_id"]) && Hashable(a["id"])))
  }

  // ------------------------------------------------------------ the summary

  /** `breakdown[category] += account["monthly_cost_usd"]` for the i-th account. */
  method AddCost(db: Document, xs: seq<Record>, i: nat, breakdown: map<string, real>)
    returns (breakdown': map<string, real>)
    requires Shaped(db) && forall a :: a in xs ==> AccountShaped(a)
    requires i < |xs| && breakdown.Keys == Categories
    requires forall c :: c in Categories ==> breakdown[c] == CategoryTotal(db, xs[..i], c)
    ensures breakdown'.Keys == Categories
    ensures forall c :: c in Categories ==> breakdown'[c] == CategoryTotal(db, xs[..i + 1], c)
  {
    var account := xs[i];
    var category := CategoryOf(db, account);
    var cost := Cost(account);
    BucketStep(db, xs, i, breakdown, category, cost);
    breakdown' := breakdown[category := breakdown[category] + cost];
  }

  /** The alert test for the i-th account, appending its alert if raised. */
  method AddAlert(db: Document, xs: seq<Record>, i: nat, alerts: seq<Alert>) returns (alerts': seq<Alert>)
    requires Shaped(db) && forall a :: a in xs ==> AccountShaped(a)
    requires i < |xs| && alerts == AlertsOf(db, xs[..i])
    ensures alerts' == AlertsOf(db, xs[..i + 1])
  {
    AlertStep(db, xs, i);
    match AlertFor(db, xs[i]) {
      case Some(alert) => alerts' := alerts + [alert];
      case None => alerts' := alerts;
    }
  }

  /** The loop of `dashboard_summary()` over the active accounts. */
  method Accumulate(db: Document, active: seq<Record>) returns (breakdown: map<string, real>, alerts: seq<Alert>)
    requires Shaped(db) && forall a :: a in active ==> AccountShaped(a)
    ensures breakdown.Keys == Categories
    ensures forall c :: c in Categories ==> breakdown[c] == CategoryTotal(db, active, c)
    ensures alerts == AlertsOf(db, active)
  {
    breakdown := map["coding" := 0.0, "art" := 0.0, "music" := 0.0, "general" := 0.0];
    alerts := [];
    var i := 0;
    while i < |active|
      invariant 0 <= i <= |active|
      invariant breakdown.Keys == Categories
      invariant forall c :: c in Categories ==> breakdown[c] == CategoryTotal(db, active[..i], c)
      invariant alerts == AlertsOf(db, active[..i])
    {
      breakdown := AddCost(db, active, i, breakdown);
      alerts := AddAlert(db, active, i, alerts);
      i := i + 1;
    }
    assert active[..|active|] == active;
  }

  /** `dashboard_summary()`. */
  method DashboardSummary(db: Document) returns (r: Result<Summary>)
    requires Shaped(db)
    ensures r.Err? <==> DashboardFaults(db)
    ensures r.Err? ==> r.failure == TypeFault
    ensures r.Ok? ==> r.value.total == TotalCost(ActiveAccounts(db))
    ensures r.Ok? ==> r.value.breakdown.Keys == Categories
    ensures r.Ok? ==> forall c :: c in Categories ==>
              r.value.breakdown[c] == CategoryTotal(db, ActiveAccounts(db), c)
    ensures r.Ok? ==> r.value.alerts == AlertsOf(db, ActiveAccounts(db))
    ensures r.Ok? ==> r.value.total == r.value.breakdown["coding"] + r.value.breakdown["art"]
                                       + r.value.breakdown["music"] + r.value.breakdown["general"]
  {
    if DashboardFaults(db) {
      return Err(TypeFault);
    }
    var active := ActiveAccounts(db);
    var total := TotalCost(active);
    var breakdown, alerts := Accumulate(db, active);
    TotalIsSumOfBreakdown(db, active);
    return Ok(Summary(total, breakdown, alerts));
  }

  // ----------------------------------------------------------------- lemmas

  /** Adding one more account's cost to its bucket extends each bucket's
      reference total by that account. */
  lemma BucketStep(db: Document, xs: seq<Record>, i: nat, b: map<string, real>, category: string, cost: real)
    requires Shaped(db) && forall a :: a in xs ==> AccountShaped(a)
    requires i < |xs| && category == CategoryOf(db, xs[i]) && cost == Cost(xs[i])
    requires b.Keys == Categories
    requires forall c :: c in Categories ==> b[c] == CategoryTotal(db, xs[..i], c)
    ensures b[category := b[category] + cost].Keys == Categories
    ensures forall c :: c in Categories ==> b[category := b[category] + cost][c] == CategoryTotal(db, xs[..i + 1], c)
  {
    var b' := b[category := b[category] + cost];
    forall c | c in Categories ensures b'[c] == CategoryTotal(db, xs[..i + 1], c) {
      CategoryTotalStep(db, xs, i, c);
    }
  }

  /** One more account adds its cost to its own category's total only. */
  lemma CategoryTotalStep(db: Document, xs: seq<Record>, i: nat, c: string)
    requires Shaped(db) && forall a :: a in xs ==> AccountShaped(a)
    requires i < |xs|
    ensures CategoryTotal(db, xs[..i + 1], c) ==
              CategoryTotal(db, xs[..i], c) + (if CategoryOf(db, xs[i]) == c then Cost(xs[i]) else 0.0)
  {
    var prefix := xs[..i + 1];
    assert prefix[..i] == xs[..i];
    assert prefix[i] == xs[i];
  }

  /** One more account extends the reference alert list by its alert. */
  lemma AlertStep(db: Document, xs: seq<Record>, i: nat)
    requires Shaped(db) && forall a :: a in xs ==> AccountShaped(a)
    requires i < |xs|
    ensures AlertsOf(db, xs[..i + 1]) ==
              AlertsOf(db, xs[..i]) + (match AlertFor(db, xs[i]) case Some(al) => [al] case None => [])
  {
    assert xs[..i + 1][..i] == xs[..i];
    assert xs[..i + 1][i] == xs[i];
  }

  /** The total is the sum of the four category buckets: every active
      account lands in exactly one of them. */
  lemma {:induction false} TotalIsSumOfBreakdown(db: Document, xs: seq<Record>)
    requires Shaped(db) && forall a :: a in xs ==> AccountShaped(a)
    ensures TotalCost(xs) == CategoryTotal(db, xs, "coding") + CategoryTotal(db, xs, "art")
                             + CategoryTotal(db, xs, "music") + CategoryTotal(db, xs, "general")
  {
    if xs != [] {
      var init := xs[..|xs| - 1];
      var last := xs[|xs| - 1];
      assert forall a :: a in init ==> a in xs;
      TotalIsSumOfBreakdown(db, init);
      var c := CategoryOf(db, last);
      assert c == "coding" || c == "art" || c == "music" || c == "general";
      assert TotalCost(xs) == TotalCost(init) + Cost(last);
      CategoryTotalLast(db, xs, "coding");
      CategoryTotalLast(db, xs, "art");
      CategoryTotalLast(db, xs, "music");
      CategoryTotalLast(db, xs, "general");
    }
  }

  /** The last account adds its cost to its own category's total only. */
  lemma CategoryTotalLast(db: Document, xs: seq<Record>, c: string)
    requires Shaped(db) && forall a :: a in xs ==> AccountShaped(a)
    requires xs != []
    ensures CategoryTotal(db, xs, c) == CategoryTotal(db, xs[..|xs| - 1], c)
              + (if CategoryOf(db, xs[|xs| - 1]) == c then Cost(xs[|xs| - 1]) else 0.0)
  {
  }

  /** An alert is raised exactly for the accounts over threshold, and only
      those. */
  lemma {:induction false} AlertsExactly(db: Document, xs: seq<Record>, al: Alert)
    requires Shaped(db) && forall a :: a in xs ==> AccountShaped(a)
    ensures al in AlertsOf(db, xs) <==> exists a :: a in xs && AlertFor(db, a) == Some(al)
    ensures |AlertsOf(db, xs)| <= |xs|
  {
    if xs != [] {
      var init := xs[..|xs| - 1];
      assert forall a :: a in init ==> a in xs;
      assert forall a :: a in xs ==> a in init || a == xs[|xs| - 1];
      AlertsExactly(db, init, al);
    }
  }

  /** Alerts follow account order: the alerts of a concatenation are those of
      each part, in turn. */
  lemma {:induction false} AlertsInAccountOrder(db: Document, xs: seq<Record>, ys: seq<Record>)
    requires Shaped(db) && forall a :: a in xs + ys ==> AccountShaped(a)
    ensures AlertsOf(db, xs + ys) == AlertsOf(db, xs) + AlertsOf(db, ys)
  {
    if ys != [] {
      var init := ys[..|ys| - 1];
      assert (xs + ys)[..|xs + ys| - 1] == xs + init;
      assert forall a :: a in xs + init ==> a in xs + ys;
      AlertsInAccountOrder(db, xs, init);
    } else {
      assert xs + ys == xs;
    }
  }
}
