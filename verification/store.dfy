/** The document store of `ai_watch/storage.py` (`FileDatabase`) with the file,
    the lock and JSON (de)serialisation taken away.

    A `Document` is what `_read` returns: the four collections, plus any other
    top-level keys the file happened to carry (the source keeps them and
    writes them back).  Every public method becomes a pure function from the
    document it read to an error, a query result, or the document it would
    write. */
module Store {
  import opened Json
  import opened Results
  import opened Records
  import opened Validation
  import opened Ordering

  datatype Document = Document(
    services: seq<Record>,
    accounts: seq<Record>,
    budgets: seq<Record>,           // the "usage_budgets" list
    recommendations: seq<Record>,
    others: map<string, seq<Record>>)

  /** The JSON object stored in the file: top-level key to record list. */
  type StoredFile = map<string, seq<Record>>

  const CollectionKeys: set<string> := {"services", "accounts", "usage_budgets", "recommendations"}

  /** `DEFAULT_DB`, written when the file does not exist yet. */
  const DefaultFile: StoredFile :=
    map["services" := [], "accounts" := [], "usage_budgets" := [], "recommendations" := []]

  // -------------------------------------------------------- read and write

  /** `_read`: reject a file without "services" or "accounts"; default the two
      later collections to empty lists. */
  function Load(file: StoredFile): (r: Result<Document>)
    ensures r.Ok? <==> "services" in file && "accounts" in file
    ensures r.Err? ==> r.failure == InvalidFormat
    ensures r.Ok? ==> r.value.others.Keys !! CollectionKeys
  {
    if "services" !in file || "accounts" !in file then Err(InvalidFormat)
    else Ok(Document(
      file["services"],
      file["accounts"],
      if "usage_budgets" in file then file["usage_budgets"] else [],
      if "recommendations" in file then file["recommendations"] else [],
      file - CollectionKeys))
  }

  /** The object `_write` serialises. */
  function Save(db: Document): (file: StoredFile)
    ensures file.Keys == db.others.Keys + CollectionKeys
  {
    db.others["services" := db.services]["accounts" := db.accounts]
      ["usage_budgets" := db.budgets]["recommendations" := db.recommendations]
  }

  /** Writing a document and reading it back yields the same document. */
  lemma LoadSave(db: Document)
    requires db.others.Keys !! CollectionKeys
    ensures Load(Save(db)) == Ok(db)
  {
    var file := Save(db);
    assert file - CollectionKeys == db.others;
  }

  /** Reading then writing keeps every key of the file and adds exactly the
      two optional collections, as empty lists, when they were missing. */
  lemma SaveLoad(file: StoredFile)
    requires Load(file).Ok?
    ensures Save(Load(file).value).Keys == file.Keys + CollectionKeys
    ensures forall k :: k in file ==> Save(Load(file).value)[k] == file[k]
    ensures "usage_budgets" !in file ==> Save(Load(file).value)["usage_budgets"] == []
    ensures "recommendations" !in file ==> Save(Load(file).value)["recommendations"] == []
  {
  }

  /** A fresh store reads as four empty collections. */
  lemma LoadDefault()
    ensures Load(DefaultFile) == Ok(Document([], [], [], [], map[]))
  {
    assert DefaultFile - CollectionKeys == map[];
  }

  // ----------------------------------------------------------- record shape

  /** The keys, and value types, that the store reads from a stored service.
      `validate_service_payload` guarantees them for every service it admits. */
  predicate ServiceShaped(r: Record)
  {
    "id" in r && "category" in r && r["category"].JStr? && r["category"].s in Categories
  }

  predicate AccountShaped(r: Record)
  {
    && "id" in r && "service_id" in r && "email" in r && "status" in r
    && "monthly_cost_usd" in r && PyNumber(r["monthly_cost_usd"])
  }

  predicate BudgetShaped(r: Record)
  {
    && "id" in r && "account_id" in r
    && (forall f :: f in BudgetNumbers ==> f in r && PyNumber(r[f]))
  }

  predicate RecommendationShaped(r: Record)
  {
    "id" in r && "priority" in r && PyInt(r["priority"])
  }

  /** Every stored record carries what the store reads from it.  The source
      raises KeyError or TypeError on a document that breaks this; the model
      is stated for documents that keep it, which all documents the store
      itself writes do. */
  predicate Shaped(db: Document)
  {
    && (forall r :: r in db.services ==> ServiceShaped(r))
    && (forall r :: r in db.accounts ==> AccountShaped(r))
    && (forall r :: r in db.budgets ==> BudgetShaped(r))
    && (forall r :: r in db.recommendations ==> RecommendationShaped(r))
  }

  /** A filter argument counts only when it is a non-empty string. */
  predicate Filtering(filter: Option<string>)
  {
    filter.Some? && filter.value != ""
  }

  /** `next((r for r in rs if r["id"] == id), None)`: the first record with
      the id. */
  function FindById(rs: seq<Record>, id: string): (found: Option<Record>)
    ensures found.Some? ==> found.value in rs && "id" in found.value && found.value["id"] == JStr(id)
    ensures found.Some? ==> exists i :: FirstWith(rs, "id", JStr(id), i) && rs[i] == found.value
    ensures found.None? <==> !AnyWith(rs, "id", JStr(id))
  {
    match FirstIndex(rs, "id", JStr(id))
    case None => None
    case Some(i) =>
      NormIsStr(rs[i]["id"], id);
      Some(rs[i])
  }

  // --------------------------------------------------------------- services

  /** `list_services(category)`. */
  function ListServices(db: Document, category: Option<string>): (out: seq<Record>)
    requires Shaped(db)
    ensures forall r :: r in out <==>
              r in db.services && (Filtering(category) ==> r["category"] == JStr(category.value))
    ensures out == Where(db.services, r => Filtering(category) ==> Get(r, "category") == JStr(category.value))
    ensures !Filtering(category) ==> out == db.services
  {
    var keep := r => Filtering(category) ==> Get(r, "category") == JStr(category.value);
    WhereKeepsAll(db.services, keep);
    if Filtering(category) then
      var byCategory := r => Get(r, "category") == JStr(category.value);
      WhereEquiv(db.services, byCategory, keep);
      Where(db.services, byCategory)
    else db.services
  }

  /** `get_service(service_id)`. */
  function GetService(db: Document, id: string): (found: Option<Record>)
    ensures found.Some? ==> exists i :: FirstWith(db.services, "id", JStr(id), i) && db.services[i] == found.value
    ensures found.None? <==> !AnyWith(db.services, "id", JStr(id))
  {
    FindById(db.services, id)
  }

  /** `create_service(payload)`: validate, refuse a duplicate id, append. */
  function CreateService(db: Document, p: Record): (r: Result<(Document, Record)>)
    requires Shaped(db)
    ensures r.Ok? <==> AcceptableService(p) && !AnyWith(db.services, "id", p["id"])
    ensures ValidateService(p).Fail? ==> r == Err(ValidateService(p).failure)
    ensures AcceptableService(p) && AnyWith(db.services, "id", p["id"]) ==> r == Err(AlreadyExists)
    ensures r.Ok? ==> r.value == (db.(services := db.services + [p]), p)
  {
    match ValidateService(p)
    case Fail(why) => Err(why)
    case Pass =>
      if AnyWith(db.services, "id", p["id"]) then Err(AlreadyExists)
      else Ok((db.(services := db.services + [p]), p))
  }

  /** `update_service(service_id, payload)`: validate, require the payload id
      to be the path id, find the first service with it, merge the payload
      into it (`dict.update`). */
  function UpdateService(db: Document, id: string, p: Record): (r: Result<(Document, Record)>)
    requires Shaped(db)
    ensures r.Ok? <==> AcceptableService(p) && p["id"] == JStr(id) && AnyWith(db.services, "id", JStr(id))
    ensures ValidateService(p).Fail? ==> r == Err(ValidateService(p).failure)
    ensures AcceptableService(p) && p["id"] != JStr(id) ==> r == Err(IdMismatch)
    ensures AcceptableService(p) && p["id"] == JStr(id) && !AnyWith(db.services, "id", JStr(id)) ==>
              r == Err(NotFound)
    ensures r.Ok? ==>
              var i := FirstIndex(db.services, "id", JStr(id)).value;
              r.value == (db.(services := db.services[i := db.services[i] + p]), db.services[i] + p)
  {
    match ValidateService(p)
    case Fail(why) => Err(why)
    case Pass =>
      NormIsStr(p["id"], id);
      if !PyEq(p["id"], JStr(id)) then Err(IdMismatch)
      else match FirstIndex(db.services, "id", JStr(id))
        case None => Err(NotFound)
        case Some(i) =>
          var merged := db.services[i] + p;
          Ok((db.(services := db.services[i := merged]), merged))
  }

  /** `delete_service(service_id)`: refuse while an account uses the id, then
      remove every service with it, or report that there was none. */
  function DeleteService(db: Document, id: string): (r: Result<Document>)
    requires Shaped(db)
    ensures r.Ok? <==> !AnyWith(db.accounts, "service_id", JStr(id)) && AnyWith(db.services, "id", JStr(id))
    ensures AnyWith(db.accounts, "service_id", JStr(id)) ==> r == Err(ServiceInUse)
    ensures !AnyWith(db.accounts, "service_id", JStr(id)) && !AnyWith(db.services, "id", JStr(id)) ==>
              r == Err(NotFound)
    ensures r.Ok? ==> r.value == db.(services := r.value.services)
    ensures r.Ok? ==> forall s :: s in r.value.services <==> s in db.services && !KeyIs(s, "id", JStr(id))
    ensures r.Ok? ==> r.value.services == Where(db.services, KeyIsNot("id", JStr(id)))
  {
    if AnyWith(db.accounts, "service_id", JStr(id)) then Err(ServiceInUse)
    else
      var kept := Where(db.services, KeyIsNot("id", JStr(id)));
      WhereKeepsAll(db.services, KeyIsNot("id", JStr(id)));
      if |kept| == |db.services| then Err(NotFound)
      else Ok(db.(services := kept))
  }

  // --------------------------------------------------------------- accounts

  /** The category `list_accounts` sees for an account:
      `services.get(acc["service_id"], {}).get("category")`. */
  function ListedCategory(db: Document, a: Record): JValue
    requires Shaped(db) && "service_id" in a
  {
    match LastIndex(db.services, "id", a["service_id"])
    case None => JNull
    case Some(i) =>
      assert db.services[i] in db.services;
      db.services[i]["category"]
  }

  /** The accounts `list_accounts(category, status)` returns. */
  predicate AccountListed(db: Document, a: Record, category: Option<string>, status: Option<string>)
    requires Shaped(db) && AccountShaped(a)
  {
    && (Filtering(status) ==> a["status"] == JStr(status.value))
    && (Filtering(category) ==> ListedCategory(db, a) == JStr(category.value))
  }

  /** The test `list_accounts` applies to each stored account, as one filter. */
  function ListedBy(db: Document, category: Option<string>, status: Option<string>): Record -> bool
    requires Shaped(db)
  {
    a => AccountShaped(a) && AccountListed(db, a, category, status)
  }

  /** Building `{svc["id"]: svc}` raises TypeError on a list-valued id, and
      so does looking up a list-valued service_id in it. */
  predicate ListAccountsFaults(db: Document, category: Option<string>, status: Option<string>)
    requires Shaped(db)
  {
    || (exists s :: s in db.services && !Hashable(s["id"]))
    || (Filtering(category) &&
        exists a :: a in db.accounts && (Filtering(status) ==> a["status"] == JStr(status.value))
                     && !Hashable(a["service_id"]))
  }

  /** `list_accounts(category, status)`: the status filter, then the category
      filter through the service each account names. */
  function ListAccounts(db: Document, category: Option<string>, status: Option<string>): (r: Result<seq<Record>>)
    requires Shaped(db)
    ensures r.Err? <==> ListAccountsFaults(db, category, status)
    ensures r.Err? ==> r.failure == TypeFault
    ensures r.Ok? ==> forall a :: a in r.value <==> a in db.accounts && AccountListed(db, a, category, status)
    ensures r.Ok? ==> r.value == Where(db.accounts, ListedBy(db, category, status))
    ensures r.Ok? && !Filtering(category) && !Filtering(status) ==> r.value == db.accounts
  {
    if exists s :: s in db.services && !Hashable(s["id"]) then Err(TypeFault)
    else
      var byStatus :=
        if Filtering(status) then Where(db.accounts, a => Get(a, "status") == JStr(status.value))
        else db.accounts;
      ListedByFilters(db, category, status);
      if !Filtering(category) then Ok(byStatus)
      else if exists a :: a in byStatus && !Hashable(a["service_id"]) then Err(TypeFault)
      else Ok(Where(byStatus, a => "service_id" in a && ListedCategory(db, a) == JStr(category.value)))
  }

  /** The status filter followed by the category filter is the one filter
      `ListedBy`. */
  lemma ListedByFilters(db: Document, category: Option<string>, status: Option<string>)
    requires Shaped(db)
    ensures var byStatus :=
              if Filtering(status) then Where(db.accounts, a => Get(a, "status") == JStr(status.value))
              else db.accounts;
            && (!Filtering(category) ==> byStatus == Where(db.accounts, ListedBy(db, category, status)))
            && (Filtering(category) ==>
                  Where(byStatus, a => "service_id" in a && ListedCategory(db, a) == JStr(category.value))
                  == Where(db.accounts, ListedBy(db, category, status)))
  {
    var listed := ListedBy(db, category, status);
    var statusIs := a => status.Some? && Get(a, "status") == JStr(status.value);
    var categoryIs := a => category.Some? && "service_id" in a && ListedCategory(db, a) == JStr(category.value);
    var byStatus := if Filtering(status) then Where(db.accounts, statusIs) else db.accounts;
    if Filtering(status) {
      assert Where(db.accounts, a => Get(a, "status") == JStr(status.value)) == byStatus by {
        WhereEquiv(db.accounts, a => Get(a, "status") == JStr(status.value), statusIs);
      }
    }
    if Filtering(category) {
      assert Where(byStatus, a => "service_id" in a && ListedCategory(db, a) == JStr(category.value))
             == Where(byStatus, categoryIs) by {
        WhereEquiv(byStatus, a => "service_id" in a && ListedCategory(db, a) == JStr(category.value), categoryIs);
      }
      if Filtering(status) {
        WhereWhere(db.accounts, statusIs, categoryIs);
        WhereEquiv(db.accounts, a => statusIs(a) && categoryIs(a), listed);
      } else {
        WhereEquiv(db.accounts, categoryIs, listed);
      }
    } else if Filtering(status) {
      WhereEquiv(db.accounts, statusIs, listed);
    } else {
      WhereKeepsAll(db.accounts, listed);
    }
  }

  /** `get_account(account_id)`. */
  function GetAccount(db: Document, id: string): (found: Option<Record>)
    ensures found.Some? ==> exists i :: FirstWith(db.accounts, "id", JStr(id), i) && db.accounts[i] == found.value
    ensures found.None? <==> !AnyWith(db.accounts, "id", JStr(id))
  {
    FindById(db.accounts, id)
  }

  /** `create_account(payload)`: validate against the stored services, refuse
      a duplicate id, append. */
  function CreateAccount(db: Document, p: Record): (r: Result<(Document, Record)>)
    requires Shaped(db)
    ensures r.Ok? <==> AcceptableAccount(p, db.services) && !AnyWith(db.accounts, "id", p["id"])
    ensures ValidateAccount(p, db.services).Fail? ==> r == Err(ValidateAccount(p, db.services).failure)
    ensures AcceptableAccount(p, db.services) && AnyWith(db.accounts, "id", p["id"]) ==> r == Err(AlreadyExists)
    ensures r.Ok? ==> r.value == (db.(accounts := db.accounts + [p]), p)
  {
    match ValidateAccount(p, db.services)
    case Fail(why) => Err(why)
    case Pass =>
      if AnyWith(db.accounts, "id", p["id"]) then Err(AlreadyExists)
      else Ok((db.(accounts := db.accounts + [p]), p))
  }

  /** `update_account(account_id, payload)`. */
  function UpdateAccount(db: Document, id: string, p: Record): (r: Result<(Document, Record)>)
    requires Shaped(db)
    ensures r.Ok? <==> AcceptableAccount(p, db.services) && p["id"] == JStr(id)
                       && AnyWith(db.accounts, "id", JStr(id))
    ensures ValidateAccount(p, db.services).Fail? ==> r == Err(ValidateAccount(p, db.services).failure)
    ensures AcceptableAccount(p, db.services) && p["id"] != JStr(id) ==> r == Err(IdMismatch)
    ensures AcceptableAccount(p, db.services) && p["id"] == JStr(id) && !AnyWith(db.accounts, "id", JStr(id)) ==>
              r == Err(NotFound)
    ensures r.Ok? ==>
              var i := FirstIndex(db.accounts, "id", JStr(id)).value;
              r.value == (db.(accounts := db.accounts[i := db.accounts[i] + p]), db.accounts[i] + p)
  {
    match ValidateAccount(p, db.services)
    case Fail(why) => Err(why)
    case Pass =>
      NormIsStr(p["id"], id);
      if !PyEq(p["id"], JStr(id)) then Err(IdMismatch)
      else match FirstIndex(db.accounts, "id", JStr(id))
        case None => Err(NotFound)
        case Some(i) =>
          var merged := db.accounts[i] + p;
          Ok((db.(accounts := db.accounts[i := merged]), merged))
  }

  /** `delete_account(account_id)`: remove the account, then every budget
      for it and every recommendation whose account_id is it. */
  function DeleteAccount(db: Document, id: string): (r: Result<Document>)
    requires Shaped(db)
    ensures r.Ok? <==> AnyWith(db.accounts, "id", JStr(id))
    ensures r.Err? ==> r.failure == NotFound
    ensures r.Ok? ==> r.value.services == db.services && r.value.others == db.others
    ensures r.Ok? ==> forall a :: a in r.value.accounts <==> a in db.accounts && !KeyIs(a, "id", JStr(id))
    ensures r.Ok? ==> forall b :: b in r.value.budgets <==> b in db.budgets && !KeyIs(b, "account_id", JStr(id))
    ensures r.Ok? ==> forall c :: c in r.value.recommendations <==>
                        c in db.recommendations && Get(c, "account_id") != JStr(id)
    ensures r.Ok? ==> && r.value.accounts == Where(db.accounts, KeyIsNot("id", JStr(id)))
                      && r.value.budgets == Where(db.budgets, KeyIsNot("account_id", JStr(id)))
                      && r.value.recommendations == Where(db.recommendations, KeyIsNot("account_id", JStr(id)))
  {
    var kept := Where(db.accounts, KeyIsNot("id", JStr(id)));
    WhereKeepsAll(db.accounts, KeyIsNot("id", JStr(id)));
    if |kept| == |db.accounts| then Err(NotFound)
    else
      var recs := Where(db.recommendations, KeyIsNot("account_id", JStr(id)));
      assert forall c :: c in recs <==> c in db.recommendations && Get(c, "account_id") != JStr(id) by {
        forall c | c in db.recommendations ensures KeyIs(c, "account_id", JStr(id)) <==> Get(c, "account_id") == JStr(id) {
          NormIsStr(Get(c, "account_id"), id);
        }
      }
      Ok(db.(accounts := kept,
             budgets := Where(db.budgets, KeyIsNot("account_id", JStr(id))),
             recommendations := recs))
  }

  // ---------------------------------------------------------------- budgets

  /** `list_budgets()`. */
  function ListBudgets(db: Document): (budgets: seq<Record>)
    ensures budgets == db.budgets
  {
    db.budgets
  }

  /** `get_budget(budget_id)`. */
  function GetBudget(db: Document, id: string): (found: Option<Record>)
    ensures found.Some? ==> exists i :: FirstWith(db.budgets, "id", JStr(id), i) && db.budgets[i] == found.value
    ensures found.None? <==> !AnyWith(db.budgets, "id", JStr(id))
  {
    FindById(db.budgets, id)
  }

  /** `create_budget(payload)`: validate against the stored accounts, refuse
      a duplicate id, then refuse a second budget for the same account. */
  function CreateBudget(db: Document, p: Record): (r: Result<(Document, Record)>)
    requires Shaped(db)
    ensures r.Ok? <==> AcceptableBudget(p, db.accounts) && !AnyWith(db.budgets, "id", p["id"])
                       && !AnyWith(db.budgets, "account_id", p["account_id"])
    ensures ValidateBudget(p, db.accounts).Fail? ==> r == Err(ValidateBudget(p, db.accounts).failure)
    ensures AcceptableBudget(p, db.accounts) && AnyWith(db.budgets, "id", p["id"]) ==> r == Err(AlreadyExists)
    ensures (AcceptableBudget(p, db.accounts) && !AnyWith(db.budgets, "id", p["id"])
             && AnyWith(db.budgets, "account_id", p["account_id"])) ==> r == Err(AccountHasBudget)
    ensures r.Ok? ==> r.value == (db.(budgets := db.budgets + [p]), p)
  {
    match ValidateBudget(p, db.accounts)
    case Fail(why) => Err(why)
    case Pass =>
      if AnyWith(db.budgets, "id", p["id"]) then Err(AlreadyExists)
      else if AnyWith(db.budgets, "account_id", p["account_id"]) then Err(AccountHasBudget)
      else Ok((db.(budgets := db.budgets + [p]), p))
  }

  /** Some budget other than `id` already belongs to `accountId`. */
  predicate BudgetTakenByOther(db: Document, id: string, accountId: JValue)
  {
    exists b :: b in db.budgets && !KeyIs(b, "id", JStr(id)) && KeyIs(b, "account_id", accountId)
  }

  /** `update_budget(budget_id, payload)`: as the other updates, and the
      budget may not move onto an account another budget already owns. */
  function UpdateBudget(db: Document, id: string, p: Record): (r: Result<(Document, Record)>)
    requires Shaped(db)
    ensures r.Ok? <==> AcceptableBudget(p, db.accounts) && p["id"] == JStr(id)
                       && AnyWith(db.budgets, "id", JStr(id)) && !BudgetTakenByOther(db, id, p["account_id"])
    ensures ValidateBudget(p, db.accounts).Fail? ==> r == Err(ValidateBudget(p, db.accounts).failure)
    ensures AcceptableBudget(p, db.accounts) && p["id"] != JStr(id) ==> r == Err(IdMismatch)
    ensures AcceptableBudget(p, db.accounts) && p["id"] == JStr(id) && !AnyWith(db.budgets, "id", JStr(id)) ==>
              r == Err(NotFound)
    ensures (AcceptableBudget(p, db.accounts) && p["id"] == JStr(id) && AnyWith(db.budgets, "id", JStr(id))
             && BudgetTakenByOther(db, id, p["account_id"])) ==> r == Err(AccountHasBudget)
    ensures r.Ok? ==>
              var i := FirstIndex(db.budgets, "id", JStr(id)).value;
              r.value == (db.(budgets := db.budgets[i := db.budgets[i] + p]), db.budgets[i] + p)
  {
    match ValidateBudget(p, db.accounts)
    case Fail(why) => Err(why)
    case Pass =>
      NormIsStr(p["id"], id);
      if !PyEq(p["id"], JStr(id)) then Err(IdMismatch)
      else match FirstIndex(db.budgets, "id", JStr(id))
        case None => Err(NotFound)
        case Some(i) =>
          if BudgetTakenByOther(db, id, p["account_id"]) then Err(AccountHasBudget)
          else
            var merged := db.budgets[i] + p;
            Ok((db.(budgets := db.budgets[i := merged]), merged))
  }

  /** `delete_budget(budget_id)`. */
  function DeleteBudget(db: Document, id: string): (r: Result<Document>)
    requires Shaped(db)
    ensures r.Ok? <==> AnyWith(db.budgets, "id", JStr(id))
    ensures r.Err? ==> r.failure == NotFound
    ensures r.Ok? ==> r.value == db.(budgets := r.value.budgets)
    ensures r.Ok? ==> forall b :: b in r.value.budgets <==> b in db.budgets && !KeyIs(b, "id", JStr(id))
    ensures r.Ok? ==> r.value.budgets == Where(db.budgets, KeyIsNot("id", JStr(id)))
  {
    var kept := Where(db.budgets, KeyIsNot("id", JStr(id)));
    WhereKeepsAll(db.budgets, KeyIsNot("id", JStr(id)));
    if |kept| == |db.budgets| then Err(NotFound)
    else Ok(db.(budgets := kept))
  }

  // -------------------------------------------------------- recommendations

  /** `list_recommendations()`: the stored recommendations, stably sorted by
      ascending priority. */
  function ListRecommendations(db: Document): (out: seq<Record>)
    requires Shaped(db)
    ensures multiset(out) == multiset(db.recommendations)
    ensures SortedByPriority(out)
    ensures forall v :: WithPriority(out, v) == WithPriority(db.recommendations, v)
  {
    var out := SortByPriority(db.recommendations);
    assert forall v :: WithPriority(out, v) == WithPriority(db.recommendations, v) by {
      forall v ensures WithPriority(out, v) == WithPriority(db.recommendations, v) {
        SortIsStable(db.recommendations, v);
      }
    }
    out
  }

  /** `get_recommendation(recommendation_id)`. */
  function GetRecommendation(db: Document, id: string): (found: Option<Record>)
    ensures found.Some? ==> exists i :: FirstWith(db.recommendations, "id", JStr(id), i) && db.recommendations[i] == found.value
    ensures found.None? <==> !AnyWith(db.recommendations, "id", JStr(id))
  {
    FindById(db.recommendations, id)
  }

  /** `create_recommendation(payload)`. */
  function CreateRecommendation(db: Document, p: Record): (r: Result<(Document, Record)>)
    requires Shaped(db)
    ensures r.Ok? <==> AcceptableRecommendation(p, db.accounts, db.services)
                       && !AnyWith(db.recommendations, "id", p["id"])
    ensures ValidateRecommendation(p, db.accounts, db.services).Fail? ==>
              r == Err(ValidateRecommendation(p, db.accounts, db.services).failure)
    ensures AcceptableRecommendation(p, db.accounts, db.services) && AnyWith(db.recommendations, "id", p["id"]) ==>
              r == Err(AlreadyExists)
    ensures r.Ok? ==> r.value == (db.(recommendations := db.recommendations + [p]), p)
  {
    match ValidateRecommendation(p, db.accounts, db.services)
    case Fail(why) => Err(why)
    case Pass =>
      if AnyWith(db.recommendations, "id", p["id"]) then Err(AlreadyExists)
      else Ok((db.(recommendations := db.recommendations + [p]), p))
  }

  /** `update_recommendation(recommendation_id, payload)`. */
  function UpdateRecommendation(db: Document, id: string, p: Record): (r: Result<(Document, Record)>)
    requires Shaped(db)
    ensures r.Ok? <==> AcceptableRecommendation(p, db.accounts, db.services) && p["id"] == JStr(id)
                       && AnyWith(db.recommendations, "id", JStr(id))
    ensures ValidateRecommendation(p, db.accounts, db.services).Fail? ==>
              r == Err(ValidateRecommendation(p, db.accounts, db.services).failure)
    ensures AcceptableRecommendation(p, db.accounts, db.services) && p["id"] != JStr(id) ==> r == Err(IdMismatch)
    ensures (AcceptableRecommendation(p, db.accounts, db.services) && p["id"] == JStr(id)
             && !AnyWith(db.recommendations, "id", JStr(id))) ==> r == Err(NotFound)
    ensures r.Ok? ==>
              var i := FirstIndex(db.recommendations, "id", JStr(id)).value;
              r.value == (db.(recommendations := db.recommendations[i := db.recommendations[i] + p]),
                          db.recommendations[i] + p)
  {
    match ValidateRecommendation(p, db.accounts, db.services)
    case Fail(why) => Err(why)
    case Pass =>
      NormIsStr(p["id"], id);
      if !PyEq(p["id"], JStr(id)) then Err(IdMismatch)
      else match FirstIndex(db.recommendations, "id", JStr(id))
        case None => Err(NotFound)
        case Some(i) =>
          var merged := db.recommendations[i] + p;
          Ok((db.(recommendations := db.recommendations[i := merged]), merged))
  }

  /** `delete_recommendation(recommendation_id)`. */
  function DeleteRecommendation(db: Document, id: string): (r: Result<Document>)
    requires Shaped(db)
    ensures r.Ok? <==> AnyWith(db.recommendations, "id", JStr(id))
    ensures r.Err? ==> r.failure == NotFound
    ensures r.Ok? ==> r.value == db.(recommendations := r.value.recommendations)
    ensures r.Ok? ==> forall c :: c in r.value.recommendations <==>
                        c in db.recommendations && !KeyIs(c, "id", JStr(id))
    ensures r.Ok? ==> r.value.recommendations == Where(db.recommendations, KeyIsNot("id", JStr(id)))
  {
    var kept := Where(db.recommendations, KeyIsNot("id", JStr(id)));
    WhereKeepsAll(db.recommendations, KeyIsNot("id", JStr(id)));
    if |kept| == |db.recommendations| then Err(NotFound)
    else Ok(db.(recommendations := kept))
  }
}
