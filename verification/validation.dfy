/** The payload validators of `ai_watch/validation.py`.

    Each validator runs its checks in the source's order and reports the first
    one that fires; each is paired with a predicate stating, as one
    conjunction, what an acceptable payload looks like, and its contract says
    the validator passes exactly on those payloads.  The validators only read
    their arguments: they are pure functions here. */
module Validation {
  import opened Json
  import opened Results
  import opened Records

  const Categories: set<string> := {"coding", "art", "music", "general"}
  const Statuses: set<string> := {"active", "paused", "cancelled"}

  const ServiceRequired: seq<string> := ["id", "name", "category", "provider", "website_url"]
  const AccountRequired: seq<string> :=
    ["id", "service_id", "email", "plan_name", "monthly_cost_usd", "status"]
  const BudgetNumbers: seq<string> :=
    ["monthly_budget_usd", "alert_threshold_percent", "current_month_spend_usd"]
  const BudgetRequired: seq<string> := ["id", "account_id"] + BudgetNumbers
  const RecommendationRequired: seq<string> := ["id", "title", "body", "priority"]
  const UrlFields: seq<string> := ["website_url", "docs_url", "billing_url"]

  // ---------------------------------------------------------------- helpers

  /** Some top-level key contains "password", ignoring case. */
  predicate HasPasswordKey(p: Record)
  {
    exists k :: k in p && Contains(Lower(k), "password")
  }

  /** The first of `fields` that `p` lacks. */
  function FirstMissing(p: Record, fields: seq<string>): (m: Option<string>)
    ensures m.None? <==> forall f :: f in fields ==> f in p
    ensures m.Some? ==> m.value !in p
    ensures m.Some? ==> exists k :: 0 <= k < |fields| && fields[k] == m.value
                                    && forall j :: 0 <= j < k ==> fields[j] in p
  {
    if fields == [] then None
    else if fields[0] !in p then Some(fields[0])
    else
      var rest := FirstMissing(p, fields[1..]);
      assert forall f :: f in fields ==> f == fields[0] || f in fields[1..];
      if rest.Some? then
        var k :| 0 <= k < |fields[1..]| && fields[1..][k] == rest.value
                 && forall j :: 0 <= j < k ==> fields[1..][j] in p;
        assert fields[k + 1] == rest.value;
        rest
      else rest
  }

  /** A field that must be absent, null or a string. */
  predicate StringOrNull(v: JValue)
  {
    v.JNull? || v.JStr?
  }

  /** A value that must be an int or float and not below zero. */
  predicate NonNegativeNumber(v: JValue)
  {
    PyNumber(v) && Num(v) >= 0.0
  }

  /** `"@" in email`, for the two kinds of value Python can search. */
  predicate HasAt(v: JValue)
    requires v.JStr? || v.JList?
  {
    if v.JStr? then '@' in v.s else JStr("@") in v.items
  }

  /** The first url field holding something other than a string or null. */
  function UrlCheck(p: Record, fields: seq<string>): (c: Check)
    ensures c.Pass? <==> forall f :: f in fields ==> StringOrNull(Get(p, f))
    ensures c.Fail? ==> c.failure.BadUrl?
    ensures c.Fail? ==> exists i :: 0 <= i < |fields| && c.failure.field == fields[i]
                                    && !StringOrNull(Get(p, fields[i]))
                                    && forall j :: 0 <= j < i ==> StringOrNull(Get(p, fields[j]))
  {
    if fields == [] then Pass
    else if !StringOrNull(Get(p, fields[0])) then Fail(BadUrl(fields[0]))
    else
      assert forall f :: f in fields ==> f == fields[0] || f in fields[1..];
      var rest := UrlCheck(p, fields[1..]);
      if rest.Fail? then
        var k :| 0 <= k < |fields[1..]| && rest.failure.field == fields[1..][k]
                 && !StringOrNull(Get(p, fields[1..][k]))
                 && forall j :: 0 <= j < k ==> StringOrNull(Get(p, fields[1..][j]));
        assert fields[k + 1] == fields[1..][k];
        assert forall j :: 0 < j <= k ==> fields[j] == fields[1..][j - 1];
        rest
      else rest
  }

  /** The first numeric field that is not a non-negative number. */
  function NumberCheck(p: Record, fields: seq<string>): (c: Check)
    requires forall f :: f in fields ==> f in p
    ensures c.Pass? <==> forall f :: f in fields ==> NonNegativeNumber(p[f])
    ensures c.Fail? ==> c.failure.BadNumber?
    ensures c.Fail? ==> exists i :: 0 <= i < |fields| && c.failure.field == fields[i]
                                    && !NonNegativeNumber(p[fields[i]])
                                    && forall j :: 0 <= j < i ==> NonNegativeNumber(p[fields[j]])
  {
    if fields == [] then Pass
    else if !NonNegativeNumber(p[fields[0]]) then Fail(BadNumber(fields[0]))
    else
      assert forall f :: f in fields ==> f == fields[0] || f in fields[1..];
      var rest := NumberCheck(p, fields[1..]);
      if rest.Fail? then
        var k :| 0 <= k < |fields[1..]| && rest.failure.field == fields[1..][k]
                 && !NonNegativeNumber(p[fields[1..][k]])
                 && forall j :: 0 <= j < k ==> NonNegativeNumber(p[fields[1..][j]]);
        assert fields[k + 1] == fields[1..][k];
        assert forall j :: 0 < j <= k ==> fields[j] == fields[1..][j - 1];
        rest
      else rest
  }

  // ------------------------------------------------------------- services

  /** What `validate_service_payload` accepts. */
  predicate AcceptableService(p: Record)
  {
    && !HasPasswordKey(p)
    && (forall f :: f in ServiceRequired ==> f in p)
    && p["category"].JStr? && p["category"].s in Categories
    && (forall f :: f in UrlFields ==> StringOrNull(Get(p, f)))
  }

  /** `validate_service_payload(payload)`. */
  function ValidateService(p: Record): (c: Check)
    ensures c.Pass? <==> AcceptableService(p)
    ensures HasPasswordKey(p) ==> c == Fail(PasswordField)
    ensures !HasPasswordKey(p) && FirstMissing(p, ServiceRequired).Some? ==>
              c == Fail(MissingField(FirstMissing(p, ServiceRequired).value))
  {
    if HasPasswordKey(p) then Fail(PasswordField)
    else match FirstMissing(p, ServiceRequired)
      case Some(f) => Fail(MissingField(f))
      case None =>
        var category := p["category"];
        if category.JList? then Fail(TypeFault)   // a list is unhashable
        else if !(category.JStr? && category.s in Categories) then Fail(BadCategory)
        else UrlCheck(p, UrlFields)
  }

  // ------------------------------------------------------------- accounts

  /** The checks `validate_account_payload` makes once the required keys are
      known to be present. */
  predicate AccountFieldsOk(p: Record, services: seq<Record>)
    requires forall f :: f in AccountRequired ==> f in p
  {
    && (p["email"].JStr? || p["email"].JList?) && HasAt(p["email"])
    && p["status"].JStr? && p["status"].s in Statuses
    && AnyWith(services, "id", p["service_id"])
    && NonNegativeNumber(p["monthly_cost_usd"])
    && (Get(p, "renewal_day").JNull?
        || (PyInt(Get(p, "renewal_day")) && 1.0 <= Num(Get(p, "renewal_day")) <= 31.0))
    && (Get(p, "tags").JNull?
        || (Get(p, "tags").JList? && forall t :: t in Get(p, "tags").items ==> t.JStr?))
  }

  /** What `validate_account_payload` accepts, given the stored services. */
  predicate AcceptableAccount(p: Record, services: seq<Record>)
  {
    && !HasPasswordKey(p)
    && (forall f :: f in AccountRequired ==> f in p)
    && AccountFieldsOk(p, services)
  }

  /** The account checks after the required-key loop, in source order. */
  function AccountFieldChecks(p: Record, services: seq<Record>): (c: Check)
    requires AllHave(services, "id")
    requires forall f :: f in AccountRequired ==> f in p
    ensures c.Pass? <==> AccountFieldsOk(p, services)
  {
    var email := p["email"];
    var status := p["status"];
    var renewal := Get(p, "renewal_day");
    var tags := Get(p, "tags");
    if !(email.JStr? || email.JList?) then Fail(TypeFault)  // not iterable
    else if !HasAt(email) then Fail(BadEmail)
    else if status.JList? then Fail(TypeFault)              // unhashable
    else if !(status.JStr? && status.s in Statuses) then Fail(BadStatus)
    else if !AnyWith(services, "id", p["service_id"]) then Fail(UnknownService)
    else if !NonNegativeNumber(p["monthly_cost_usd"]) then Fail(BadNumber("monthly_cost_usd"))
    else if !renewal.JNull? && !(PyInt(renewal) && 1.0 <= Num(renewal) <= 31.0) then
      Fail(BadRenewalDay)
    else if !tags.JNull? && !(tags.JList? && forall t :: t in tags.items ==> t.JStr?) then
      Fail(BadTags)
    else Pass
  }

  /** `validate_account_payload(payload, services)`. */
  function ValidateAccount(p: Record, services: seq<Record>): (c: Check)
    requires AllHave(services, "id")
    ensures c.Pass? <==> AcceptableAccount(p, services)
    ensures HasPasswordKey(p) ==> c == Fail(PasswordField)
    ensures !HasPasswordKey(p) && FirstMissing(p, AccountRequired).Some? ==>
              c == Fail(MissingField(FirstMissing(p, AccountRequired).value))
  {
    if HasPasswordKey(p) then Fail(PasswordField)
    else match FirstMissing(p, AccountRequired)
      case Some(f) => Fail(MissingField(f))
      case None => AccountFieldChecks(p, services)
  }

  // -------------------------------------------------------------- budgets

  /** What `validate_budget_payload` accepts, given the stored accounts. */
  predicate AcceptableBudget(p: Record, accounts: seq<Record>)
  {
    && !HasPasswordKey(p)
    && (forall f :: f in BudgetRequired ==> f in p)
    && AnyWith(accounts, "id", p["account_id"])
    && (forall f :: f in BudgetNumbers ==> NonNegativeNumber(p[f]))
    && Num(p["alert_threshold_percent"]) <= 100.0
  }

  /** `validate_budget_payload(payload, accounts)`. */
  function ValidateBudget(p: Record, accounts: seq<Record>): (c: Check)
    requires AllHave(accounts, "id")
    ensures c.Pass? <==> AcceptableBudget(p, accounts)
    ensures HasPasswordKey(p) ==> c == Fail(PasswordField)
    ensures !HasPasswordKey(p) && FirstMissing(p, BudgetRequired).Some? ==>
              c == Fail(MissingField(FirstMissing(p, BudgetRequired).value))
  {
    if HasPasswordKey(p) then Fail(PasswordField)
    else match FirstMissing(p, BudgetRequired)
      case Some(f) => Fail(MissingField(f))
      case None =>
        assert forall f :: f in BudgetNumbers ==> f in BudgetRequired;
        if !AnyWith(accounts, "id", p["account_id"]) then Fail(UnknownAccount)
        else match NumberCheck(p, BudgetNumbers)
          case Fail(why) => Fail(why)
          case Pass =>
            assert "alert_threshold_percent" in BudgetNumbers;
            if Num(p["alert_threshold_percent"]) > 100.0 then Fail(ThresholdAbove100)
            else Pass
  }

  // ------------------------------------------------------- recommendations

  /** What `validate_recommendation_payload` accepts. */
  predicate AcceptableRecommendation(p: Record, accounts: seq<Record>, services: seq<Record>)
  {
    && !HasPasswordKey(p)
    && (forall f :: f in RecommendationRequired ==> f in p)
    && (Truthy(Get(p, "account_id")) || Truthy(Get(p, "service_id")))
    && (Truthy(Get(p, "account_id")) ==> AnyWith(accounts, "id", Get(p, "account_id")))
    && (Truthy(Get(p, "service_id")) ==> AnyWith(services, "id", Get(p, "service_id")))
    && PyInt(p["priority"]) && 1.0 <= Num(p["priority"]) <= 5.0
  }

  /** `validate_recommendation_payload(payload, accounts, services)`. */
  function ValidateRecommendation(p: Record, accounts: seq<Record>, services: seq<Record>): (c: Check)
    requires AllHave(accounts, "id") && AllHave(services, "id")
    ensures c.Pass? <==> AcceptableRecommendation(p, accounts, services)
    ensures HasPasswordKey(p) ==> c == Fail(PasswordField)
    ensures !HasPasswordKey(p) && FirstMissing(p, RecommendationRequired).Some? ==>
              c == Fail(MissingField(FirstMissing(p, RecommendationRequired).value))
    ensures !HasPasswordKey(p) && FirstMissing(p, RecommendationRequired).None?
            && !Truthy(Get(p, "account_id")) && !Truthy(Get(p, "service_id")) ==>
              c == Fail(NoTarget)
  {
    if HasPasswordKey(p) then Fail(PasswordField)
    else match FirstMissing(p, RecommendationRequired)
      case Some(f) => Fail(MissingField(f))
      case None =>
        var accountId := Get(p, "account_id");
        var serviceId := Get(p, "service_id");
        var priority := p["priority"];
        if !Truthy(accountId) && !Truthy(serviceId) then Fail(NoTarget)
        else if Truthy(accountId) && !AnyWith(accounts, "id", accountId) then Fail(UnknownAccount)
        else if Truthy(serviceId) && !AnyWith(services, "id", serviceId) then Fail(UnknownService)
        else if !(PyInt(priority) && 1.0 <= Num(priority) <= 5.0) then Fail(BadPriority)
        else Pass
  }

  // ------------------------------------------------- the password key test

  /** `c` is the lower-case ASCII letter `l` or its capital. */
  predicate SameLetter(c: char, l: char)
  {
    c == l || c as int == l as int - 32
  }

  /** "password" is spelled at position `i` of `k`, each letter in either case. */
  predicate PasswordAt(k: string, i: nat)
  {
    i + 8 <= |k| && forall j :: 0 <= j < 8 ==> SameLetter(k[i + j], "password"[j])
  }

  /** Lower-casing gives a lower-case letter exactly from it or its capital. */
  lemma LowerCharIs(c: char, l: char)
    requires 'a' <= l <= 'z'
    ensures LowerChar(c) == l <==> SameLetter(c, l)
  {
  }

  /** Lower-cased text holds "password" at `i` exactly when the text spells
      it there in any mix of cases. */
  lemma OccursAtLower(k: string, i: nat)
    ensures OccursAt(Lower(k), "password", i) <==> PasswordAt(k, i)
  {
    var word := "password";
    assert forall j :: 0 <= j < 8 ==> 'a' <= word[j] <= 'z';
    if i + 8 <= |k| {
      var low := Lower(k);
      forall j | 0 <= j < 8 ensures low[i + j] == word[j] <==> SameLetter(k[i + j], word[j]) {
        LowerCharIs(k[i + j], word[j]);
      }
      if PasswordAt(k, i) {
        assert low[i..i + 8] == word;
      }
      if OccursAt(low, word, i) {
        forall j | 0 <= j < 8 ensures SameLetter(k[i + j], word[j]) {
          assert low[i..i + 8][j] == low[i + j];
        }
      }
    }
  }

  /** `_reject_password_fields` refuses exactly the payloads with a key that
      spells "password" somewhere in any mix of cases. */
  lemma PasswordKeyExactly(p: Record)
    ensures HasPasswordKey(p) <==> exists k, i: nat :: k in p && PasswordAt(k, i)
  {
    if HasPasswordKey(p) {
      var k :| k in p && Contains(Lower(k), "password");
      var i: nat :| i <= |Lower(k)| && OccursAt(Lower(k), "password", i);
      OccursAtLower(k, i);
    }
    if exists k, i: nat :: k in p && PasswordAt(k, i) {
      var k, i: nat :| k in p && PasswordAt(k, i);
      OccursAtLower(k, i);
      assert Contains(Lower(k), "password");
    }
  }

  // ------------------------------------------------------------ examples

  /** The forbidden-key test ignores case and looks inside longer names. */
  lemma PasswordKeyIgnoresCase()
    ensures HasPasswordKey(map["Password_Hint" := JStr("secret")])
    ensures HasPasswordKey(map["db_PASSWORD" := JNull])
    ensures !HasPasswordKey(map["pass_word" := JStr("x")])
  {
    assert OccursAt(Lower("Password_Hint"), "password", 0);
    assert OccursAt(Lower("db_PASSWORD"), "password", 3);
    var q := map["pass_word" := JStr("x")];
    forall k | k in q ensures !Contains(Lower(k), "password")
    {
      assert k == "pass_word";
      var low := Lower(k);
      assert low == "pass_word";
      forall n: nat | n <= |low| ensures !OccursAt(low, "password", n)
      {
        if n == 0 {
          assert low[4] != "password"[4];
        } else if n == 1 {
          assert low[1] != "password"[0];
        }
      }
    }
  }
}
