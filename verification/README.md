# ai_watch core, modelled in Dafny

ai_watch is a small Flask application that tracks AI subscriptions. It has
four kinds of record: services, accounts, usage budgets and recommendations.
They are kept in one JSON file. This project models the part that decides
what may be stored and what is reported:

- the payload validators of `ai_watch/validation.py`, with their allowed
  categories and statuses;
- `FileDatabase` in `ai_watch/storage.py`: reading the stored document, the
  list/get/create/update/delete operations for each collection, and
  `dashboard_summary`;
- the two form helpers `_split_tags` and `_parse_optional_int` of
  `ai_watch/routes.py`.

A stored document is a `Store.Document` value. Every operation is a pure
function from the document it read to either the document it would write or
the reason it refused (`Results.Failure`). Each `Failure` constructor stands
for one `ValidationError` message. `TypeFault` stands for a Python
`TypeError`, for example a list used as a dict key. JSON values are
`Json.JValue`. Python's `==` on them is `Json.PyEq`, under which
`True == 1 == 1.0` as in Python.

Modules, one per concern:

| file | module | models |
|---|---|---|
| results.dfy | Results | `Option`, `Result`, `Check` and the refusal reasons |
| json.dfy | Json | JSON values, Python equality, truthiness, and ASCII lower-casing, which gives the same answer as Python's `str.lower` when looking for the substring "password" |
| records.dfy | Records | the comprehensions, `any(...)`, `next(...)` and dict-building idioms over record lists |
| validation.dfy | Validation | `validate_*_payload` and the allowed-value sets |
| store.dfy | Store | `_read`, the stored file, and every CRUD and list operation |
| ordering.dfy | Ordering | the stable `sorted(..., key=priority)` of `list_recommendations` |
| dashboard.dfy | Dashboard | `dashboard_summary` |
| integrity.dfy | Integrity | the invariants every write keeps |
| lifecycle.dfy | Lifecycle | create/update/delete followed by get |
| forms.dfy | Forms | `str.strip`, `str.split(",")`, `int()`, `_split_tags`, `_parse_optional_int` |
| scenarios.dfy | Scenarios | the concrete situations the repository's tests check |

## Model

| member | source | states |
|---|---|---|
| Json.PyEqExamples | ai_watch/validation.py:51 | Python equality as the lookups use it: `True == 1 == 1.0`, lists compare elementwise, `"1" != 1` and `None != False` |
| Json.PyEqNumbers | ai_watch/storage.py:174 | on two numbers Python `==` is equality of their numeric values, whether int, float or bool |
| Json.NormIsStr | ai_watch/storage.py:65 | a JSON value equals the string id in Python's sense exactly when it is that same string |
| Validation.PasswordKeyExactly | ai_watch/validation.py:9-12 | a payload is refused for a password key exactly when some key spells "password" at some position, each letter in either case |
| Validation.OccursAtLower | ai_watch/validation.py:11 | the lower-cased key holds "password" at a position exactly when the key spells it there in any mix of cases |
| Validation.PasswordKeyIgnoresCase | ai_watch/validation.py:9-12 | a key is forbidden when it contains "password" in any case ("Password_Hint", "db_PASSWORD"), and "pass_word" is allowed |
| Validation.FirstMissing | ai_watch/validation.py:15-17 | reports nothing exactly when every required field is present; otherwise it names the first missing field in list order, with every earlier field present |
| Validation.UrlCheck | ai_watch/validation.py:31-34 | passes exactly when each url field is absent, null or a string, and a failure names the first url field, in list order, that holds something else |
| Validation.NumberCheck | ai_watch/validation.py:77-80 | passes exactly when each listed field is an int or float not below zero, and a failure names the first listed field, in list order, that is not one |
| Validation.ValidateService | ai_watch/validation.py:20-34 | passes exactly on payloads with no password key, all five required fields, an allowed category and string-or-null urls; a password key is reported first, then the first missing field |
| Validation.AccountFieldChecks | ai_watch/validation.py:43-65 | once the required fields are present, passes exactly when the email contains "@", the status is allowed, the service exists, the cost is a non-negative number, renewal_day is null or an int in 1..31, and tags is null or a list of strings |
| Validation.ValidateAccount | ai_watch/validation.py:37-65 | passes exactly on acceptable account payloads for the given services; a password key is reported first, then the first missing field |
| Validation.ValidateBudget | ai_watch/validation.py:68-83 | passes exactly when the fields are present, the account exists, the three amounts are non-negative numbers and the threshold is at most 100; password and missing-field failures come first |
| Validation.ValidateRecommendation | ai_watch/validation.py:86-103 | passes exactly when the fields are present, a truthy account_id or service_id is given, each truthy one names an existing record, and priority is an int in 1..5; a payload naming neither target fails with NoTarget |
| Store.Load | ai_watch/storage.py:30-38 | reading succeeds exactly when the file has "services" and "accounts", and otherwise fails with the invalid-format error |
| Store.Save | ai_watch/storage.py:40-52 | the written file has the document's extra keys and all four collection keys |
| Store.LoadSave | ai_watch/storage.py:30-52 | writing a document and reading it back gives the same document |
| Store.SaveLoad | ai_watch/storage.py:30-38 | reading then writing keeps every key of the file, and adds empty "usage_budgets" and "recommendations" lists when they were missing |
| Store.LoadDefault | ai_watch/storage.py:16 | a freshly created file reads back as four empty collections |
| Store.FindById | ai_watch/storage.py:63-65 | the record found is the first one in the list that carries the id; nothing is found exactly when no record has the id |
| Store.GetService | ai_watch/storage.py:63-65 | `get_service` returns the first stored service with the id, and nothing exactly when no service has it |
| Store.ListServices | ai_watch/storage.py:57-61 | returns exactly the services of the requested category in stored order, as one filter over the stored list, or all services unchanged when no category is given |
| Store.CreateService | ai_watch/storage.py:67-74 | succeeds exactly on an acceptable payload with a new id and then appends the payload; otherwise fails with the validator's reason or AlreadyExists |
| Store.UpdateService | ai_watch/storage.py:76-86 | succeeds exactly when the payload is acceptable, its id equals the path id and a service has it; the first such service is merged with the payload in place, and IdMismatch and NotFound are reported otherwise |
| Store.DeleteService | ai_watch/storage.py:88-96 | refuses while an account uses the service and reports NotFound when no service has the id; otherwise the services left are the stored ones without that id, in stored order, and nothing else changes |
| Store.ListAccounts | ai_watch/storage.py:98-108 | returns exactly the accounts that pass the status filter and whose service has the requested category, in stored order, as one filter over the stored accounts; a list-valued id in the dict lookups is a TypeError |
| Store.ListedByFilters | ai_watch/storage.py:102-107 | the status filter followed by the category filter keeps the same accounts, in the same order, as the single combined filter |
| Store.GetAccount | ai_watch/storage.py:110-112 | `get_account` returns the first stored account with the id, and nothing exactly when no account has it |
| Store.CreateAccount | ai_watch/storage.py:114-121 | succeeds exactly on an acceptable payload for the stored services with a new id and then appends it; otherwise fails with the validator's reason or AlreadyExists |
| Store.UpdateAccount | ai_watch/storage.py:123-133 | succeeds exactly on an acceptable payload whose id equals the path id of an existing account, merging it into the first account with that id |
| Store.DeleteAccount | ai_watch/storage.py:135-145 | succeeds exactly when an account has the id; it removes that account, its budgets and the recommendations whose account_id is the id, keeps every other record in stored order, and keeps the services |
| Store.ListBudgets | ai_watch/storage.py:147-148 | `list_budgets` returns the stored budgets unfiltered, in stored order |
| Store.GetBudget | ai_watch/storage.py:150-152 | `get_budget` returns the first stored budget with the id, and nothing exactly when no budget has it |
| Store.CreateBudget | ai_watch/storage.py:154-163 | succeeds exactly on an acceptable payload with a new id for an account with no budget yet; AlreadyExists is checked before AccountHasBudget |
| Store.UpdateBudget | ai_watch/storage.py:165-178 | succeeds exactly on an acceptable payload with the path id of an existing budget when no other budget owns its account; the failures come in source order |
| Store.DeleteBudget | ai_watch/storage.py:180-186 | succeeds exactly when a budget has the id; the budgets left are the stored ones without that id, in stored order, and nothing else changes |
| Store.ListRecommendations | ai_watch/storage.py:188-189 | returns a permutation of the stored recommendations, sorted by priority, with each priority's records in stored order |
| Store.GetRecommendation | ai_watch/storage.py:191-193 | `get_recommendation` returns the first stored recommendation with the id, and nothing exactly when none has it |
| Store.CreateRecommendation | ai_watch/storage.py:195-202 | succeeds exactly on an acceptable payload with a new id and then appends it |
| Store.UpdateRecommendation | ai_watch/storage.py:204-216 | succeeds exactly on an acceptable payload with the path id of an existing recommendation, merged into the first one with that id |
| Store.DeleteRecommendation | ai_watch/storage.py:218-226 | succeeds exactly when a recommendation has the id; the recommendations left are the stored ones without that id, in stored order, and nothing else changes |
| Records.Where | ai_watch/storage.py:93 | a list comprehension keeps exactly the records that pass its test and is never longer than its input |
| Records.WhereConcat | ai_watch/storage.py:103-107 | filtering a concatenation is the concatenation of the filtered parts, so survivors keep their order |
| Records.WhereKeepsAll | ai_watch/storage.py:92-95 | a filter keeps the list's length exactly when every record passes, so the "not found" test is right |
| Records.WhereWhere | ai_watch/storage.py:102-107 | filtering by status and then by category is one filter by both conditions |
| Records.WhereEquiv | ai_watch/storage.py:102-107 | two tests that agree on every record of a list keep the same records of it, in the same order |
| Records.FirstIndex | ai_watch/storage.py:81 | `next(...)` finds the first record with the key value, and finds nothing exactly when no record has it |
| Records.LastIndex | ai_watch/storage.py:230-233 | a dict comprehension keeps the last record with each key value, and has no entry exactly when no record has it |
| Records.DistinctFirstIsLast | ai_watch/storage.py:230-233 | when keys are unique, the dict lookup and the first-match lookup find the same record |
| Records.DistinctWhere | ai_watch/storage.py:183 | removing records keeps keys unique |
| Records.DistinctAppend | ai_watch/storage.py:117-119 | appending a record whose key is new keeps keys unique |
| Records.DistinctReplace | ai_watch/storage.py:131 | replacing a record by one with an equal key keeps keys unique |
| Records.FirstIndexAppend | ai_watch/storage.py:72 | a record appended under a new key value is the first one with that value |
| Records.FirstIndexReplace | ai_watch/storage.py:84 | a record merged in place with its own id stays the first one with that id |
| Ordering.Insert | ai_watch/storage.py:189 | inserting one record adds exactly that record to the multiset of records |
| Ordering.SortByPriority | ai_watch/storage.py:189 | the sort returns a permutation of its input that is ordered by priority |
| Ordering.InsertSorted | ai_watch/storage.py:189 | inserting into a list ordered by priority keeps it ordered |
| Ordering.InsertClass | ai_watch/storage.py:189 | insertion puts the new record in front of the records of equal priority and leaves the other priorities' order alone |
| Ordering.SortIsStable | ai_watch/storage.py:189 | the records of each priority appear in the sorted list in their stored order |
| Dashboard.ActiveAccounts | ai_watch/storage.py:234 | the active accounts are exactly the stored accounts whose status is "active", in stored order |
| Dashboard.CategoryOf | ai_watch/storage.py:230-239 | an account's category is always one of the four allowed ones; it is the category of the last stored service with the account's service_id, and "general" when there is no such service |
| Dashboard.BudgetOf | ai_watch/storage.py:231-241 | the budget found for an account is the last stored budget for that account, and none is found exactly when the account has none |
| Dashboard.AlertFor | ai_watch/storage.py:242-251 | an account gets an alert exactly when its budget is positive and the percent used reaches the threshold; the alert carries the account's id and email, and its percent used is the spend divided by the budget, times 100, which is at least the threshold |
| Dashboard.DashboardSummary | ai_watch/storage.py:228-257 | fails only on a list-valued id used as a dict key; otherwise the total is the cost of the active accounts and equals the sum of the four category entries, each category's entry is the cost of its active accounts, and the alerts are those of the active accounts in order |
| Dashboard.Accumulate | ai_watch/storage.py:238-251 | the loop over active accounts builds exactly the per-category totals and the ordered alerts |
| Dashboard.AddCost | ai_watch/storage.py:239-240 | one step adds the account's cost to its own category and leaves the other categories alone |
| Dashboard.AddAlert | ai_watch/storage.py:241-251 | one step appends the account's alert if it has one |
| Dashboard.TotalIsSumOfBreakdown | ai_watch/storage.py:235-240 | the reported total equals the sum of the four category entries |
| Dashboard.AlertsExactly | ai_watch/storage.py:238-251 | an alert is reported exactly when some active account raises it, and there are never more alerts than accounts |
| Dashboard.AlertsInAccountOrder | ai_watch/storage.py:238-251 | alerts follow account order: the alerts of two runs of accounts are the alerts of each run, concatenated |
| Integrity.DefaultValid | ai_watch/storage.py:16 | the fresh document satisfies every store invariant |
| Integrity.CreateServiceKeepsValid | ai_watch/storage.py:67-74 | creating a service keeps ids unique, one budget per account, and all references resolving |
| Integrity.UpdateServiceKeepsValid | ai_watch/storage.py:76-86 | updating a service keeps every store invariant |
| Integrity.DeleteServiceKeepsValid | ai_watch/storage.py:88-96 | deleting a service keeps every store invariant, because no account may still use it |
| Integrity.CreateAccountKeepsValid | ai_watch/storage.py:114-121 | creating an account keeps every store invariant |
| Integrity.UpdateAccountKeepsValid | ai_watch/storage.py:123-133 | updating an account keeps every store invariant |
| Integrity.DeleteAccountKeepsValid | ai_watch/storage.py:135-145 | deleting an account keeps every store invariant, because its budgets and recommendations go with it |
| Integrity.CreateBudgetKeepsValid | ai_watch/storage.py:154-163 | creating a budget keeps every store invariant, including one budget per account |
| Integrity.UpdateBudgetKeepsOnePerAccount | ai_watch/storage.py:173-175 | after an update no two budgets share an account |
| Integrity.UpdateBudgetKeepsValid | ai_watch/storage.py:165-178 | updating a budget keeps every store invariant |
| Integrity.DeleteBudgetKeepsValid | ai_watch/storage.py:180-186 | deleting a budget keeps every store invariant |
| Integrity.CreateRecommendationKeepsValid | ai_watch/storage.py:195-202 | creating a recommendation keeps every store invariant |
| Integrity.UpdateRecommendationKeepsValid | ai_watch/storage.py:204-216 | updating a recommendation keeps every store invariant |
| Integrity.DeleteRecommendationKeepsValid | ai_watch/storage.py:218-226 | deleting a recommendation keeps every store invariant |
| Integrity.ValidLookupsAgree | ai_watch/storage.py:229-241 | in a store that keeps its invariants, the dashboard's dict lookups (last match) find the same service and budget as the `next(...)` lookups (first match) |
| Lifecycle.CreateThenGetService | ai_watch/storage.py:63-74 | after a created service, `get_service` with its id returns the payload |
| Lifecycle.UpdateThenGetService | ai_watch/storage.py:63-86 | after an update, `get_service` returns the merged record: payload keys take the payload's values and every other key keeps its old value |
| Lifecycle.DeleteThenGetService | ai_watch/storage.py:63-96 | after a delete, `get_service` finds nothing |
| Lifecycle.DeleteServiceCanOrphanRecommendation | ai_watch/storage.py:88-96 | a valid store exists in which deleting a service succeeds while a recommendation still names it |
| Lifecycle.CreateThenGetAccount | ai_watch/storage.py:110-121 | after a created account, `get_account` returns the payload |
| Lifecycle.UpdateThenGetAccount | ai_watch/storage.py:110-133 | after an update, `get_account` returns the merged record, payload keys winning |
| Lifecycle.DeleteThenGetAccount | ai_watch/storage.py:110-145 | after a delete, `get_account` finds nothing and no budget is left for the account |
| Lifecycle.CreateThenGetBudget | ai_watch/storage.py:150-163 | after a created budget, `get_budget` returns the payload |
| Lifecycle.UpdateThenGetBudget | ai_watch/storage.py:150-178 | after an update, `get_budget` returns the merged record, payload keys winning |
| Lifecycle.DeleteThenGetBudget | ai_watch/storage.py:150-186 | after a delete, `get_budget` finds nothing |
| Lifecycle.CreateThenGetRecommendation | ai_watch/storage.py:191-202 | after a created recommendation, `get_recommendation` returns the payload |
| Lifecycle.UpdateThenGetRecommendation | ai_watch/storage.py:191-216 | after an update, `get_recommendation` returns the merged record, payload keys winning |
| Lifecycle.DeleteThenGetRecommendation | ai_watch/storage.py:191-226 | after a delete, `get_recommendation` finds nothing |
| Forms.Strip | ai_watch/routes.py:7 | `str.strip()` returns the text between the leading and trailing whitespace, with no whitespace at either end, and is empty exactly when the text is all whitespace |
| Forms.StripPadded | ai_watch/routes.py:11 | stripping whitespace added around a trimmed, non-empty text gives the text back |
| Forms.StripTrimmed | ai_watch/routes.py:7 | stripping a trimmed text changes nothing |
| Forms.Split | ai_watch/routes.py:7 | `split(",")` returns at least one piece, and no piece contains a comma |
| Forms.JoinSplit | ai_watch/routes.py:7 | joining the pieces of a split with "," gives the text back |
| Forms.SplitJoin | ai_watch/routes.py:7 | splitting comma-free pieces joined with "," gives the pieces back |
| Forms.Clean | ai_watch/routes.py:7 | the kept tags are non-empty and stripped, and there are no more of them than pieces |
| Forms.CleanOne | ai_watch/routes.py:7 | one piece gives its stripped text as a tag, or nothing when that is empty |
| Forms.CleanConcat | ai_watch/routes.py:7 | the tags of two runs of pieces are the tags of each run, concatenated, so tags keep the order of the pieces |
| Forms.SplitTags | ai_watch/routes.py:6-7 | every tag is non-empty, has no surrounding whitespace and contains no comma |
| Forms.SplitTagsComma | ai_watch/routes.py:6-7 | the tags of text with a comma are the tags before the first comma followed by the tags after it |
| Forms.SplitTagsNoComma | ai_watch/routes.py:6-7 | text without a comma gives its stripped self as the one tag, or no tag when it is blank |
| Forms.CleanKeepsCleanTags | ai_watch/routes.py:7 | tags that are already non-empty and stripped pass through unchanged |
| Forms.SplitTagsJoin | ai_watch/routes.py:6-7 | comma-free, stripped, non-empty tags joined with "," are split back into the same tags |
| Forms.SplitTagsExample | tests/test_api.py:187 | "coding, deep_repo" gives the tags "coding" and "deep_repo" |
| Forms.SplitTagsEmpty | tests/test_api.py:204 | an empty tags field gives no tags |
| Forms.SplitTagsDropsBlanks | ai_watch/routes.py:7 | blank pieces are dropped: "a,, ,b" gives "a" and "b" |
| Forms.ParseInt | ai_watch/routes.py:15 | `int()` accepts text exactly when, after an optional sign, it is groups of digits joined by single underscores with at most 4300 digits; the value is the sign times the base-10 value of the digits; anything accepted is non-empty and has no whitespace |
| Forms.DigitRunIsLiteral | ai_watch/routes.py:15 | the character-by-character check of a digit run accepts exactly the grammar of digit groups joined by single underscores |
| Forms.DigitsValueUnscored | ai_watch/routes.py:15 | the value accumulated while skipping underscores is the base-10 value of the digits alone |
| Forms.DigitCountUnscored | ai_watch/routes.py:15 | the digits counted against the limit are the digits left once the underscores are dropped |
| Forms.DigitLimit | ai_watch/routes.py:15 | a plain run of digits is accepted exactly when it has at most 4300 digits, leading zeros included |
| Forms.TooManyDigits | ai_watch/routes.py:15-17 | 4301 ones are refused |
| Forms.ParseOptionalInt | ai_watch/routes.py:10-17 | blank text gives None, and only blank text does; non-blank text fails with NotAnInteger exactly when `int()` rejects its stripped form; otherwise the result is that integer |
| Forms.ParseIntDecimal | ai_watch/routes.py:15 | `int()` reads back the decimal spelling of every integer of at most 4300 digits, and refuses every longer one |
| Forms.ParseOptionalIntDecimal | ai_watch/routes.py:10-17 | an integer written in decimal with any whitespace around it parses back to itself when it has at most 4300 digits, and fails with NotAnInteger otherwise |
| Forms.ParseOptionalIntNumber | tests/test_api.py:184 | "8" gives 8 |
| Forms.ParseOptionalIntPadded | ai_watch/routes.py:11-15 | " 12 " gives 12 |
| Forms.ParseOptionalIntBlank | tests/test_api.py:201 | "" and blank text give None |
| Forms.ParseOptionalIntWord | ai_watch/routes.py:14-17 | "eight" is not an integer and is rejected |
| Forms.ParseIntUnderscores | ai_watch/routes.py:15 | "1_000" is 1000, "-7" is -7, and "_1" and "1__0" are rejected |
| Scenarios.OnlyActiveCounted | tests/test_storage.py:99-104 | only the active account passes the dashboard's status filter |
| Scenarios.DashboardCountsActiveOnly | tests/test_storage.py:99-108 | with an active account at 20.0 and a paused one at 50.0, the total and the "general" entry are 20.0 |
| Scenarios.DashboardUsesServiceCategory | ai_watch/storage.py:230-240 | an account whose service id is stored first under "general" and then under "coding" counts its 10.0 under "coding", and nothing under "general" |
| Scenarios.BudgetAlertRaised | tests/test_storage.py:133-145 | spending 28.0 of a 30.0 budget with an 80 percent threshold raises one alert, for acc_1 |
| Scenarios.BudgetAlertNotRaised | ai_watch/storage.py:242-244 | spending 20.0 of 30.0 stays under the 80 percent threshold, so there is no alert |
| Scenarios.RecommendationsListedByPriority | ai_watch/storage.py:188-189 | recommendations stored with priorities 3, 1, 2 are listed as 1, 2, 3 |

## Left out

- File I/O, the directory creation and the thread lock of `FileDatabase`. A read is a `StoredFile` parameter and a write is the returned `Document`; atomic replacement and fsync are not modelled.
- JSON parsing and a malformed file, including json.load failures, nested JSON objects as values, and NaN and Infinity. Values are null, bool, int, float, string or list. A top-level key of the file other than the four collections must also hold a list of records (`Store.StoredFile`), so a file whose extra top-level key holds a scalar or an object, which `_read` and `_write` would carry through, cannot be represented.
- Documents edited by hand so that `Store.Shaped` fails. The list operations `Store.ListServices`, `Store.ListAccounts` and `Store.ListRecommendations`, every create, update and delete operation, and the dashboard require `Store.Shaped`; `Store.ListBudgets` and the getters do not: each stored record has the keys and value types its validator demands. It holds of every document the store itself writes (`Integrity.DefaultValid` and the `*KeepsValid` lemmas), and the model says nothing about documents that break it. On some of those Python still succeeds: a service without "category" is counted under "general" by `dashboard_summary` and listed by `list_services()`; a recommendation with priority 1.5 is sorted by `list_recommendations`; an account without "email" and without an alert is counted by the dashboard. On others Python raises KeyError or TypeError.
- Store.FindById: the getters (`get_service`, `get_account`, `get_budget`, `get_recommendation`) do not require `Store.Shaped`. A record without an "id" before the match is skipped, where Python raises KeyError.
- `round(..., 2)` in `dashboard_summary`. Amounts and percentages are exact reals, because floating-point rounding is not modelled.
- Dashboard.DashboardSummary: reports exact sums instead of sums rounded to two decimals.
- Dashboard.AlertFor: compares the exact percentage with the threshold. The source first rounds it to two decimals, so a spend just below the threshold can alert there and not here.
- Validation order against the read. `create_service` and `update_service` validate before reading the file, the others after. In the model, reading (`Store.Load`) is a separate step from the operation on the loaded document. So when the file has an invalid format and the payload is also invalid, the model does not say which error is raised.
- The exact message texts. Each `ValidationError` message is one `Failure` constructor. Ids are not carried; the field name is carried by `MissingField`, `BadUrl` and `BadNumber`.
- `_read` raises `ValidationError("Invalid database format.")`, modelled as `InvalidFormat`.
- `get_config`, `replace_config`, `_parse_float`, the Flask routes and templates. They are outside the modelled core.
- Forms.ParseInt: accepts ASCII digits only; Python's `int()` also accepts other Unicode decimal digits. Whitespace is the set of characters for which Python's `str.isspace()` holds.
- Forms.ParseInt: the 4300-digit limit is the default of `sys.set_int_max_str_digits`, in force since Python 3.11 and in the security releases of 3.7 to 3.10 from September 2022. The limit can be changed, or switched off with 0, through that call, `PYTHONINTMAXSTRDIGITS` or `-X int_max_str_digits`; the model fixes it at the default. Older Pythons have no limit.
- Json.Lower: lower-cases ASCII letters only. Python's `str.lower` also lower-cases other letters, and can lengthen the text (`'İ'.lower()` has two characters). No non-ASCII character lower-cases to a letter of "password", so the password check answers the same.
- The recommendation's service_id is not part of `Integrity.Valid`. `delete_service` does not look at recommendations, so a recommendation can keep naming a deleted service, as `Lifecycle.DeleteServiceCanOrphanRecommendation` shows.
- Forms.SplitTagsJoin: states the round trip for tags joined with "," only; text separated by ", ", such as the "coding, deep_repo" posted in tests/test_api.py:187, gives the same tags because `strip` removes the space, as `Forms.SplitTagsExample` shows for that input.
