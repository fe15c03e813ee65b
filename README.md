# wifight voucher and session engine in Dafny

wifight is a captive-portal back end for TP-Link Omada controllers. A guest reaches
the portal page and gets internet access in one of three ways: by typing a prepaid
voucher code, through a free-access form, or through a social login. The back end
keeps four tables:

- plans, which give a duration, a data limit and a price;
- vouchers, each bound to one plan;
- guest sessions;
- Omada controllers.

When access is granted, the back end asks the controller to authorize the guest's
MAC address.

This project models the engine's core:

- the voucher life cycle: code generation with collision retry, validation with lazy
  expiry, redemption, the expiry sweep and statistics;
- the session table: create, terminate by id or by MAC, usage updates, the stale-session
  sweep, the active listing and statistics;
- plan update, deletion with its in-use guard, and the plan listing;
- controller create, read and update, with base64-encoded passwords;
- the Omada HTTP client: the login handshake, the CSRF header, error classification,
  guest authorization, test connection and logout;
- the JSON endpoints that sit on these (voucher generate, redeem and validate; session
  create and terminate; controller test connection; portal authenticate) and the
  retention cron job;
- the request validator, JWT encoding, the front end's role table and the portal
  page's voucher-code formatter.

The model is built in layers:

- **Store.** The MySQL database is one `Schema.Db` object. It holds one map per table,
  keyed by id, plus an auto-increment counter per table.
- **Model classes.** Each PHP model class is a Dafny class that holds the connection,
  as `new Voucher($db)` does in the source. Its methods modify exactly the table they
  write.
- **Methods and spec functions.** Each method is proved equal to a pure function of
  the old table (for example `ValidateOutcome`, `TerminateById`, `ExpireSweep`). The
  lemmas beside those functions state what the source promises.
- **Endpoints.** Each endpoint is a pure guard ladder plus a method. When the guard
  answers, the store is untouched. Otherwise the outcome is tied to the model's
  functions.

Time is whole seconds and comes in as a `now` parameter. The outside world comes in as
parameters:

- `rand()` is a finite stream of draws;
- `md5`, HMAC-SHA256, `htmlspecialchars(strip_tags())` and the social-profile fetch
  are function parameters;
- the network is an oracle `nat -> CurlResult`, indexed by request number;
- whether a write statement (INSERT, UPDATE, DELETE) raises is a boolean parameter of
  the method that runs it, one flag per statement.

The connection runs PDO in exception mode (`PDO::ERRMODE_EXCEPTION`), so a write
that fails does not return false: it raises. A write is modelled as `Exec`, either
done or raised, and a failed statement leaves its table as it was. An endpoint that
does not catch the exception dies with HTTP 500 and no JSON body, modelled as the
response `Aborted`; rows written earlier in the same request stay. The `false`
branches after `execute()` in the models are never taken, and neither are the 500
answers the endpoints give for them.

Some behaviours of the code, all modelled as written:

- `Validator::macAddress` uses the regex as written, `^([0-9A-Fa-f]{2}[:-]){5}` with
  the `x` flag missing. It accepts text like `AA:      BB` and rejects an ordinary
  `AA:BB:CC:DD:EE:FF`. The endpoints use it that way too.
- The portal's pseudo-MAC is built from upper-case md5 hex, so that same validator
  rejects it.
- `Session::terminate` updates the row by id whatever its status, so terminating a
  terminated session again overwrites its end time and duration. Only `terminateByMac`
  restricts itself to active rows.
- `OmadaAPI::login` returns `false` when the controller answers without a token, and
  the callers carry on: a test connection then still reports success.

## Model

| member | source | states |
|---|---|---|
| Common.MinutesBetween | backend/models/session.php:107-118 | `TIMESTAMPDIFF(MINUTE, …)` is the whole number of minutes between the two instants, truncated toward zero in both directions |
| Php.OrElse | backend/models/voucher_model.php:75-75 | `?:` on an optional string: a present, truthy value wins, otherwise the fallback (the batch name over the batch id here, and the site argument over the configured site in the Omada client) |
| Common.Chars | backend/models/controller.php:72-74 | bytes read back as a PHP string keep their length and each byte's value |
| Validator.Required | backend/utils/validator.php:9-12 | `!empty($value)`: null, false, 0, "", "0", the empty list and the empty string-keyed array are refused; a non-empty array and any object (even `{}`) are accepted |
| Validator.VoucherCodeAccepts | backend/utils/validator.php:29-33 | the voucher pattern accepts exactly `XXXX-XXXX-XXXX` over A-Z and 0-9, plus that form followed by one newline (PCRE `$`) |
| Validator.MacMatchesShape | backend/utils/validator.php:19-22 | the MAC pattern as written matches exactly: two hex digits, a colon or dash, six spaces, two hex digits |
| Validator.MacAddressAccepts | backend/utils/validator.php:19-22 | the MAC check accepts exactly that 11-character shape, with or without one trailing newline |
| Validator.StandardMacRejected | backend/utils/validator.php:19-22 | no 17-character colon-separated MAC passes the check as written |
| Validator.SpacedMacAccepted | backend/utils/validator.php:19-22 | concrete witnesses: `AA:      BB` passes, `AA:BB:CC:DD:EE:FF` does not |
| AuthRoles.HasRole | frontend/js/auth.js:105-107 | only a signed-in user can have a role |
| AuthRoles.HasRoleIff | frontend/js/auth.js:105-107 | `hasRole` holds exactly when the current user exists and carries that role |
| AuthRoles.HasPermission | frontend/js/auth.js:110-122 | nobody signed in has no permission; the check throws exactly when the role is named like a member of `Object.prototype` |
| AuthRoles.AdminHasAll | frontend/js/auth.js:113-121 | `admin` holds every permission through the `all` entry |
| AuthRoles.RolePermissions | frontend/js/auth.js:113-121 | manager, staff and customer hold exactly the permissions listed for them |
| AuthRoles.UnknownRoleHasNone | frontend/js/auth.js:120-121 | a role missing from the table holds no permission, except that a role such as `constructor`, `toString` or `__proto__` makes the check throw |
| Base64.RoundTrip | backend/models/controller.php:72-74 | decoding what `base64_encode` produced gives back the original bytes, for every byte string |
| Base64.ToUrlAlphabet | backend/utils/jwt.php:31-34 | the URL alphabet swap turns `+` into `-` and `/` into `_` and keeps every other character |
| Base64.UrlEncodeIsUnpadded | backend/utils/jwt.php:31-34 | `rtrim(strtr(base64_encode(…)), '=')` is the unpadded encoding |
| Base64.UrlEncodeShape | backend/utils/jwt.php:31-34 | base64url text has no `+`, `/` or `=` and has length ⌈4n/3⌉ |
| Jwt.Encode | backend/utils/jwt.php:14-29 | an algorithm other than HS256 is refused; otherwise the token begins with the fixed header segment |
| Jwt.TokenShape | backend/utils/jwt.php:19-28 | an HS256 token is `header.payload.signature` with exactly two dots, and the signature is the HMAC of the first two segments |
| PortalForm.AsciiUpper | portal/js/portal.js:91-103 | `toUpperCase` on ASCII text maps a-z to A-Z and leaves other characters alone |
| PortalForm.Normalize | portal/js/portal.js:91-103 | with ASCII upper-casing, the normalized input contains only A-Z and 0-9 and is no longer than the typed text |
| PortalForm.FormatShape | portal/js/portal.js:91-103 | the formatted field is at most 14 characters, with dashes only at positions 4 and 9 |
| PortalForm.FormatValidIff | portal/js/portal.js:91-103 | the formatted field passes the page's check exactly when the typed text holds at least 12 alphanumerics |
| PortalForm.NormalizeGrouped | portal/js/portal.js:91-103 | regrouping alphanumerics into dashed groups and normalizing again gives the first 12 back |
| PortalForm.FormatIdempotent | portal/js/portal.js:91-103 | formatting an already formatted field changes nothing |
| PortalForm.AgreesWithBackend | portal/js/portal.js:175-178 | the page's format check agrees with `Validator::voucherCode` on every code that does not end in a newline |
| PortalForm.Submit | portal/js/portal.js:105-141 | a malformed code shows the format error and sends nothing; a code is redeemed only when validation answered success; a failed fetch shows the connection error |
| PortalForm.RejectionMessage | portal/js/portal.js:132-137 | a refused code always shows a non-empty message: the server's, or the fallback text when the server gives none |
| VoucherModel.AlphabetMembers | backend/models/voucher_model.php:81-81 | the code alphabet has exactly 32 characters, so every draw from 0 to 31 picks one of them |
| VoucherModel.CodePrefixAt | backend/models/voucher_model.php:84-89 | each built character is the alphabet letter of its draw, with dashes at positions 4 and 9 |
| VoucherModel.RenderWellFormed | backend/models/voucher_model.php:80-89 | every generated code is well formed and passes `Validator::voucherCode` |
| VoucherModel.WellFormedIsValid | backend/models/voucher_model.php:81-89 | a well-formed code avoids the ambiguous characters and has the validator's shape |
| VoucherModel.FirstFree | backend/models/voucher_model.php:80-102 | the code returned is well formed and not yet in the table; draws are consumed from the front; no code is returned only when fewer than 12 draws remain |
| VoucherModel.Voucher.GenerateCode | backend/models/voucher_model.php:80-102 | the collision-retry loop returns exactly the first free candidate |
| VoucherModel.FindCode | backend/models/voucher_model.php:104-117 | the lookup finds a row exactly when some voucher carries the code, and that row carries it |
| VoucherModel.SetStatus | backend/models/voucher_model.php:225-231 | only the named voucher's status changes; the other rows and the set of ids stay the same |
| VoucherModel.Voucher.UpdateStatus | backend/models/voucher_model.php:225-231 | a raising UPDATE is reported as raised and leaves the table as it was; otherwise the table is the status-set table |
| VoucherModel.ValidateAcceptsIff | backend/models/voucher_model.php:104-135 | a code is accepted exactly when it names an unused voucher that has not expired, and acceptance changes nothing; validation raises exactly when the lazy-expiry UPDATE raises on an unused voucher past its expiry, and then changes nothing |
| VoucherModel.ValidateRejections | backend/models/voucher_model.php:115-132 | unknown, used and expired codes get their own refusals; only an unused voucher past its expiry is marked expired, and only when that UPDATE does not raise |
| VoucherModel.ValidateStable | backend/models/voucher_model.php:104-135 | validating twice at the same time gives the same answer and leaves the table as the first call did, whether or not the second call's UPDATE would raise |
| VoucherModel.Voucher.Validate | backend/models/voucher_model.php:104-135 | the method's answer and new table equal the validation outcome, including a raising lazy-expiry UPDATE |
| VoucherModel.RedeemEffect | backend/models/voucher_model.php:137-165 | redemption succeeds exactly when a redeemable voucher carries the code and the UPDATE does not raise, and marks exactly that voucher used, with time and MAC; it raises exactly when the redeeming UPDATE or the lazy-expiry UPDATE raises on a voucher that reaches it; a raise or a refusal changes nothing except a lazy expiry that went through |
| VoucherModel.RedeemTwice | backend/models/voucher_model.php:137-165 | a voucher redeemed once cannot be redeemed a second time, at any later time and whatever the second call's statements do |
| VoucherModel.Voucher.Redeem | backend/models/voucher_model.php:137-165 | the method's answer and new table equal the redemption outcome, with a raise in either UPDATE reported as raised |
| VoucherModel.ExpireSweepEffect | backend/models/voucher_model.php:233-241 | the sweep changes exactly the unused vouchers past expiry, to expired, and keeps the ids |
| VoucherModel.SweepThenValidate | backend/models/voucher_model.php:233-241 | the sweep keeps codes unique; after it, validation never raises and answers as it did before the sweep |
| VoucherModel.Voucher.ExpireOldVouchers | backend/models/voucher_model.php:233-241 | a raising UPDATE is reported as raised and leaves the table as it was; otherwise the table is the swept table |
| VoucherModel.StatusOnlyLeavesUnused | backend/models/voucher_model.php:104-165 | validate, redeem and the sweep only move a voucher out of `unused`, never back into it, whichever statements raise |
| VoucherModel.Voucher.InsertVoucher | backend/models/voucher_model.php:52-62 | the INSERT adds the row under the next id and keeps the table valid |
| VoucherModel.Voucher.Generate | backend/models/voucher_model.php:23-78 | an unknown plan yields false and nothing changes; otherwise each iteration inserts one voucher under the next id, in loop order, recorded with the plan's price, duration, limit and a 30-day expiry, and existing rows are untouched; a returned batch holds exactly `quantity` vouchers; the batch ends with a raise exactly when the INSERT raises at some iteration k < quantity, leaving the k vouchers before it; running out of draws leaves fewer than 12 unread; when the draws hold `quantity` distinct codes not yet in the table, the draws never run out and voucher j gets the j-th code |
| VoucherModel.Voucher.IssueNext | backend/models/voucher_model.php:49-69 | one loop iteration: a code is produced whenever the draws are fresh; a voucher is written exactly when a code is produced and the INSERT does not raise, under the next id and extending the batch; otherwise the table is unchanged |
| VoucherModel.BatchedCodes | backend/models/voucher_model.php:49-69 | every code in the table after part of a batch was either there before or belongs to a voucher of the batch |
| VoucherModel.FreshDraw | backend/models/voucher_model.php:80-102 | while the batch has taken its codes from consecutive 12-draw blocks of fresh draws, the retry loop takes the next block at its first attempt |
| VoucherModel.BatchedNewRows | backend/models/voucher_model.php:23-78 | after a complete or cut-short generation, old rows are unchanged and every new row is an unused voucher of that plan and batch |
| VoucherModel.StatsPartition | backend/models/voucher_model.php:210-223 | the unused, used and expired counts add up to the total |
| VoucherModel.Voucher.GetStats | backend/models/voucher_model.php:210-223 | total, the count for each status, and revenue (the sum of used vouchers' prices) |
| SessionModel.TerminateByIdEffect | backend/models/session.php:107-118 | terminating by id changes only that row (terminated, end time, duration), whatever its status; terminating it again overwrites the end time |
| SessionModel.TerminatedDuration | backend/models/session.php:107-118 | the recorded duration is the whole minutes from start to end |
| SessionModel.TerminateByMacEffect | backend/models/session.php:120-132 | exactly the active rows with that MAC are terminated; the others are untouched |
| SessionModel.SetUsageEffect | backend/models/session.php:134-144 | only the named row's data usage changes |
| SessionModel.ExpireStaleEffect | backend/models/session.php:240-249 | exactly the active rows started more than 24 hours ago become expired, with end time now; a second sweep changes nothing |
| SessionModel.LaterFirstOrders | backend/models/session.php:57-87 | `ORDER BY start_time DESC` is a total preorder |
| SessionModel.ActiveAtMostTotal | backend/models/session.php:203-238 | the active count never exceeds the total count |
| SessionModel.Session.Create | backend/models/session.php:24-55 | MAC and IP are sanitized; unless the INSERT raises, the row goes in under the next id with status active and the call returns true; a raising INSERT changes no row; false is never returned |
| SessionModel.Session.Terminate | backend/models/session.php:107-118 | unless the UPDATE raises, the call returns true and the table is the terminate-by-id table; a raise changes nothing |
| SessionModel.Session.TerminateByMac | backend/models/session.php:120-132 | unless the UPDATE raises, the call returns true and the table is the terminate-by-MAC table; a raise changes nothing |
| SessionModel.Session.UpdateUsage | backend/models/session.php:134-144 | a raising UPDATE is reported as raised and leaves the table as it was; otherwise the table is the usage-set table |
| SessionModel.Session.CleanupExpired | backend/models/session.php:240-249 | a raising UPDATE is reported as raised and leaves the table as it was; otherwise the table is the stale-expired table |
| SessionModel.Session.GetActive | backend/models/session.php:57-87 | the listing holds exactly the active sessions that pass the filters, each once, newest first |
| SessionModel.Session.GetStats | backend/models/session.php:203-238 | the total, active, data and duration sums are over the selected rows, and active ≤ total |
| PlanModel.Patched | backend/models/plan.php:107-164 | an update never moves a plan to another location |
| PlanModel.ApplyIsPatched | backend/models/plan.php:107-164 | running the generated SET clause on the row gives the patched plan |
| PlanModel.PatchedKeepsAbsent | backend/models/plan.php:107-164 | fields absent from the request keep their values; present ones take the sanitized new value |
| PlanModel.PatchedIdempotent | backend/models/plan.php:107-164 | applying the same update twice equals applying it once |
| PlanModel.CountsDetectUse | backend/models/plan.php:166-182 | the two COUNT queries are positive exactly when some unused voucher or active session references the plan |
| PlanModel.SpentReferencesDoNotBlock | backend/models/plan.php:166-189 | used or expired vouchers and ended sessions do not block deletion |
| PlanModel.PlanStore.Delete | backend/models/plan.php:166-193 | deletion is refused exactly when the plan is in use; otherwise the row is removed unless the DELETE raises; "Failed to delete plan" is never answered |
| PlanModel.PlanStore.CollectColumns | backend/models/plan.php:107-158 | the field list is empty exactly when the request names no updatable field |
| PlanModel.PlanStore.Update | backend/models/plan.php:107-164 | an update with no recognised field returns false; otherwise it returns true with only that plan changed, to the patched plan, or raises with nothing changed |
| PlanModel.PlanStore.GetAll | backend/models/plan.php:75-104 | the listing holds exactly the plans that pass the filters, each once, cheapest first |
| ControllerModel.Patched | backend/models/controller.php:102-154 | an update never moves a controller to another location |
| ControllerModel.ApplyIsPatched | backend/models/controller.php:102-154 | running the generated SET clause on the row gives the patched controller |
| ControllerModel.PatchedKeepsAbsent | backend/models/controller.php:102-154 | absent fields keep their values; present ones take the new (sanitized or encoded) value |
| ControllerModel.EncodedPasswordsDecode | backend/models/controller.php:72-74 | a stored, encoded password always decodes back to the password given |
| ControllerModel.PatchedStoresEncoded | backend/models/controller.php:126-129 | a password in an update is stored encoded and reads back as given |
| ControllerModel.Controller.GetById | backend/models/controller.php:59-77 | a row is found exactly when the id exists, and its password comes back decoded |
| ControllerModel.Controller.Create | backend/models/controller.php:23-57 | text fields are sanitized; unless the INSERT raises, the row goes in under the next id, the call returns true, and the row reads back with the plain password; a raise changes no row |
| ControllerModel.Controller.CollectColumns | backend/models/controller.php:102-150 | the field list is empty exactly when the request names no updatable field |
| ControllerModel.Controller.Update | backend/models/controller.php:102-154 | no recognised field means false; otherwise it returns true with only that controller changed, a new password reading back as given, or raises with nothing changed |
| ControllerModel.Controller.GetActiveControllers | backend/models/controller.php:170-175 | exactly the active controllers, each once, ordered by name |
| Query.SumKeys | backend/models/voucher_model.php:210-223 | the summing loop computes the SQL `SUM` over the selected ids |
| Query.SelectOrdered | backend/models/session.php:57-87 | the selection loop yields exactly the selected rows, each once, sorted by the given order |
| Query.FirstKey | backend/api/portal/authenticate.php:132-138 | `ORDER BY id LIMIT 1` picks the least id |
| CleanupJob.RetainedEffect | backend/cron/cleanup_sessions.php:17-19 | exactly the sessions terminated more than 30 days ago are deleted; active and expired ones stay; a second run removes nothing |
| CleanupJob.CleanupSessions | backend/cron/cleanup_sessions.php:11-28 | a raising DELETE is caught, leaves the table as it was and ends with exit status 2 and no count; otherwise the table is the retained table, the count logged is the number of rows removed, and the exit status is 0 |
| OmadaApi.Headers | backend/services/omadaapi.php:215-222 | the two JSON headers always come first; a Csrf-Token header is added exactly when authenticating with a truthy token |
| OmadaApi.Classify | backend/services/omadaapi.php:249-263 | a cURL error or HTTP status ≥ 400 throws, and the cURL error wins; otherwise the decoded body is returned |
| OmadaApi.GrantedToken | backend/services/omadaapi.php:36-37 | a token is taken only when `result.token` is set (non-null) |
| OmadaApi.LoginTokenRule | backend/services/omadaapi.php:26-42 | login sends one unauthenticated POST and stores the token exactly when the reply carries one |
| OmadaApi.HeldTokenSkipsLogin | backend/services/omadaapi.php:47-54 | with a token held, an operation sends only its own request, with the Csrf-Token header, and returns its classified reply |
| OmadaApi.MissingTokenPrimesLogin | backend/services/omadaapi.php:85-100 | without a token the login comes first; a refused login gives false and a thrown one propagates, both without the operation's request; a successful one is followed by the operation under the new token |
| OmadaApi.LogoutRule | backend/services/omadaapi.php:269-283 | without a token logout sends nothing and succeeds; otherwise it clears the token exactly when the POST does not throw |
| OmadaApi.TestConnectionRule | backend/services/omadaapi.php:193-207 | test connection reports success unless the info request throws; the failure message carries the exception text |
| OmadaApi.OmadaAPI.constructor | backend/services/omadaapi.php:15-21 | the client keeps its settings and starts with no token and no requests sent |
| OmadaApi.OmadaAPI.MakeRequest | backend/services/omadaapi.php:212-264 | one request is appended with its URL, verb, headers and JSON body, and its reply is classified |
| OmadaApi.OmadaAPI.Login | backend/services/omadaapi.php:26-42 | the login exchange and the token held afterwards follow the login rule |
| OmadaApi.OmadaAPI.Perform | backend/services/omadaapi.php:47-188 | every token-guarded operation logs in when needed, then sends its own request |
| OmadaApi.OmadaAPI.AuthorizeClient | backend/services/omadaapi.php:85-100 | authorizes the MAC for the duration, with the limits, as a POST to the site's authorize-guest command |
| OmadaApi.OmadaAPI.GetClients | backend/services/omadaapi.php:71-80 | lists clients of the chosen site through the guarded request |
| OmadaApi.OmadaAPI.TestConnection | backend/services/omadaapi.php:193-207 | the result is the test-connection outcome over the controller-info request |
| OmadaApi.OmadaAPI.Logout | backend/services/omadaapi.php:269-283 | the logout exchange and the token afterwards follow the logout rule |
| Gateway.TargetFor | backend/api/portal/authenticate.php:158-164 | the Omada client is built from the controller row's host, port, user and site |
| Gateway.TargetPassword | backend/api/omada/omada_test_connection.php:28-34 | a password stored encoded reaches the client decoded |
| OmadaTest.VersionOf | backend/api/omada/omada_test_connection.php:38-45 | the version recorded is the reply's `result.version` string, or `unknown` when it is missing |
| OmadaTest.StatusPatches | backend/api/omada/omada_test_connection.php:38-49 | success marks the controller active with its version; failure marks it `error`; nothing else changes |
| OmadaTest.FalseLoginIsUnknownVersion | backend/api/omada/omada_test_connection.php:36-45 | a refused login still counts as a successful test, with version `unknown` |
| OmadaTest.HandleTestConnection | backend/api/omada/omada_test_connection.php:18-56 | a missing id gives 400 and an unknown id 404, with nothing changed; otherwise the controller is tested and its status updated to match the 200 or 500 answer; a raising status UPDATE reaches the `catch`, which marks the controller `error` and answers 500 "Connection failed: …", unless that UPDATE raises too and the script dies with nothing changed |
| VoucherApi.GenerateGuardLadder | backend/api/vouchers/generate.php:13-31 | generation is refused to roles other than admin and manager (403), without a plan id or quantity (400), and for a quantity outside 1–1000 (400); it goes ahead in every other case |
| VoucherApi.HandleGenerate | backend/api/vouchers/generate.php:13-50 | a refusal changes nothing; exactly an unknown plan gives 500, with nothing changed; otherwise old rows are kept and every new row is an unused voucher of the plan; a 201 carries exactly `quantity` vouchers in increasing id order, and their ids are exactly the new rows; an INSERT raising within the batch kills the script, keeping the vouchers before it; when the draws hold `quantity` fresh codes, the answer is 201 exactly when no INSERT of the batch raises, with voucher j carrying the j-th code |
| VoucherApi.RedeemGuardLadder | backend/api/vouchers/redeem.php:17-31 | redemption is refused without a code, for a malformed scalar code and for a MAC that fails the check, and only then; a non-empty array or object as the code (even `{}`) ends the script with an uncaught error; a standard MAC is always refused |
| VoucherApi.ValidateGuardLadder | backend/api/vouchers/vouchers_validate.php:16-33 | validation goes ahead exactly for a well-formed code; an empty code is refused as missing, a malformed scalar code as badly formatted, and a non-empty array or object ends the script with an uncaught error |
| VoucherApi.RedeemReply | backend/api/vouchers/redeem.php:38-49 | the reply is success exactly when the voucher was redeemed; a refusal is a 400 carrying validation's message; a raising UPDATE kills the script |
| VoucherApi.HandleRedeem | backend/api/vouchers/redeem.php:17-52 | a refusal or an uncaught error in the guard changes nothing; otherwise the reply and the table are the redemption outcome, a raising UPDATE killing the script |
| VoucherApi.RedeemThroughEndpoint | backend/api/vouchers/redeem.php:38-49 | a redeemable voucher reached through the endpoint answers 200 and is marked used when the UPDATE does not raise; the script dies exactly when one of its UPDATEs raises |
| VoucherApi.ValidateReply | backend/api/vouchers/vouchers_validate.php:24-30 | the reply is success exactly when validation accepted the code, an uncaught error exactly when the lazy-expiry UPDATE raised, and otherwise a 400 carrying the refusal's message |
| VoucherApi.HandleValidate | backend/api/vouchers/vouchers_validate.php:16-33 | a missing, malformed or non-scalar code is answered by the guard and nothing changes; otherwise the reply and the table are the validation outcome, a raising lazy-expiry UPDATE killing the script |
| VoucherApi.ValidateEndpointMayExpire | backend/api/vouchers/vouchers_validate.php:19-30 | validating an unused voucher past its expiry answers an error and marks it expired, or, when that UPDATE raises, kills the script and changes nothing |
| SessionApi.CreateGuardLadder | backend/api/sessions/create.php:17-23 | session creation goes ahead exactly when the controller id and MAC are present and the MAC passes the check as written; a standard 17-character MAC is always refused |
| SessionApi.CreatedRow | backend/api/sessions/create.php:26-47 | the new row is active from now, uses the request's fields, and falls back to the caller's address for the IP |
| SessionApi.InsertSession | backend/api/sessions/create.php:34-47 | unless the INSERT raises, the row goes in under the next id; a raise changes nothing |
| SessionApi.HandleCreate | backend/api/sessions/create.php:17-50 | a refusal changes nothing; a raising INSERT kills the script with nothing changed; otherwise the created row is stored under the next id and answered 201 with it; the 500 answer is never given |
| SessionApi.TerminateRoute | backend/api/sessions/sessions_terminate.php:24-47 | a non-empty id selects terminate-by-id; otherwise a non-empty MAC selects terminate-by-MAC; otherwise there is no target |
| SessionApi.ReasonOf | backend/api/sessions/sessions_terminate.php:22-22 | the given reason is used, or the default reason when none is given |
| SessionApi.HandleTerminate | backend/api/sessions/sessions_terminate.php:20-49 | no target gives 400 and nothing changes; otherwise the chosen termination is applied and answered 200, or its UPDATE raises and the script dies with nothing changed; the 500 answer is never given |
| SessionApi.TerminateIdWins | backend/api/sessions/sessions_terminate.php:24-34 | when an id is given the MAC is ignored, and an unknown id changes nothing |
| PortalAuth.Upper | backend/api/portal/authenticate.php:120-130 | `strtoupper` maps a-f to A-F and leaves digits alone |
| PortalAuth.GetMacAddress | backend/api/portal/authenticate.php:120-130 | the pseudo-MAC is the first 12 md5 hex digits in upper case, in colon-separated pairs |
| PortalAuth.PortalMacShape | backend/api/portal/authenticate.php:120-130 | the pseudo-MAC fails `Validator::macAddress`, and two digests that agree on 12 digits give the same MAC |
| PortalAuth.GetDefaultController | backend/api/portal/authenticate.php:132-138 | the least id of an active controller, or 1 when there is none |
| PortalAuth.GetFreePlanId | backend/api/portal/authenticate.php:140-146 | some plan is returned exactly when a plan is free (its name mentions "free" or its price is 0), and it is the least such id |
| PortalAuth.AuthorizeOnController | backend/api/portal/authenticate.php:148-174 | the default controller's client authorizes the MAC; with no such controller nothing is sent |
| PortalAuth.AuthorizationLogsInFirst | backend/api/portal/authenticate.php:148-174 | a fresh client logs in first, and sends the authorize-guest request with MAC and duration exactly when the login succeeds |
| PortalAuth.AccessCaseRule | backend/api/portal/authenticate.php:21-114 | PHP's loose `switch`: a string selects the case it names, `true` selects free access, other non-strings fall to the default |
| PortalAuth.ProfileUser | backend/api/portal/authenticate.php:176-208 | a profile is accepted exactly when it carries an email |
| PortalAuth.VerifySocialToken | backend/api/portal/authenticate.php:176-208 | only Facebook and Google are known; a verified user always has an email |
| PortalAuth.AuthGuardLadder | backend/api/portal/authenticate.php:17-117 | access goes ahead exactly for free access with a non-object email, or for social access whose token is not an object and verifies; an object email, or an object token for facebook or google, ends the script with an uncaught error; voucher access is always redirected; an object access type is an invalid access type; a bad token is 401 and every other refusal is 400 |
| PortalAuth.GuestGrant | backend/api/portal/authenticate.php:42-106 | free guests get 30 minutes and 100 MB; social guests get 60 minutes and no limit |
| PortalAuth.GuestRow | backend/api/portal/authenticate.php:29-49 | the guest session uses the default controller, the sanitized pseudo-MAC and address, the free plan, and the guest's details |
| PortalAuth.InsertGuestSession | backend/api/portal/authenticate.php:29-49 | unless the INSERT raises, the guest row goes in under the next id; a raise changes nothing |
| PortalAuth.HandleAuthenticate | backend/api/portal/authenticate.php:17-117 | a refusal changes nothing and contacts no controller; a raising INSERT kills the script, likewise; otherwise the session is stored, the MAC is authorized for the granted time, and 200 is returned; "Failed to create session" is never answered |

## Left out

- JOINs that add plan, location and controller names to listings are left out; the listings return the table's own columns.
- The other read-only queries (`getById`, `getAll`, `getPopular`, `getHistory` on the models that are not listed above) and controller `getAll`, `delete` and `updateLastSync` are not part of this model.
- MySQL collation: `LIKE '%free%'` and `ORDER BY name` are modelled with ASCII case folding and code-point order. The default `_ci` collation also makes `=` on text case-insensitive, which the model does not follow: it compares exactly in `SessionModel.TerminateMac` (`terminateByMac`), the MAC filter of `SessionModel.Session.GetActive`, `VoucherModel.FindCode` and `Schema.HasCode` (the lookups by code in `validate`, `redeem` and `generateCode`), and the `status = 'active'` tests of `PortalAuth.GetDefaultController` and `ControllerModel.Controller.GetActiveControllers`. In the source, a lower-case MAC terminates the upper-case one's sessions, and `'ACTIVE'` counts as active.
- `base64_decode` is modelled strict. PHP's lenient decoding of malformed text is left out.
- Floating point (`AVG`, decimal prices) is left out; prices and averages are integers. The average duration in session statistics is not modelled.
- Logging, file I/O, `date()` formatting and the `start_time` date string are left out. Time is integer seconds.
- `rand()` is a finite stream of draws.
  - VoucherModel.FirstFree: when the stream runs dry, no code is produced. The source would draw on. `Generate` then stops with `OutOfDraws`, and `HandleGenerate` answers `Aborted` with the vouchers already inserted kept. When the draws hold `quantity` distinct codes not yet in the table, `Generate` and `HandleGenerate` prove that this does not happen.
- `uniqid`, `md5`, HMAC-SHA256, `json_encode`, `filter_var` and `htmlspecialchars(strip_tags())` are parameters, not computed.
- `json_encode`'s key order and escaping are not modelled.
- `JWT::decode` and `authenticate` are not part of this model.
- The race between validating and redeeming the same voucher in two requests is not modelled. Each call is atomic.
- Request fields are typed: non-integer numbers and negative ids are not modelled. The redeem endpoint's MAC is a string, so an array or object MAC is not modelled.
- Php.Interpolate: PHP throws when a `stdClass` is put into a string; the model gives "" there. No modelled path reaches it: the portal endpoint answers before converting an object from its request, and text decoded into arrays holds no `stdClass`.
- A PHP array bound as an SQL parameter is stored as the text `Array`.
- OmadaTest.HandleTestConnection: the `catch` is reached only through a raising status UPDATE. The client's constructor and `testConnection` are modelled as not throwing (`testConnection` catches internally).
- Read statements (SELECT) are taken to succeed; every write statement (INSERT, UPDATE, DELETE) has its own raise flag.
- PortalForm.Normalize: `toUpperCase` is modelled on ASCII letters only. JavaScript's full Unicode mapping also turns `ß` into `SS`, `ſ` into `S`, `ı` into `I` and `ﬀ` into `FF`. In the source such characters therefore survive as letters, the normalized text can be longer than the typed text (`ßßßßßß` formats as `SSSS-SSSS-SSSS`), and `FormatValidIff`, `FormatShape` and `NormalizeGrouped` describe only typed text without them.
- Validator.MinLength is modelled by its definition (`strlen` taken as the string's length); the registration and user-creation endpoints that call it are not part of this model.
- The Omada operations other than authorize-guest, clients, controller info, login and logout go through the same guarded request (`Perform`) and get no individual lemma.
- The web UI, the DOM and the dashboard pages are not modelled. The portal form's handlers are modelled as functions.
