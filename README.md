# Stock portfolio tracker — a Dafny model of its logic

The tracker is a Next.js application: users sign up or sign in and get a
one-hour bearer token; holdings are stored through an API route and shown on a
dashboard with totals, a percentage badge and two charts. Most of the code is
rendering. This project models the parts that decide something:

- `verifyToken` (src/lib/auth.ts): the `Bearer ` prefix test, the
  `split(" ")[1]` token extraction, verification, and the single
  `"Unauthorized"` error (module `Auth`).
- The signup and signin routes: ordered checks over the user table (400, 409,
  401, 500), password hashing and comparison, and token issue (modules `Users`,
  `Signup`, `Signin`, and `Session` for properties that span both routes and
  `verifyToken`). Signup changes the table, so it is a method of the class
  `Signup.UserTable`, proved against the function `Signup.Step`. Signin only
  reads the table, so it is a function.
- The stocks route: `GET` returns the whole table and `POST` appends one row
  after a truthiness check on four fields. Neither consults a token (module
  `Stocks`, class `StockTable`).
- The in-memory dashboard (src/app/dashboard/page.tsx): add appends, edit
  replaces by id, delete filters by id. Its state is the class
  `Dashboard.Page`. The `reduce` that computes total invested, current value
  and profit is in module `Portfolio`.
- The percentage badge and profit card of PortfolioMetrics, with JavaScript's
  NaN and infinities for division by zero (module `PortfolioMetricsView`).
- The chart data of PortfolioCharts: slices coloured by index mod 6, the
  simulated performance points and their stroke colour (module
  `PortfolioCharts`).
- The welcome greeting: the quote-stripping `replace(/^"|"$/g, '')` applied
  to the name the sign-in page stored with `JSON.stringify` (module `Welcome`).

The foreign libraries are abstract. `Jwt.Lib` is any pair of sign and verify
functions, and `Jwt.Lawful` is the one law assumed of them: a token verifies
exactly under the secret it was signed with, yields the signed payload, and is
non-empty and free of spaces. `Bcrypt.Hasher` is any pair of hash and compare
functions with the law `compare(p, hash(p, salt))`. Members that rely on a law
take it as a precondition.

Thrown errors are modelled by a `fault` parameter that names the awaited call
that throws. The fault only has an effect if the route reaches that call. The
random bcrypt salt and the `Date.now()` id are parameters. Prices and
quantities are exact `real`s.

The stocks route checks no token and does no ownership scoping. Signup stores
the user before signing the token, so a signing failure leaves the user stored.

## Model

| member | source | states |
|---|---|---|
| Jwt.SecretFrom | src/lib/auth.ts:4 | `process.env.JWT_SECRET \|\| fallback`: a set, non-empty variable wins; otherwise the fallback |
| Auth.Split | src/lib/auth.ts:12 | `split(" ")`: at least one field, no field contains the separator, the first field is the text before the first separator |
| Auth.JoinSplit | src/lib/auth.ts:12 | joining the fields of a split with the separator gives back the original text |
| Auth.SplitJoin | src/lib/auth.ts:12 | splitting a join of separator-free fields gives back the fields |
| Auth.ExtractToken | src/lib/auth.ts:12 | `split(" ")[1]` is defined exactly when the header contains a space |
| Auth.BearerToken | src/lib/auth.ts:9-12 | after `Bearer `, the token is the text up to the next space, or all of it |
| Auth.BearerRoundTrip | src/lib/auth.ts:12 | for a token without spaces, `Bearer <token>` yields that token |
| Auth.SecondFieldOnly | src/lib/auth.ts:12 | `Bearer a b` yields `a` |
| Auth.VerifyToken | src/lib/auth.ts:6-18 | every failure is `Unauthorized`; a missing header and a header without the exact `Bearer ` prefix fail; success returns the payload `jwt.verify` gives for the extracted token |
| Auth.VerifyRequest | src/lib/auth.ts:4-18 | `verifyToken` with the module's own secret fails only with `Unauthorized` |
| Auth.AcceptsOwnTokens | src/lib/auth.ts:13-14 | a token signed with the verifying secret is accepted and its payload is returned unchanged |
| Auth.RejectsForeignTokens | src/lib/auth.ts:13-17 | a token signed with another secret yields `Unauthorized` |
| Auth.EmptyTokenUnauthorized | src/lib/auth.ts:12-17 | `Bearer ` with nothing after it yields the same `Unauthorized` |
| Auth.LowerCaseSchemeRejected | src/lib/auth.ts:9-10 | the prefix test is case-sensitive: `bearer <token>` is refused |
| Jwt.EmptyTokenRejected | src/lib/auth.ts:13 | under the library law, the empty token never verifies |
| Signup.Step | src/app/api/auth/signup/route.ts:8-37 | status 400 "All fields are required" iff a field is missing or empty; 409 "User already exist" iff the email exists and the lookup did not throw; 200 iff no step throws and the email is new; every other response is 500 "Failed to register user". At most one row is added, under the new email, and no existing row changes. The table grows iff the insert is reached, including when signing throws after it. The table invariant (email keys, unique ids below the counter) is kept |
| Signup.UserTable.Signup | src/app/api/auth/signup/route.ts:8-37 | the route run on the stored table: response and new table are those of `Signup.Step`, and the table invariant holds |
| Signup.SuccessResponse | src/app/api/auth/signup/route.ts:20-32 | on success the response carries the stored row, hash included, and a token that verifies to `{userId: new id, email}` with a one-hour lifetime |
| Signup.ConflictIgnoresNameAndPassword | src/app/api/auth/signup/route.ts:14-19 | an existing email gives 409 "User already exist" whatever the name and password, and nothing changes |
| Signup.SecondSignupConflicts | src/app/api/auth/signup/route.ts:14-27 | after a successful signup, a second signup with the same email gets 409 and leaves the table as it is |
| Signin.Signin | src/app/api/auth/signin/route.ts:8-33 | 400 "All fields are required" iff a field is missing or empty; 200 iff no step throws and the password matches the stored hash; every 401 is the one "Invalid credentials" response; every 500 is "Failed to login"; on success the body is the found user and a one-hour token for their id and email |
| Signin.UnknownEmailLooksLikeWrongPassword | src/app/api/auth/signin/route.ts:17-23 | an unknown email and a wrong password get identical responses |
| Signin.IssuedTokenCarriesIdentity | src/app/api/auth/signin/route.ts:24-28 | the issued token verifies to the user's id and email with a one-hour lifetime |
| Session.SignupThenSignin | src/app/api/auth/signin/route.ts:14-28 | after `signup(name, e, p)` succeeds, `signin(e, p)` succeeds with the same user and id, and its token verifies to the same claims and one-hour lifetime as the signup token |
| Session.VerifyRequestShared | src/lib/auth.ts:4-18 | corrected `verifyToken`, sharing the issuers' secret: fails only with `Unauthorized` |
| Session.DefaultSecretsDisagree | src/lib/auth.ts:4 | with `JWT_SECRET` unset, every token the routes issue is refused by `verifyToken` |
| Session.ConfiguredSecretAgrees | src/app/api/auth/signin/route.ts:7 | with `JWT_SECRET` set, issued tokens are accepted with their payload |
| Session.SharedSecretAcceptsIssuedTokens | src/app/api/auth/signup/route.ts:7 | corrected: with one shared secret, every issued token is accepted in every environment |
| Session.SigninTokenVerifies | src/app/api/auth/signin/route.ts:24-28 | corrected, end to end: the token signin returns verifies to the signed-in user's id and email |
| Stocks.List | src/app/api/stocks/route.ts:6-13 | 200 with every row of the table, in order, unless the read throws; then 500 "Failed to fetch stocks" |
| Stocks.Create | src/app/api/stocks/route.ts:14-32 | 400 "Missing fields" iff one of stockName, ticker, buyPrice, userId is missing or falsy (0 and "" included); 201 iff no step throws; on 201 exactly one row is appended, built from those four fields with the owner taken from the body; otherwise the table is unchanged; id uniqueness is kept, so the new row's id differs from every stored id |
| Stocks.StockTable.Post | src/app/api/stocks/route.ts:14-32 | the handler run on the stored table: response and new table are those of `Stocks.Create` |
| Stocks.StockTable.Get | src/app/api/stocks/route.ts:6-13 | returns the whole stored table with 200 when the read succeeds |
| Stocks.ListIsNotScoped | src/app/api/stocks/route.ts:8-9 | the list does not depend on the header, and every owner's rows are in it |
| Stocks.CreateIgnoresToken | src/app/api/stocks/route.ts:16-25 | the outcome of POST does not depend on the authorization header |
| Stocks.CreateIgnoresExtraFields | src/app/api/stocks/route.ts:16-26 | `quantity` and `currentPrice` in the body change nothing |
| Stocks.ZeroPriceRejected | src/app/api/stocks/route.ts:17-19 | a buy price of 0 counts as missing: 400 and nothing is stored |
| Portfolio.CalculateMetrics | src/app/dashboard/page.tsx:47-62 | the totals always satisfy totalProfit = currentValue − totalInvested |
| Portfolio.Contribution | src/app/dashboard/page.tsx:48-58 | one holding contributes q·buy, q·cur and the table row's profit (cur − buy)·q |
| Portfolio.MetricsAppend | src/app/dashboard/page.tsx:48-61 | appending a holding adds exactly its contribution |
| Portfolio.MetricsConcat | src/app/dashboard/page.tsx:47-62 | the fold is additive over concatenation |
| Portfolio.MetricsSwap | src/app/dashboard/page.tsx:47-62 | the totals do not depend on the order of the holdings |
| Dashboard.NewStock | src/app/dashboard/page.tsx:70-76 | the submitted holding carries the form's fields, current price = buy price, and the edited id or the clock reading |
| Dashboard.ReplaceById | src/app/dashboard/page.tsx:79-81 | same length and order; entries with the id become the new holding, all others are unchanged |
| Dashboard.RemoveById | src/app/dashboard/page.tsx:107 | an entry is kept iff it was present and has another id |
| Dashboard.RemoveConcat | src/app/dashboard/page.tsx:107 | deleting distributes over concatenation, so the kept entries stay in order |
| Dashboard.RemoveAbsent | src/app/dashboard/page.tsx:107 | deleting an absent id leaves the list unchanged |
| Dashboard.RemoveIdempotent | src/app/dashboard/page.tsx:107 | deleting twice is deleting once |
| Dashboard.RemoveAfterReplace | src/app/dashboard/page.tsx:79-107 | editing a holding then deleting it is the same as deleting it |
| Dashboard.MetricsAfterRemove | src/app/dashboard/page.tsx:106-107 | the totals before a delete are the totals after it plus those of the deleted entries |
| Dashboard.EditRoundTrip | src/app/dashboard/page.tsx:94-101 | opening a holding for edit and submitting unchanged keeps its id, name, ticker, quantity and buy price |
| Dashboard.Page.constructor | src/app/dashboard/page.tsx:32-44 | the page starts with the two sample holdings, closed dialog, no edit target, empty form |
| Dashboard.Page.Metrics | src/app/dashboard/page.tsx:64 | the page's totals, with profit = value − invested |
| Dashboard.Page.HandleSubmit | src/app/dashboard/page.tsx:67-91 | add mode: the new holding is appended, earlier entries are unchanged and the totals grow by its contribution. Edit mode: same length and order, and holdings with the edited id are replaced. Afterwards the dialog is closed, the edit target is cleared and the form is empty |
| Dashboard.Page.HandleEdit | src/app/dashboard/page.tsx:94-103 | the edit target is the holding, the form is filled from it, the dialog opens, and the list is unchanged |
| Dashboard.Page.HandleDelete | src/app/dashboard/page.tsx:106-109 | the list is filtered by id, the rest of the state is unchanged, and the totals drop by the deleted entries' totals |
| Dashboard.Page.OpenAddDialog | src/app/dashboard/page.tsx:153-157 | clears the edit target and form, opens the dialog, and leaves the list unchanged |
| Dashboard.EditThenSubmit | src/app/dashboard/page.tsx:67-103 | edit then submit unchanged: same length, and entries with the id keep every field except that the current price becomes the buy price |
| PortfolioMetricsView.Divide | src/app/components/PortfolioMetrics.tsx:32-34 | division as JavaScript does it: a quotient for a non-zero divisor, else ±Infinity by the numerator's sign, or NaN for 0/0 |
| PortfolioMetricsView.Abs | src/app/components/PortfolioMetrics.tsx:55 | `Math.abs`: non-negative on finite values, NaN stays NaN, infinities become +Infinity |
| PortfolioMetricsView.ChangeBadge | src/app/components/PortfolioMetrics.tsx:47-55 | green iff "↑". With totalInvested > 0, "↑" iff currentValue ≥ totalInvested; with it < 0, iff currentValue ≤ totalInvested; with it 0, iff currentValue > 0. The shown figure is the magnitude of the change |
| PortfolioMetricsView.BreakEvenShowsUp | src/app/components/PortfolioMetrics.tsx:54 | a change of exactly 0 shows a green "↑ 0" |
| PortfolioMetricsView.Profit | src/app/components/PortfolioMetrics.tsx:106-118 | TrendingUp and green iff totalProfit ≥ 0; the amount shown is the absolute profit |
| PortfolioMetricsView.ProfitAgreesWithBadge | src/app/components/PortfolioMetrics.tsx:47-118 | for a portfolio with positive cost, the profit card and the badge point the same way |
| PortfolioMetricsView.EmptyPortfolioShowsNaN | src/app/components/PortfolioMetrics.tsx:32-34 | as written, an empty portfolio shows a red "↓" with NaN |
| PortfolioMetricsView.GuardedPercentageChange | src/app/components/PortfolioMetrics.tsx:32-34 | corrected change: always finite; the original where the cost is non-zero, else 0 |
| PortfolioMetricsView.GuardedChangeBadge | src/app/components/PortfolioMetrics.tsx:47-55 | corrected badge: never NaN, the original badge where the cost is non-zero, "↑ 0" otherwise |
| PortfolioCharts.CompositionShape | src/app/components/PortfolioCharts.tsx:57-62 | one slice per holding, in order, with its name, value = quantity·buyPrice and qty = quantity |
| PortfolioCharts.ColorsRepeat | src/app/components/PortfolioCharts.tsx:61 | slice colours repeat with period 6 |
| PortfolioCharts.NearbyColorsDiffer | src/app/components/PortfolioCharts.tsx:31-38 | slices fewer than 6 apart never share a colour |
| PortfolioCharts.CompositionTotal | src/app/components/PortfolioCharts.tsx:57-62 | the slice values add up to the dashboard's total invested |
| PortfolioCharts.StrokeColor | src/app/components/PortfolioCharts.tsx:67-74 | red iff 1.5·investment < investment, that is iff the investment is negative |
| PortfolioCharts.PerformanceShape | src/app/components/PortfolioCharts.tsx:65-76 | one point per holding: investment = quantity·buyPrice, currentValue = 1.5·investment, red iff the investment is negative |
| PortfolioCharts.AnyRed | src/app/components/PortfolioCharts.tsx:156 | `some(d => d.strokeColor === "#FF0000")`: true iff some point is red |
| PortfolioCharts.SeriesRedIffNegativeInvestment | src/app/components/PortfolioCharts.tsx:155-164 | the current-value series is red iff some holding's investment is negative |
| PortfolioCharts.NonNegativeAlwaysGreen | src/app/components/PortfolioCharts.tsx:155-164 | with non-negative quantities and prices the series is always green |
| Welcome.StripQuotesRemovesEnds | src/components/WelcomeMsg.tsx:12 | the replace removes one leading quote and then one trailing quote if present, and keeps the rest, interior quotes included |
| Welcome.UnquotedUnchanged | src/components/WelcomeMsg.tsx:12 | text with no quote at either end is unchanged |
| Welcome.LoneQuote | src/components/WelcomeMsg.tsx:12 | a lone `"` becomes the empty text |
| Welcome.StripQuoted | src/components/WelcomeMsg.tsx:12 | stripping `"` + text + `"` gives back the text |
| Welcome.LoadUsername | src/components/WelcomeMsg.tsx:11-15 | the read throws (no name) exactly when nothing is stored; otherwise a name is shown |
| Welcome.GuardIsRedundant | src/components/WelcomeMsg.tsx:13-15 | the non-empty guard changes nothing: the name shown is always the stripped text, `''` included |
| Welcome.EscapeLength | src/app/page.tsx:63 | JSON escaping never shortens text, and leaves it unchanged iff it has no quote, backslash or control character |
| Welcome.ShownNameIsEscaped | src/components/WelcomeMsg.tsx:12 | as written, the greeting shows the JSON-escaped name, which is the name iff nothing in it needed escaping |
| Welcome.QuoteInNameShownEscaped | src/components/WelcomeMsg.tsx:12 | as written, the name `a"b` is greeted as `a\"b` |
| Welcome.ParseUndoesStringify | src/app/page.tsx:63 | JSON.parse undoes JSON.stringify for every name |
| Welcome.LoadUsernameParsed | src/components/WelcomeMsg.tsx:11-15 | corrected greeting: a stored `JSON.stringify(name)` greets `name` |

## Left out

- Session.SignupThenSignin: `jwt.sign` is a pure function of claims, secret and lifetime here. The issue time (`iat`) and the expiry derived from it are not modelled, so tokens are deterministic in the model. The lemma therefore compares tokens by what they verify to, not by their text.
- Token expiry: tokens carry a one-hour lifetime, but verification ignores the clock, so `Auth.VerifyToken` never fails for an expired token.
- The signing and hashing algorithms are abstract, and so is the bcrypt cost factor of 10. Only the laws in `Jwt.Lawful` and `Bcrypt.Lawful` are assumed.
- The header value is taken as the `Headers` API delivers it, already trimmed. Request parsing is reduced to optional typed fields. JSON values of the wrong type, NaN, and `parseInt` on string user ids are not modelled. The user id is taken as an integer.
- `Number(...)`, `toString()` and `toFixed(2)` formatting are not modelled. Form numbers are held as the numbers they parse to, and the empty input is 0, as `Number('')` is. Floating-point rounding is not modelled, so the `reduce` is exact and order-independent here.
- The random `profit` field of the performance points is left out, because it comes from `Math.random`.
- Distinct `Date.now()` readings are not enforced, so two holdings added in the same millisecond would share an id. That is why edit and delete are stated for every entry with the id.
- The race between signup's `findUnique` and `create` under concurrent requests is not modelled. Each request is one atomic step.
- The stocks route imports its client from `@prisma/client/extension`. The model treats it as a working store. Failures such as a foreign-key violation for an unknown `userId` are the `CreateRow` fault.
- The by-id stock endpoints (src/app/api/stocks/[id]/route.ts) are not part of this model.
- Rendering is not modelled: JSX, toasts, the chart-type selectors, the `isLoaded` flag, `isLoading`, and the form's `onChange` setters.
- `Welcome.JsonParseString` decodes `\u` escapes only for non-surrogate code units. It does not decode surrogate pairs and does not accept whitespace around the literal.

## Findings

| source | as written | input that shows it | evidently intended | confidence | as-written member | corrected member |
|---|---|---|---|---|---|---|
| src/lib/auth.ts:4 | `verifyToken` falls back to the secret "your_secret_key"; the signup and signin routes fall back to "your_jwt_secret" | `JWT_SECRET` unset, then any token from signin sent as `Bearer <token>` | one secret shared by signer and verifier | high, not executed | `Session.DefaultSecretsDisagree` | `Session.SharedSecretAcceptsIssuedTokens` |
| src/app/components/PortfolioMetrics.tsx:32-34 | `(currentValue - totalInvested) / totalInvested * 100` with no guard | an empty portfolio: 0 / 0 gives NaN, shown as a red "↓ NaN%" | a zero change when nothing is invested | medium, not executed | `PortfolioMetricsView.EmptyPortfolioShowsNaN` | `PortfolioMetricsView.GuardedChangeBadge` |
| src/components/WelcomeMsg.tsx:12 | the stored `JSON.stringify(name)` is read back by stripping its outer quotes | the name `a"b` is stored as `"a\"b"` and greeted as `a\"b` | `JSON.parse` of the stored value | medium, not executed | `Welcome.QuoteInNameShownEscaped` | `Welcome.LoadUsernameParsed` |
