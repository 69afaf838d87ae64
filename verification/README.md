# EcoMapa core, modelled in Dafny

EcoMapa is a map of sustainability points ("ecopontos") with donations to
them and payouts to their owners. This project models its bookkeeping and
the small validators, parsers and formatters around it:

- the withdrawal request processor: the guard chain, the 10% platform fee,
  the `pending` withdrawal it appends and the history query (`withdrawals.dfy`);
- donation status reconciliation by the MercadoPago and Stripe webhooks
  (`donations.dfy`) and the donation creation guard (`payment_intent.dfy`);
- the review update-or-insert with its reputation increment (`reviews.dfy`);
- validation tokens and the two routes around them (`tokens.dfy`,
  `validation_routes.dfy`);
- the client-side logic of the pages:
  - the withdrawal form (`withdrawal_form.dfy`);
  - the donations dashboard (`donations_dashboard.dfy`);
  - the profile pages (`profile.dfy`, `passwords.dfy`);
  - sign-up (`signup.dfy`);
  - the donation modal (`donation_modal.dfy`);
  - categories and the category filter (`categories.dfy`, `category_filter.dfy`);
  - the `POINT(lng lat)` reader of `useEcopoints` (`ecopoint_locations.dfy`);
  - the import page (`importer.dfy`);
  - cluster sizes (`marker_cluster.dfy`);
  - the owner's ecopoint list (`my_points.dfy`).

`common.dfy` holds the shared pieces:

- an option type;
- JavaScript's `trim` and one-character `split`;
- the filter and sum idioms;
- an `ORDER BY key DESC` on query results. The model keeps rows with equal
  keys in their input order.

`schema.dfy` holds the ecopoint and donation rows and their status enums.

Conventions:

- **Money.** Money is integer cents. The withdrawal fee and net amount are
  `real`, because the source takes 10% of the gross amount without rounding.
  The donation modal keeps its amount in reais as a `real`, as the page does.
- **Stateful code.** Code that updates state step by step is modelled as a
  class with `modifies` clauses. Examples are the withdrawal ledger, the
  donations and reviews tables, and the form states. The import results are
  an `array` updated in place.
- **Pure code.** Pure mappings and guard chains are functions.
- **External calls.** The hosted database functions (`get_available_balance`,
  `validate_pix_key`, `increment_user_reputation`,
  `get_ecopoints_with_location`) enter as function values or as their
  results. So do the payment SDK calls, Resend and the Google Places search.
  Nothing is assumed about their bodies: a reputation increment is recorded
  as a request.
- **Token primitives.** HMAC-SHA256, base64url and JSON are the function
  values of a `Codec`. The ghost predicate `Sound` states the only facts the
  token format relies on: encoding round-trips, and no "." inside an
  encoding or a digest.

Notable behaviours of the code:

- The withdrawal handler checks the available balance before the PIX key
  format.
- The webhooks update a donation's status whatever its prior status was.
  There is no terminal-state guard: a late failure overwrites a completion,
  and a repeated approval asks for the reputation increment again.
- The fee is not rounded.
- The MercadoPago webhook checks no signature.
- The in-flight lookup uses `maybeSingle`, which finds a row only when
  exactly one matches. Under the ledger invariant (at most one in-flight
  withdrawal per ecopoint) a lookup whose query succeeds finds a row
  exactly when some row matches.
- The withdrawal in-flight lookup and the review lookup keep only `data`
  and drop the query's error. A failed lookup reads as "none found", so the
  handler inserts a second in-flight withdrawal, or a second review with a
  second +5 points / +1 review reputation request.

## Model

| member | source | states |
|---|---|---|
| Withdrawals.ParsePixKeyType | src/app/api/withdrawals/request/route.ts:59-65 | a key type is accepted exactly when it is one of CPF, CNPJ, EMAIL, PHONE, RANDOM, and the accepted value names that same text |
| Withdrawals.HttpStatus | src/app/api/withdrawals/request/route.ts:30-186 | 401 exactly for a missing caller, 500 exactly for a failed balance read, PIX validation, insert or query, and otherwise 400, 403 or 404 |
| Withdrawals.FirstRefusal | src/app/api/withdrawals/request/route.ts:27-157 | the guards in source order yield no refusal exactly when all of them hold together (`Acceptable`); no caller is refused first, and an insert or query failure is never a guard's reason |
| Withdrawals.Fees | src/app/api/withdrawals/request/route.ts:161-162 | the fee and the net amount add up to the gross amount, and the fee is one tenth of it |
| Withdrawals.Decide | src/app/api/withdrawals/request/route.ts:27-157 | a request is approved exactly when every guard holds (the conjunction `Acceptable`); an approval carries the caller, the parsed amount (at least R$ 10.00), the key and its type, and the caller owns the ecopoint |
| Withdrawals.FeesSplitGross | src/app/api/withdrawals/request/route.ts:162-163 | fee + net = gross, fee is one tenth of gross and net nine tenths, and for a non-negative gross 0 <= fee <= net <= gross |
| Withdrawals.NewRecord | src/app/api/withdrawals/request/route.ts:166-180 | the inserted row is `pending`, belongs to the caller and the ecopoint, keeps amount, key and key type, and splits the gross amount into fee and net |
| Withdrawals.BelowMinimumRefused | src/app/api/withdrawals/request/route.ts:47-56 | a NaN amount or one below R$ 10.00 is refused with 400 |
| Withdrawals.PixKeyTypeRefused | src/app/api/withdrawals/request/route.ts:59-65 | a key type outside the five allowed ones is refused |
| Withdrawals.OwnershipRefused | src/app/api/withdrawals/request/route.ts:74-89 | a missing ecopoint is refused as not found (404) and another owner's ecopoint as forbidden (403) |
| Withdrawals.ApprovedIsFunded | src/app/api/withdrawals/request/route.ts:111-133 | an approved request had a balance that was read and covers the gross amount |
| Withdrawals.InFlightCountZero | src/app/api/withdrawals/request/route.ts:92-108 | no in-flight row of the ecopoint is counted exactly when none exists |
| Withdrawals.InFlightCountAtMostOne | src/app/api/withdrawals/request/route.ts:92-108 | under the ledger invariant an ecopoint has at most one in-flight withdrawal, so a `maybeSingle` lookup whose query succeeds sees it whenever it exists |
| Withdrawals.AppendKeepsAtMostOne | src/app/api/withdrawals/request/route.ts:92-108 | appending a withdrawal for an ecopoint with none in flight keeps the one-in-flight invariant |
| Withdrawals.CountAppend | src/app/api/withdrawals/request/route.ts:92-99 | appending a row adds one to the in-flight count of its ecopoint exactly when it is in flight |
| Withdrawals.SecondRequestRefused | src/app/api/withdrawals/request/route.ts:92-108 | once a withdrawal is in flight for an ecopoint, any further request for it whose lookup succeeds is refused |
| Withdrawals.LookupView | src/app/api/withdrawals/request/route.ts:92-97 | a successful lookup sees the table; a failed one, whose error is dropped, finds no in-flight withdrawal for any ecopoint |
| Withdrawals.FailedLookupAdmitsSecond | src/app/api/withdrawals/request/route.ts:92-108 | when the lookup fails while a withdrawal is in flight, a request that passes the other guards is inserted and leaves two in flight, breaking the invariant |
| Withdrawals.WithdrawalLedger.Request | src/app/api/withdrawals/request/route.ts:17-188 | a withdrawal is created exactly when the decision over what the lookup saw approves and the insert succeeds; then exactly `NewRecord` is appended and the ecopoint gains one in-flight withdrawal; when the lookup succeeds the invariant is kept and the ecopoint has exactly one; a refusal leaves the table unchanged and carries the first failing guard (or the insert failure) |
| Withdrawals.GetHistory | src/app/api/withdrawals/request/route.ts:297-341 | 401 without a caller, 500 when the query fails; otherwise only the caller's rows (of the chosen ecopoint, when given) |
| Withdrawals.HistoryIsOrderedSelection | src/app/api/withdrawals/request/route.ts:325-332 | the history is a permutation of the caller's matching rows, holds every one of them, and is ordered by `created_at` descending |
| Donations.IdText | src/app/api/webhooks/mercadopago/route.ts:30 | a missing provider id reads as "" and a present one as its text |
| Donations.MercadoPagoTransition | src/app/api/webhooks/mercadopago/route.ts:28-46 | "approved" completes, "rejected" and "cancelled" fail, every other status changes nothing; the payment id and the donor come from the payment |
| Donations.MercadoPagoDispatch | src/app/api/webhooks/mercadopago/route.ts:10-52 | a non-payment notification is answered 200, a payment without id 400, a failed fetch 500; only a fetched payment is dispatched |
| Donations.StripeTransition | src/app/api/webhooks/stripe/route.ts:28-51 | `succeeded` completes, `payment_failed` and `canceled` fail, other types change nothing; the intent id and donor are carried |
| Donations.StripeDispatch | src/app/api/webhooks/stripe/route.ts:10-26 | a missing signature header and a rejected signature are both 400; only a verified event is dispatched |
| Donations.SetStatusWhere | src/app/api/webhooks/mercadopago/route.ts:59-65 | the update keeps the number of rows |
| Donations.NextRows | src/app/api/webhooks/mercadopago/route.ts:55-109 | the table keeps its rows and only their status can change; without a successful update or a status change it is unchanged, and otherwise exactly the rows with the payment id get completed or failed |
| Donations.ReputationRequests | src/app/api/webhooks/mercadopago/route.ts:73-89 | one +10 points / +1 donation request is made exactly after a successful completion update with a donor; none otherwise |
| Donations.ResponseStatus | src/app/api/webhooks/mercadopago/route.ts:49-52 | a status change answers 200 exactly when its update succeeded; a no-op answers 200 |
| Donations.DonationTable.SetStatus | src/app/api/webhooks/mercadopago/route.ts:59-65 | the loop leaves the table equal to `SetStatusWhere` of the old table and requests no reputation |
| Donations.DonationTable.Handle | src/app/api/webhooks/stripe/route.ts:58-125 | the table becomes `NextRows`, the requested increments grow by `ReputationRequests`, and the answer is `ResponseStatus` |
| Donations.DonationTable.MercadoPagoWebhook | src/app/api/webhooks/mercadopago/route.ts:10-112 | the MercadoPago handler's effect on the table, the reputation requests and its answer |
| Donations.DonationTable.StripeWebhook | src/app/api/webhooks/stripe/route.ts:10-125 | the Stripe handler's effect on the table, the reputation requests and its answer |
| Donations.SetStatusWhereEffect | src/app/api/webhooks/mercadopago/route.ts:59-65 | every row with the payment id gets the new status; every other row is unchanged; no row changes anything but its status |
| Donations.SetStatusKeepsAmounts | src/app/api/webhooks/stripe/route.ts:62-66 | a status update never changes the sum of the amounts |
| Donations.SetStatusIdempotent | src/app/api/webhooks/mercadopago/route.ts:59-65 | writing the same status twice equals writing it once |
| Donations.NonPaymentNotificationIgnored | src/app/api/webhooks/mercadopago/route.ts:13-15 | a notification that is not a payment is acknowledged with no change and no reputation request |
| Donations.MissingPaymentIdRejected | src/app/api/webhooks/mercadopago/route.ts:18-22 | a payment notification without id answers 400 and changes nothing |
| Donations.MercadoPagoApprovedCompletes | src/app/api/webhooks/mercadopago/route.ts:29-31 | an approved payment completes every donation with its id, leaves the others untouched, and answers 200 |
| Donations.MercadoPagoOtherStatuses | src/app/api/webhooks/mercadopago/route.ts:33-45 | "rejected" and "cancelled" fail the matching donations; any other status changes nothing and answers 200 |
| Donations.UpdateFailureIs500 | src/app/api/webhooks/mercadopago/route.ts:67-70 | a failed donation update answers 500, changes nothing and requests no reputation |
| Donations.FailureOverwritesCompleted | src/app/api/webhooks/mercadopago/route.ts:98-104 | with no prior-status guard, a failure after a completion turns the completed donations into failed ones |
| Donations.RepeatedApprovalRewardsTwice | src/app/api/webhooks/mercadopago/route.ts:59-89 | a repeated approval leaves the table as one does, but requests the reputation increment twice |
| Donations.StripeSignatureGate | src/app/api/webhooks/stripe/route.ts:12-24 | a missing or rejected signature answers 400 with no change and no reputation request |
| Donations.StripeEventEffects | src/app/api/webhooks/stripe/route.ts:35-51 | `payment_failed` and `canceled` have the same effect as a failure; other event types are acknowledged with no change |
| Donations.ProvidersAgreeOnSuccess | src/app/api/webhooks/stripe/route.ts:58-89 | a MercadoPago approval and a Stripe success for the same id and donor have the same effect on the table and on reputation |
| PaymentIntent.Guard | src/app/api/create-payment-intent/route.ts:10-66 | the checks fail in order (amount, ecopoint id, caller); the guard passes exactly for an amount in [200, 100000] cents, a caller, and an existing, validated ecopoint that accepts donations |
| PaymentIntent.HttpStatus | src/app/api/create-payment-intent/route.ts:13-119 | 401 exactly for a missing caller, 500 exactly when the provider or the insert failed, and otherwise 400 or 404 |
| PaymentIntent.AmountCheckedBeforeAuth | src/app/api/create-payment-intent/route.ts:10-15 | an out-of-range amount is refused with 400 whoever the caller is |
| PaymentIntent.EcopointGate | src/app/api/create-payment-intent/route.ts:42-66 | a missing ecopoint is refused as not found, a non-validated one as not validated, one without donations as disabled |
| PaymentIntent.PendingDonation | src/app/api/create-payment-intent/route.ts:87-95 | the inserted donation is `pending`, the caller's, for the ecopoint, of the requested amount within the bounds, with the provider id or "" |
| PaymentIntent.CreatePaymentIntent | src/app/api/create-payment-intent/route.ts:8-114 | the provider is called exactly when the guard passes; one pending donation is appended exactly when the provider and the insert succeed; a failed insert after the provider call answers 500 |
| Reviews.StoredComment | src/app/api/reviews/route.ts:71-72 | the stored comment is the trimmed text, never empty and with no white space at either end, or null for a missing or blank comment |
| Reviews.Guard | src/app/api/reviews/route.ts:9-55 | 401 without a caller, then 400 for missing fields; the guard passes exactly for a caller, a rating in 1..5 and an existing, validated ecopoint |
| Reviews.HttpStatus | src/app/api/reviews/route.ts:14-136 | 401 exactly for a missing caller, 500 exactly when the write failed, and otherwise 400 or 404 |
| Reviews.GuardOrder | src/app/api/reviews/route.ts:28-55 | a rating outside 1..5 is refused first, then a missing ecopoint, then a non-validated one |
| Reviews.FindReview | src/app/api/reviews/route.ts:58-63 | the lookup finds a review by the caller for the ecopoint, or there is none |
| Reviews.ReviewTable.Submit | src/app/api/reviews/route.ts:58-131 | a review the lookup reports is rewritten in place (same id, ecopoint and user) without reputation; otherwise one review is appended with a +5 points / +1 review request; a refusal or failed write changes nothing, and a failed write answers the update failure when the lookup reported a review and the insert failure otherwise; with a successful lookup at most one review per user and ecopoint is kept |
| Reviews.ExistingReview | src/app/api/reviews/route.ts:58-63 | the `maybeSingle` lookup reports only a review the pair really has, and nothing at all when its query fails (the error is dropped) |
| Reviews.SuccessfulLookupFinds | src/app/api/reviews/route.ts:58-63 | under the table invariant a successful lookup reports the pair's review exactly when it exists |
| Reviews.FailedLookupDuplicatesReview | src/app/api/reviews/route.ts:58-101 | when the lookup fails for a pair that has a review, nothing is reported and the appended review breaks the one-review-per-user invariant |
| Reviews.FoundCounts | src/app/api/reviews/route.ts:58-63 | a review the search finds is counted |
| Reviews.AtMostOneReview | src/app/api/reviews/route.ts:58-101 | under the table invariant each (user, ecopoint) pair has at most one review, so a successful lookup never sees two rows |
| Reviews.NoneBy | src/app/api/reviews/route.ts:58-101 | when the last review is the pair's, no earlier review is |
| Reviews.ZeroWhenAbsent | src/app/api/reviews/route.ts:58-63 | a pair with no review counts zero |
| Tokens.Generate | src/lib/tokens.ts:26-34 | a token is the encoded payload (non-empty, no "."), one ".", then the HMAC of the encoded payload |
| Tokens.FirstTwo | src/lib/tokens.ts:42 | the two pieces taken from the split contain no "." |
| Tokens.Verify | src/lib/tokens.ts:40-70 | a token verifies only with both pieces non-empty, the signature equal to the HMAC of the first, the decoded payload as the result, and now <= expiresAt |
| Tokens.GeneratedSplits | src/lib/tokens.ts:26-34 | a generated token splits into exactly its payload and its signature |
| Tokens.RoundTrip | src/lib/tokens.ts:16-66 | before or at expiry, a generated token verifies to its own payload |
| Tokens.ExpiredRefused | src/lib/tokens.ts:62-64 | after `expiresAt` the token is refused |
| Tokens.Rejections | src/lib/tokens.ts:42-55 | an empty piece, or a signature that is not the payload's HMAC, is refused |
| Tokens.ExtraPiecesIgnored | src/lib/tokens.ts:42 | text after a second "." does not change the verdict |
| ValidationRoutes.VerifyTokenRoute | src/app/api/verify-token/route.ts:9-41 | a missing token and a failed verification are refused; success, exactly for an existing ecopoint that is not yet validated, returns that ecopoint and the token data |
| ValidationRoutes.VerifyStatus | src/app/api/verify-token/route.ts:10-34 | 200 exactly for a verified token, 404 exactly for a missing ecopoint, 400 for every other refusal |
| ValidationRoutes.VerifyTokenLookups | src/app/api/verify-token/route.ts:28-35 | a verified token for a missing ecopoint gives 404, for a validated one 400 |
| ValidationRoutes.SendGuard | src/app/api/send-validation-email/route.ts:15-72 | 401 without a caller, then 400 for a missing field; the guard passes exactly for an existing, not validated ecopoint imported by the caller, with e-mail configured |
| ValidationRoutes.SendStatus | src/app/api/send-validation-email/route.ts:16-122 | 401 exactly for a missing caller, 500 exactly when e-mail is not configured or the send failed, and otherwise 400, 403 or 404 |
| ValidationRoutes.SendGuardOrder | src/app/api/send-validation-email/route.ts:38-56 | a missing ecopoint gives 404, then another importer 403, then an already validated ecopoint 400 |
| ValidationRoutes.InviteFor | src/app/api/send-validation-email/route.ts:75-81 | the invitation goes to the ecopoint e-mail, with the default text for a missing address and a token for the id and e-mail |
| ValidationRoutes.EcopointTable.SendValidationEmail | src/app/api/send-validation-email/route.ts:15-114 | a refusal carries the first failing check; the invitation is sent exactly when the checks pass and Resend reports no error; only then, and if the update succeeds, `validation_email_sent` is set on that one row |
| ValidationRoutes.InviteTokenVerifies | src/lib/tokens.ts:16-66 | the token of an invitation, used before it expires on a still pending ecopoint, verifies to that ecopoint and e-mail |
| WithdrawalForm.FindOwned | src/app/dashboard/solicitar-saque/page.tsx:132 | the selected ecopoint is found among the owned ones by id, or no owned ecopoint has that id |
| WithdrawalForm.FormGuard | src/app/dashboard/solicitar-saque/page.tsx:121-155 | no ecopoint chosen fails first, then an amount below R$ 10.00 |
| WithdrawalForm.FormGuardPasses | src/app/dashboard/solicitar-saque/page.tsx:121-155 | the form sends exactly when an ecopoint is chosen and known, the amount is at least R$ 10.00 and at most its balance, the key is not blank, and the confirmation is ticked |
| WithdrawalForm.CalculateFees | src/app/dashboard/solicitar-saque/page.tsx:198-209 | no preview for a non-numeric amount; otherwise fee + net = amount and fee is one tenth of it |
| WithdrawalForm.PreviewMatchesStoredRecord | src/app/dashboard/solicitar-saque/page.tsx:198-209 | the preview equals the fee and net the server stores for the same amount |
| WithdrawalForm.Form.Submit | src/app/dashboard/solicitar-saque/page.tsx:115-196 | a failing check sets its error and sends nothing; otherwise the request with the trimmed key is sent; an accepted one resets ecopoint, amount, key and confirmation and then reloads the ecopoints, so the next request is checked against the reloaded balances, or sets the reload's error when the reload fails; a refused or failed request keeps the ecopoints |
| WithdrawalForm.Form.Refresh | src/app/dashboard/solicitar-saque/page.tsx:63-111 | the error is cleared and the ecopoints become the reloaded list, or, when the ecopoint query fails, the list is kept and the error is set; the form fields are untouched |
| WithdrawalForm.FormRequestPassesBodyChecks | src/app/dashboard/solicitar-saque/page.tsx:165-170 | a request the form sends passes the server's field and minimum-amount checks |
| WithdrawalForm.LastFour | src/app/dashboard/solicitar-saque/page.tsx:643 | the last four characters, or all of a shorter key |
| WithdrawalForm.MaskPixKey | src/app/dashboard/solicitar-saque/page.tsx:640-653 | CPF, CNPJ and PHONE show "***" and the last four characters; RANDOM and unknown types show the key |
| WithdrawalForm.MaskEmail | src/app/dashboard/solicitar-saque/page.tsx:645-650 | an e-mail key shows at most three characters of the user part, "***@", then the domain |
| WithdrawalForm.MaskHidesPrefix | src/app/dashboard/solicitar-saque/page.tsx:641-644 | two CPF, CNPJ or phone keys with the same last four characters mask alike |
| WithdrawalForm.StatusLabel | src/app/dashboard/solicitar-saque/page.tsx:655-668 | any status other than the four known ones is shown as it is |
| WithdrawalForm.StatusLabelsDistinct | src/app/dashboard/solicitar-saque/page.tsx:655-668 | the four statuses get four distinct labels, none of them the raw name |
| DonationsDashboard.GroupOf | src/app/dashboard/doacoes/page.tsx:70-90 | an entry holds exactly the donations of its ecopoint, and its count is at most their number |
| DonationsDashboard.Grouped | src/app/dashboard/doacoes/page.tsx:68-92 | one entry per owned ecopoint, in order |
| DonationsDashboard.Swap | src/app/dashboard/doacoes/page.tsx:94 | a swap exchanges two entries and keeps the multiset |
| DonationsDashboard.SinkLeft | src/app/dashboard/doacoes/page.tsx:94 | one insertion step extends the sorted prefix and keeps the multiset |
| DonationsDashboard.SortByTotalDesc | src/app/dashboard/doacoes/page.tsx:94 | the in-place sort leaves the entries ordered by total received, largest first, as a permutation |
| DonationsDashboard.FetchDonations | src/app/dashboard/doacoes/page.tsx:39-103 | a failed ecopoints or donations query sets "Erro ao carregar doações…" and keeps the previous list; no owned ecopoint gives the empty list; otherwise a permutation of the grouping sorted by total received |
| DonationsDashboard.GroupTotalsAreCompletedOnly | src/app/dashboard/doacoes/page.tsx:75-90 | an entry's total and count are the sum and the number of its completed donations only |
| DonationsDashboard.CompletedInUnion | src/app/dashboard/doacoes/page.tsx:127-135 | completed sums and counts over disjoint ecopoint sets add up |
| DonationsDashboard.CompletedInNone | src/app/dashboard/doacoes/page.tsx:127-135 | no ecopoint has a zero sum and a zero count |
| DonationsDashboard.OverallTotals | src/app/dashboard/doacoes/page.tsx:127-135 | the overall totals are the completed sum and count over all owned ecopoints |
| DonationsDashboard.SortKeepsTotals | src/app/dashboard/doacoes/page.tsx:127-135 | sorting changes neither overall total nor the number of active ecopoints |
| DonationsDashboard.ActiveCount | src/app/dashboard/doacoes/page.tsx:222 | the active count lies between 0 and the number of entries |
| DonationsDashboard.ActiveCountIsSum | src/app/dashboard/doacoes/page.tsx:222 | the active count is the number of entries with at least one completed donation |
| DonationsDashboard.NewDonationEffect | src/app/dashboard/doacoes/page.tsx:75-90 | a new non-completed donation changes no total; a completed one adds its amount and one to its ecopoint |
| DonationsDashboard.CompletedInAppend | src/app/dashboard/doacoes/page.tsx:75-90 | one more donation adds its amount and one only when it is completed and of a chosen ecopoint |
| DonationsDashboard.StatusBadgeLabel | src/app/dashboard/doacoes/page.tsx:105-125 | other statuses are shown as they are |
| DonationsDashboard.StatusBadgesDistinct | src/app/dashboard/doacoes/page.tsx:105-125 | the three statuses get three distinct labels, none of them the raw name |
| Passwords.PasswordGuard | src/app/dashboard/perfil/page.tsx:153-161 | a password passes exactly when it has at least 8 characters and equals its confirmation; a mismatch is reported only for a long enough password |
| Passwords.LengthFirst | src/app/perfil/page.tsx:105-113 | a short password is reported as short even when the confirmation differs too |
| Profile.RecentDonations | src/app/dashboard/perfil/page.tsx:60-71 | the user's donations, newest first: all of them when there are at most ten, otherwise ten, with no left-out donation of the user newer than a returned one; the result is a sub-multiset of the user's rows |
| Profile.PrefixOfOrdered | src/app/dashboard/perfil/page.tsx:69-70 | the first k rows of an ordering of the user's donations are among them, still ordered, and no left-out row is newer than a kept one |
| Profile.TotalDonatedCountsCompletedOnly | src/app/perfil/page.tsx:152-154 | the total donated sums completed amounts only, and the shown count is the number of completed donations |
| Profile.NotCompletedIgnored | src/app/dashboard/perfil/page.tsx:194-196 | a pending or failed donation changes neither the total nor the count |
| Profile.TotalDonatedNonNegative | src/app/dashboard/perfil/page.tsx:194-196 | with non-negative amounts the total is non-negative |
| Profile.ProfileStatusLabel | src/app/perfil/page.tsx:359-361 | anything but completed or pending is shown as "Falhou" |
| Profile.ProfileStatusLabelsDistinct | src/app/perfil/page.tsx:359-361 | the three database statuses get three different labels |
| Profile.ReputationAfterFetch | src/app/dashboard/perfil/page.tsx:94-114 | an error other than "no rows" keeps the shown reputation; no row gives all zeros; a row has missing figures read as 0 |
| Profile.GetNextBadge | src/app/dashboard/perfil/page.tsx:199-237 | the target is the first of 3, 10, 25 above the donation count, and from 25 donations on the badge is complete with target = current |
| Profile.Progress | src/app/dashboard/perfil/page.tsx:240-242 | 0 without a badge, otherwise the percentage `current / target * 100` (progress times target equals current times 100) |
| Profile.ProgressBarWidth | src/app/dashboard/perfil/page.tsx:493-503 | the bar is drawn only for a badge still to earn, at most 100 wide |
| Profile.ProgressBelowHundred | src/app/dashboard/perfil/page.tsx:239-242 | for a badge still to earn, progress lies in [0, 100) and the cap never applies; the complete badge is exactly 100 |
| Profile.ErrorMessage | src/app/dashboard/perfil/page.tsx:140 | the error's own message is shown when it is not empty, and the fallback exactly when it is empty |
| Profile.ProfileForm.UpdateName | src/app/dashboard/perfil/page.tsx:121-145 | nothing happens without a user or with a blank name; otherwise the name is sent and either the success message (closing the editor) or the error is set |
| Profile.ProfileForm.ChangePassword | src/app/perfil/page.tsx:99-134 | the length and confirmation checks come before any call; a sent password passed them, and a success clears both fields |
| Signup.SignupGuard | src/app/cadastro/page.tsx:25-38 | short password first, then mismatch, then terms; the guard passes exactly when all three hold |
| Signup.SignupForm.Submit | src/app/cadastro/page.tsx:20-50 | `signUp(email, password, name)` is called exactly when every check passes; an error clears loading; success sets the success flag |
| Signup.SignUpCallIsChecked | src/app/cadastro/page.tsx:40-49 | a sign-up that reaches the provider has a password of at least 8 characters, equal to its confirmation, with the terms accepted |
| DonationModal.Round | src/components/Donation/DonationModal.tsx:126 | `Math.round` gives the integer within half of its argument, halves rounding up |
| DonationModal.Cents | src/components/Donation/DonationModal.tsx:126 | the cents sent are the integer nearest to the amount times 100, halves rounding up |
| DonationModal.WholeReais | src/components/Donation/DonationModal.tsx:126 | a whole number of reais is sent as exactly a hundred times as many cents |
| DonationModal.ModalBoundsMatchServer | src/components/Donation/DonationModal.tsx:108-126 | an amount the modal accepts becomes a number of cents the server accepts |
| DonationModal.DecimalText | src/components/Donation/DonationModal.tsx:167 | a number's text is a non-empty run of digits without a leading zero |
| DonationModal.DecimalRoundTrip | src/components/Donation/DonationModal.tsx:167 | reading a number's text back gives the number |
| DonationModal.Pad2 | src/components/Donation/DonationModal.tsx:168 | the seconds are two digits that read back as the seconds |
| DonationModal.FormatTime | src/components/Donation/DonationModal.tsx:166-170 | the countdown text is digits, ":" and two more digits |
| DonationModal.FormatTimeRoundTrip | src/components/Donation/DonationModal.tsx:166-170 | minutes times 60 plus seconds, read from the text, give the formatted number |
| DonationModal.StartShowsFiveMinutes | src/components/Donation/DonationModal.tsx:31 | the countdown starts at "5:00", and 65 seconds show as "1:05" |
| DonationModal.ModalState.constructor | src/components/Donation/DonationModal.tsx:22-31 | the modal opens on the select step with R$ 10 and 300 seconds |
| DonationModal.ModalState.Close | src/components/Donation/DonationModal.tsx:34-49 | closing resets step, amount, custom text, error, payment and countdown |
| DonationModal.ModalState.ChooseAmount | src/components/Donation/DonationModal.tsx:92-96 | a suggested amount becomes the amount and clears the custom text and the error; step, payment, QR code, PIX code, expiry, countdown and loading flag are unchanged |
| DonationModal.ModalState.ChangeCustomAmount | src/components/Donation/DonationModal.tsx:98-105 | the text is kept, and the amount changes (clearing the error) only for a number of at least R$ 2; every other field is unchanged |
| DonationModal.ModalState.CreatePayment | src/components/Donation/DonationModal.tsx:107-157 | refused without a user or out of bounds, changing only the error; otherwise `Math.round(amount*100)` cents are sent, and the step moves to the QR code only with PIX details; an error reply or missing details leave step, QR code, PIX code and expiry as they were; amount, custom text and countdown never change |
| DonationModal.ModalState.PollStatus | src/components/Donation/DonationModal.tsx:52-70 | the QR code step moves to success only on "succeeded" or "completed"; no other field changes |
| DonationModal.ModalState.Tick | src/components/Donation/DonationModal.tsx:73-90 | at or past expiry the step goes back to select with an error; before it the remaining seconds are shown; amount, custom text, payment, QR code, PIX code, expiry and loading flag never change |
| DonationModal.ModalState.Cancel | src/components/Donation/DonationModal.tsx:299 | cancel goes back to the select step and changes nothing else |
| DonationModal.OnlyUpperBoundRefuses | src/components/Donation/DonationModal.tsx:112-116 | as the amount never drops below R$ 2, only an amount above R$ 1,000 is refused |
| Categories.CategorySlugs | src/lib/constants/categories.ts:1-42 | the slugs are the table's keys in declaration order |
| Categories.Lookup | src/lib/constants/categories.ts:44-46 | the lookup finds an entry exactly for a slug in the table, and returns that entry's information |
| Categories.EightDistinctSlugs | src/lib/constants/categories.ts:1-42 | the table holds exactly eight distinct slugs |
| Categories.GetCategoryInfo | src/lib/constants/categories.ts:44-46 | a known slug gets its entry; an unknown one gets its own name, the pin icon and grey |
| Categories.KnownSlugsHaveOwnIcon | src/lib/constants/categories.ts:1-46 | a known slug never shows the default pin nor its raw slug |
| Categories.GetPrimaryCategory | src/lib/constants/categories.ts:48-53 | no categories gives "Sem categoria"; otherwise the first category's information |
| Categories.PrimaryDependsOnFirst | src/lib/constants/categories.ts:52 | only the first category decides the primary one |
| CategoryFilter.Toggle | src/components/Filters/CategoryFilter.tsx:11-17 | a selected slug is removed everywhere and the rest kept; another slug is appended |
| CategoryFilter.SelectAll | src/components/Filters/CategoryFilter.tsx:19-21 | select-all gives the eight slugs, exactly those with their own icon |
| CategoryFilter.ClearAll | src/components/Filters/CategoryFilter.tsx:23-25 | clear gives the empty selection |
| CategoryFilter.ToggleOffKeepsOrder | src/components/Filters/CategoryFilter.tsx:12-13 | removing a slug keeps the other slugs in their order |
| CategoryFilter.FilterKeepsAll | src/components/Filters/CategoryFilter.tsx:12-13 | removing an absent slug changes nothing |
| CategoryFilter.ToggleTwice | src/components/Filters/CategoryFilter.tsx:11-17 | toggling an unselected slug twice restores the selection |
| CategoryFilter.ToggleKeepsNoDuplicates | src/components/Filters/CategoryFilter.tsx:11-17 | toggling keeps a selection free of duplicates |
| CategoryFilter.FilterNoDuplicates | src/components/Filters/CategoryFilter.tsx:12-13 | filtering keeps a selection free of duplicates |
| EcopointLocations.TakeUntil | src/hooks/useEcopoints.ts:77-84 | the longest prefix without the stop character, followed by it when shorter than the text |
| EcopointLocations.MatchAt | src/hooks/useEcopoints.ts:77-84 | a match at a position spells `POINT(`, a non-empty group without spaces, a space, a non-empty group without ")", and ")" |
| EcopointLocations.MatchFrom | src/hooks/useEcopoints.ts:77-84 | the leftmost match from a position, or no match anywhere after it |
| EcopointLocations.MatchPoint | src/hooks/useEcopoints.ts:108-115 | the two groups of the first match, or no match anywhere |
| EcopointLocations.PointTextMatches | src/hooks/useEcopoints.ts:79-83 | the pattern reads back the two texts of `POINT(lng lat)` |
| EcopointLocations.MatchesAtStart | src/hooks/useEcopoints.ts:79-83 | `POINT(lng lat)` matches at its start with those two groups |
| EcopointLocations.TakeUntilStopsAt | src/hooks/useEcopoints.ts:79-83 | the group stops exactly at the first separator |
| EcopointLocations.Coordinates | src/hooks/useEcopoints.ts:73-96 | an empty or non-matching text gives 0, 0; otherwise lat is the second group and lng the first, parsed |
| EcopointLocations.PathsAgree | src/hooks/useEcopoints.ts:86-126 | both paths build the same record from the same fields and location, fields carried unchanged |
| EcopointLocations.ImportedPointReadsBack | src/hooks/useEcopoints.ts:103-127 | a location written as `POINT(lng lat)` reads back as those coordinates on both paths |
| EcopointLocations.NoPointMeansOrigin | src/hooks/useEcopoints.ts:74-75 | a text without the pattern places the ecopoint at 0, 0 |
| EcopointLocations.EcopointsHook.Fetch | src/hooks/useEcopoints.ts:49-137 | the fallback runs exactly when the RPC fails; the list is the rows of whichever query answered, converted; a failing fallback keeps the list and sets its message |
| Importer.SearchGuard | src/app/dashboard/importar/page.tsx:59-67 | a blank query is refused first, then a missing or zero position; otherwise the search runs |
| Importer.HasPosition | src/app/dashboard/importar/page.tsx:64 | a missing latitude or longitude, or one equal to 0, counts as no position; two non-zero coordinates count as a position |
| Importer.Transformed | src/app/dashboard/importar/page.tsx:89-98 | a result starts with no category and not imported, at the place's position |
| Importer.ImportGuard | src/app/dashboard/importar/page.tsx:155-163 | no category is refused first, then no user |
| Importer.InsertRow | src/app/dashboard/importar/page.tsx:171-180 | the row is pending, imported by the user from Google Maps, with the address in the description, the user's or the fallback e-mail, and `POINT(lng lat)` as location |
| Importer.InsertedLocationReadsBack | src/app/dashboard/importar/page.tsx:171-180 | the inserted location reads back on the map as the place's coordinates |
| Importer.InviteAfterImport | src/app/dashboard/importar/page.tsx:202-221 | the invitation request names the new id, the place and the user's e-mail |
| Importer.StoredEcopoint | src/app/dashboard/importar/page.tsx:171-180 | the stored row has the new id, the importer and the pending status |
| Importer.InviteAfterImportIsAllowed | src/app/dashboard/importar/page.tsx:202-221 | that invitation passes every check of the e-mail route |
| Importer.WithCategory | src/app/dashboard/importar/page.tsx:148-152 | only entries with that id get the category list |
| Importer.MarkImported | src/app/dashboard/importar/page.tsx:195-197 | only entries with that id are marked imported |
| Importer.ImportedCount | src/app/dashboard/importar/page.tsx:236 | the imported count is at most the number of results |
| Importer.ImportedCountIsSum | src/app/dashboard/importar/page.tsx:236 | the imported count is the number of imported entries |
| Importer.MarkImportedCount | src/app/dashboard/importar/page.tsx:195-197 | with distinct ids, marking a not yet imported place adds exactly one to the count, and marking it again adds nothing |
| Importer.ImportPage.Search | src/app/dashboard/importar/page.tsx:58-114 | a refused search only sets its message; otherwise the success message is cleared and the results are the mock places, nothing, or the transformed places; the importing id never changes |
| Importer.ImportPage.CategoryChange | src/app/dashboard/importar/page.tsx:148-152 | the loop leaves the array equal to `WithCategory` of the old one |
| Importer.ImportPage.MarkAsImported | src/app/dashboard/importar/page.tsx:195-197 | the loop leaves the array equal to `MarkImported` of the old one |
| Importer.ImportPage.ImportPlace | src/app/dashboard/importar/page.tsx:154-234 | a refused import inserts nothing and only sets its message; otherwise `InsertRow` is inserted, a success marks the place imported, and the invitation is requested exactly with a new id and a user e-mail |
| MarkerCluster.Tier | src/components/Map/MarkerClusterGroup.tsx:34-46 | under 10 small/30, from 10 medium/40, from 20 large/50 |
| MarkerCluster.IconCreate | src/components/Map/MarkerClusterGroup.tsx:34-46 | the reassignments end on the tier of the count |
| MarkerCluster.DimensionMonotone | src/components/Map/MarkerClusterGroup.tsx:34-46 | a bigger cluster is never drawn smaller |
| MyPoints.KnownChips | src/app/dashboard/meus-pontos/page.tsx:202-211 | the chips are those of the slugs found in the category table, in order, one each, with that category's icon and name; unknown slugs show nothing |
| MyPoints.CategoryChips | src/app/dashboard/meus-pontos/page.tsx:202-217 | the chips of the known slugs among the first three, in order, with their icon and name, then the "+(n-3)" chip, last and exactly when there are more than three categories; at most as many category chips as categories when there are at most three |
| MyPoints.KnownSlugsGetChips | src/app/dashboard/meus-pontos/page.tsx:202-211 | when every slug is known, the i-th chip shows the i-th slug's icon and name |
| MyPoints.StatusBadge | src/app/dashboard/meus-pontos/page.tsx:99-115 | a label exactly for validated, pending and rejected |
| MyPoints.RowsAfterDelete | src/app/dashboard/meus-pontos/page.tsx:78-82 | the delete removes exactly the rows with that id owned by the caller |
| MyPoints.OtherOwnersUntouched | src/app/dashboard/meus-pontos/page.tsx:78-82 | another owner's ecopoint survives the delete |
| MyPoints.MyPointsPage.Delete | src/app/dashboard/meus-pontos/page.tsx:64-97 | nothing happens without a user or a confirmation; otherwise the delete is sent with id and owner, and only a success drops that id from the list |
| MyPoints.WithoutAbsentId | src/app/dashboard/meus-pontos/page.tsx:86-87 | dropping an id no entry has changes nothing |
| MyPoints.RemovesExactlyOne | src/app/dashboard/meus-pontos/page.tsx:86-87 | with distinct ids the list loses exactly that entry, keeping the order of the rest |
| MyPoints.WithoutAppend | src/app/dashboard/meus-pontos/page.tsx:86-87 | dropping an id distributes over concatenation |

## Left out

- I/O and external services are not modelled: e-mails (Resend), the Google
  Maps loader and search, the payment SDKs, and the database function
  bodies. They are parameters or function values, so no balance formula and
  no PIX key format is assumed. The withdrawal e-mails and the
  `send-donation-email` route are not part of this model, because they only
  notify.
- Concurrency is not modelled. The in-flight check, the balance read and the
  insert of a withdrawal are separate round trips, so two racing requests
  could both pass. The one-in-flight and one-review-per-user invariants are
  proved for sequential use with successful lookups only; a failed lookup
  breaks them even without a race (`FailedLookupAdmitsSecond`,
  `FailedLookupDuplicatesReview`).
- Timers are not modelled. The polling and countdown intervals and the
  timeouts are the callers of `PollStatus` and `Tick`.
- Floating point is not modelled:
  - the withdrawal amount's `parseFloat` (and its NaN) enters as an optional
    number;
  - EcopointLocations.Coordinates: the coordinate texts go through an
    abstract `string -> real`, so a NaN coordinate, as `POINT(abc def)`
    gives, is not represented;
  - `toFixed` display is left out;
  - amounts are exact cents or reais.
- Date arithmetic for `expiresAt` and the current clock are parameters.
- JSON, base64url and HMAC internals are abstract. Only the properties in
  `Sound` are assumed, as a precondition.
- The mock search results are random. They are a parameter of
  `Importer.ImportPage.Search`.
- JavaScript prototype keys (such as "constructor") looked up in
  `CATEGORY_MAP` are not modelled: the table is its eight entries only.
- Error messages are not modelled as text. Each failure is its own
  constructor with its HTTP status. The import page's failure text and the
  exception texts are left out.
- Review rating and comment values of other JSON types (strings, objects)
  are not modelled: the rating is an optional integer and the comment an
  optional text.
- The fallback query's database-side shape is not modelled: the rows arrive
  as given.
- The order of rows with equal keys under `ORDER BY ... DESC` is not
  modelled. The database promises no order among ties. `Common.OrderByDesc`
  keeps them in input order. `Withdrawals.GetHistory` and
  `Profile.RecentDonations` therefore fix one tie order among several the
  database may return. The ten rows `limit(10)` keeps may also differ when
  the tenth and eleventh donations share a timestamp.
- Passwords.PasswordGuard, Signup.SignupGuard, WithdrawalForm.LastFour,
  WithdrawalForm.MaskPixKey and WithdrawalForm.MaskEmail: lengths and slices
  count Unicode characters, not UTF-16 code units. JavaScript's `length`,
  `slice` and `substring` count code units. For text with characters beyond
  the Basic Multilingual Plane, such as emoji, the model's lengths are
  smaller. A password of four such characters is long enough for the code
  but short for the model.
- A request body that is not valid JSON is not modelled. In the routes,
  `request.json()` then throws, and the surrounding `catch` answers 500. The
  models take the body's fields as already read.
- The withdrawal page's reload reads the history as well as the balances.
  The history list of the page is not modelled, and neither are the
  `loading` flag and the way a failed balance read becomes 0.
- DonationsDashboard.FetchDonations: the page's `loading` flag and the
  early return without a signed-in user are not modelled; the method is the
  fetch of a signed-in user.
- Rendering, styling and the map components are left out.
- The cluster layer loop that clears and re-adds markers belongs to the map
  library and is left out.
