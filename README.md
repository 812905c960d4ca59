# Payeer payment plugin for Crowdfunding — a Dafny model

The plugin `plgCrowdfundingPaymentPayeer` (`payeer.php`) connects the
Crowdfunding component to the Payeer merchant gateway. This project models its
working core and proves properties about it:

- **Signing.** Both directions use one signature: the upper-cased hex SHA-256
  of an ordered field list joined with `:`. The hash function is a parameter.
  The lemmas show that the signature fixes the order and the content of the
  field list, as long as no field contains a `:`. Fields that do can move a
  boundary: `["a:b"]` and `["a", "b"]` join to the same text and sign alike.
- **Payment form** (`onProjectPayment`). The plugin trims the merchant id,
  generates an order id and binds it to the payment session. It then renders
  the six hidden fields `m_shop`, `m_orderid`, `m_amount`, `m_curr`, `m_desc`
  and `m_sign`. The amount is `number_format(amount, 2, '.', '')`, modelled on
  integer cents and proved to read back to the same cents.
- **Notification gatekeeping** (`onPaymentNotify`). The request must be a
  POST. The remote address must pass the `ip_filter` allow-list.
  `m_status` must read `success`. When `m_operation_id` is posted, `m_sign`
  must equal the signature over the ten notification fields and the secret.
  When it is not, the expected signature stays empty, so an empty `m_sign`
  passes. This is the third item under Findings.
- **`validateData`.** A pure validator. It builds a transaction draft whose
  investor, project and reward come from the payment session, never from the
  payload. It rejects, in this order: a missing project or transaction id, a
  currency mismatch, a receiver mismatch.
- **`storeTransaction`.** Upserts the transaction row keyed by `txn_id`. It
  leaves a completed row alone, and it credits the project exactly when the
  row becomes completed. Over any sequence of notifications, each `txn_id`
  is credited at most once.
- **The rest of the handler.** The reward id is cleared when the reward
  update fails. The payment session is closed for good. The result array and
  its response text are assembled.

The modules follow the source's structure:

- `Text`: strtoupper, strtolower, trim, implode/explode, Joomla's `cmd` input filter.
- `Amount`: the amount text.
- `Signing`: the signature.
- `Session`: the payment session.
- `Transaction`: the transaction columns.
- `Notification`: the allow-list, the signature gate and `validateData`.
- `Store`: `storeTransaction` and the project's funds.
- `Plugin`: the two entry points.

Code that updates objects in place is modelled as classes:

- `Session.PaymentSession`;
- `Store.Project`;
- `Store.TransactionTable`, whose `StoreTransaction` method is proved to follow
  the pure `Store.Commit`.

Three defects turned up in the source; they are listed under Findings. Each
is modelled twice: as written, with a lemma that exhibits the discrepancy,
and corrected, with the intended property proved. The notification handler
`Plugin.OnPaymentNotify` takes a flag `asWritten`. With it set, the handler
uses the written address check (`Notification.IpAllowed`), the written gate
(`Notification.Accepted`) and the written response (`Plugin.Response`).
With it clear, it uses the corrected `Notification.IpAllowedTrimmed`,
`Notification.AcceptedIntended` and `Plugin.IntendedResponse`. Both variants
are proved.

## Model

| member | source | states |
|---|---|---|
| `Text.Upper` | payeer.php:89 | strtoupper keeps the length; each lower-case letter becomes its upper-case partner (which lower-cases back to it), every other character is kept, and no lower-case letter is left |
| `Text.Lower` | payeer.php:390 | strtolower keeps the length; each upper-case letter becomes its lower-case partner (which upper-cases back to it), every other character is kept, and no upper-case letter is left |
| `Text.LowerOfUpper` | payeer.php:390 | lower-casing an upper-cased text gives the lower-cased text, so the comparison ignores letter case |
| `Text.Trim` | payeer.php:78 | trim leaves no whitespace at either end, and the result is the input with only whitespace removed before it and after it |
| `Text.TrimIdempotent` | payeer.php:78 | trimming twice gives what trimming once gives |
| `Text.Split` | payeer.php:174 | explode yields at least one piece, and no piece contains the separator |
| `Text.JoinSplit` | payeer.php:174 | implode undoes explode: joining the pieces with the separator gives back the text |
| `Text.SplitJoin` | payeer.php:174 | explode undoes implode for a non-empty list of separator-free pieces |
| `Text.JoinInjective` | payeer.php:112 | two non-empty separator-free lists that implode alike are equal |
| `Text.JoinPieces` | payeer.php:174 | for a non-empty list of separator-free pieces, a text is in the list exactly when it lies in the imploded text between two separators (or an end) and holds no separator |
| `Text.CmdFilter` | payeer.php:177 | the default input filter yields only letters, digits, `_`, `.`, `-`, never a leading dot, and never lengthens the input; the result is the input's allowed characters with a run of leading dots cut off, so every later dot survives |
| `Text.CmdFilterKeepsAllowed` | payeer.php:177 | every allowed character other than `.` survives the filter as often as it occurs, and no other character does |
| `Text.CmdFilterKeepsInnerDots` | payeer.php:177 | a value that starts with an allowed character other than `.`, such as an IPv4 address, loses only disallowed characters and keeps all its dots |
| `Text.CmdFilterKeepsOrder` | payeer.php:177 | the filtered value is a subsequence of the input: the kept characters appear in their original order |
| `Text.CmdFilterOfClean` | payeer.php:222 | the filter leaves an already clean value such as `success` unchanged |
| `Amount.FormatAmount` | payeer.php:106 | the amount text is digits, a `.` and exactly two digits, with no thousands separator |
| `Amount.DecimalRoundTrip` | payeer.php:106 | the decimal digits of a number read back to the number |
| `Amount.AmountRoundTrip` | payeer.php:106 | the formatted amount parses back to the cents it was formatted from |
| `Amount.NegatedAmountRoundTrip` | payeer.php:401 | a formatted amount behind a `-` reads back as the negated cents |
| `Amount.ParseAmount` | payeer.php:401 | a text with a value is not empty; its value is negative only behind a leading `-`, and never positive behind one |
| `Amount.AmountCents` | payeer.php:500-501 | a text with a value credits exactly that value, a text without one credits 0, and the credit is negative only for a leading `-` |
| `Amount.FormAmountCredited` | payeer.php:106 | the amount text the form sends credits exactly the pledged cents when posted back as `m_amount`, and the same text behind a `-` debits them |
| `Signing.Sign` | payeer.php:112 | the signature is as long as the hash and holds no lower-case letter |
| `Signing.SignatureFixesFieldList` | payeer.php:103-112 | two non-empty lists of `:`-free fields that sign alike under every hash function are the same list in the same order |
| `Session.PaymentSession.SetUniqueKey` | payeer.php:100-101 | the session's unique key becomes the generated order id |
| `Plugin.ProjectPayment` | payeer.php:77-121 | the receiver-missing message appears exactly when the trimmed merchant id is falsy; otherwise the form carries the six named fields in order: the trimmed merchant id, the upper-cased order id, the two-decimal amount text (which parses back to the pledge), the currency, the encoded description, and the signature over the first five values plus the secret |
| `Plugin.OnProjectPayment` | payeer.php:78-101 | renders the page above, and binds the order id to the session exactly when a form is rendered |
| `Notification.Param` | payeer.php:222 | a value read through the input filter is always clean; a missing field reads as empty, and a clean field reads as posted |
| `Notification.AllowList` | payeer.php:173-175 | an empty setting gives no entries; otherwise the entries are comma-free and join back to the trimmed setting |
| `Notification.IpAllowed` | payeer.php:173-186 | as written, an address is admitted exactly when the trimmed setting is empty or the address is, character for character, a comma-free stretch of the trimmed setting between two commas (or an end) |
| `Notification.SpacedAllowListEntryRejected` | payeer.php:175-178 | as written, the setting `first, addr` turns away `addr` itself, because its entry keeps the leading space |
| `Notification.IpAllowedTrimmed` | payeer.php:173-186 | with trimmed entries, an address is admitted exactly when the trimmed setting is empty or some comma-free stretch of it between two commas (or an end) trims to the address |
| `Notification.TrimmedAllowListAgreesOnCleanEntries` | payeer.php:173-178 | the trimmed and the as-written filters agree whenever no entry carries whitespace |
| `Notification.SpacedAllowListEntryAdmittedWhenTrimmed` | payeer.php:175-178 | with trimmed entries, the setting `first, addr` admits `addr` |
| `Notification.Accepted` | payeer.php:199-222 | as written, the gate opens only for a posted `m_sign` and the status `success`; with an operation id posted, `m_sign` must be the signature over the ten fields and the secret; without one, `m_sign` must be empty; and every request meeting these passes |
| `Notification.SignedNotificationGate` | payeer.php:199-222 | with an operation id posted and the status `success`, the gate opens exactly when `m_sign` equals the signature over the ten notification fields and the secret |
| `Notification.UnsignedNotificationAccepted` | payeer.php:199-222 | as written, a notification with no operation id, an empty `m_sign` and status `success` passes the gate; the intended gate refuses it |
| `Notification.AcceptedIntended` | payeer.php:199-222 | the intended gate opens exactly when the written one does and an operation id is posted |
| `Notification.IntendedGateNeedsFullSignature` | payeer.php:202-216 | under the intended gate, with a hash that always yields 64 characters, only a 64-character `m_sign` passes |
| `Notification.ExtraData` | payeer.php:34-37 | the extra data holds exactly the posted fields among the thirteen extra-data keys, with their posted values |
| `Notification.NormalizeStatus` | payeer.php:390-391 | the status is `completed` or `fail`, and it is `completed` exactly when the lower-cased `m_status` is `success` |
| `Notification.StatusIgnoresCase` | payeer.php:390-391 | an upper-cased `m_status` normalises to the same status |
| `Notification.ValidateData` | payeer.php:385-447 | each rejection happens exactly under its condition, in source order (missing project or transaction id, then currency, then receiver; an unset merchant id rejects every receiver); an accepted draft takes investor, project and reward from the session (reward 0 when anonymous), its transaction id, amount and currency from the payload, the normalised status, the given date, and no receiver |
| `Notification.PayloadCannotChooseProject` | payeer.php:394-406 | posting a `project_id` field does not change what validateData returns |
| `Store.Commit` | payeer.php:457-505 | a completed row is left alone and nothing is returned; otherwise the draft is upserted under its txn_id, keeping the row's id and stored receiver; non-empty extra data is appended; data comes back exactly when the new status is `completed`; other rows are untouched; completed rows stay completed; table validity is preserved |
| `Store.Project.AddFunds` | payeer.php:500-502 | the project's funds change by the amount |
| `Store.TransactionTable.StoreTransaction` | payeer.php:457-505 | the table and the result follow Commit, and the project is credited with the notification's amount exactly when data is returned |
| `Store.RunKeepsValid` | payeer.php:457-505 | over any sequence of notifications, every row stays under its own txn_id and no two rows share an internal id |
| `Store.CreditedAtMostOnce` | payeer.php:469-504 | over any sequence of notifications, one txn_id is credited at most once; never when its row starts out completed; and only with the amount of a completed notification for that txn_id |
| `Store.CompletedIsFinal` | payeer.php:469-473 | a completed row is never changed by later notifications |
| `Store.DuplicateCompletedCreditedOnce` | payeer.php:469-504 | the same completed notification delivered twice is credited once; the second delivery returns nothing |
| `Store.FailedThenCompletedCreditedOnce` | payeer.php:484-504 | a failed notification followed by a completed one for the same txn_id completes the row and credits once |
| `Plugin.Response` | payeer.php:316-328 | as written, no response ends in `\|error`: an early return answers `payeer`, and every other path answers the order id followed by `\|success` |
| `Plugin.IntendedResponse` | payeer.php:316-328 | the response ends in `\|error` exactly for a rejected notification, and otherwise agrees with the written one |
| `Plugin.RejectedAnsweredAsSuccess` | payeer.php:316-328 | as written, a rejected notification gets the same answer as a processed one, which is not the intended answer |
| `Plugin.FillResult` | payeer.php:275-302 | the result carries the stored transaction unchanged except for its reward id; a reward is reported exactly when the reward id is positive and the update succeeded; a positive reward id stays only with its reward, and it is cleared to 0 only when the update failed; the result also carries the project and the session |
| `Plugin.ProcessAccepted` | payeer.php:224-261 | an invalid draft or an unknown project drops the notification without storing anything or changing any project, answered `payeer`; otherwise the outcome stated for Settle, and no other project changes |
| `Plugin.Settle` | payeer.php:265-328 | the draft, with the project owner as receiver, is committed; the project is credited with the amount exactly when data comes back; then the result is filled in, the session closed for good and the answer is `\|success`; when no data comes back the answer is `payeer` and the session is left open |
| `Plugin.Answer` | payeer.php:188-331 | a rejected notification changes nothing and is answered `\|success` as written and `\|error` as intended; an admitted one has the outcome stated for ProcessAccepted |
| `Plugin.OnPaymentNotify` | payeer.php:157-331 | no result, and no change, exactly when the request is not a POST or the address fails the allow-list (the written one, or the trimmed one); otherwise the outcome stated for Answer, under the written or the intended gate |

## Left out

- Joomla plumbing is left out: the context, admin and document-type checks, the HTML markup, translated texts, logging, debug output and `setUserState`.
- `onPaymentsCompleteCheckout` is left out. It only computes a redirect URL and touches none of the state above.
- SHA-256, base64 and the random-string generator are parameters of the model (`hash`, `base64`, `random`). Nothing is assumed about them. The random string's length of 16 is not modelled.
- The transaction date is a parameter. The JDate conversion of `payment_date` is not modelled.
- The currency lookup, the payment-session lookup by order id, `getPaymentSession`, `closePaymentSession` and the database loads are left out. The collaborators arrive as parameters. The model reports the argument `closePaymentSession` receives.
- `updateReward` is left out. Its outcome is a boolean parameter, and a reported reward is its id, not the reward's full property list.
- `prepareExtraData` lives in the parent class, which is not part of this model. It is modelled as the restriction of the POST fields to the extra-data keys of lines 34-37.
- `Amount.AmountCents`: the project is credited with the value of `m_amount` in cents, with its sign. Only an optional sign, digits and at most two decimals are read. PHP's float coercion also gives a value to texts such as `10.000`, `1e3`, ` 10` (leading whitespace) and `10abc` (leading digits); the model credits 0 for them. Floating-point rounding is not modelled.
- `Text.Upper`, `Text.Lower`: JString's UTF-8 case mapping is restricted to ASCII letters.
- The `merchant_id` setting that was never saved reads as null, modelled as `None`. The payment form trims it to the empty string; validateData rejects every receiver against it.
- Projects are a map from id to object. Project loading and `getId` are modelled as membership in that map.
- The transaction row's columns beyond those bound here, and the stores' persistence and failure modes, are left out.
- Concurrency is left out: two notifications for one txn_id arriving at once.

## Findings

| source | as written | input that shows it | evidently intended | confidence | as-written member | corrected member |
|---|---|---|---|---|---|---|
| payeer.php:316-328 | the `\|error` response of line 325 is overwritten by line 328, so a rejected notification is answered `\|success` | a notification that fails the signature or status check | answer `<order id>\|error` when the notification is rejected | not executed | `Plugin.RejectedAnsweredAsSuccess` | `Plugin.IntendedResponse` |
| payeer.php:175-178 | `array_walk` discards what `trim` returns, so allow-list entries keep their whitespace | `ip_filter` = `10.0.0.1, 10.0.0.2` and `REMOTE_ADDR` = `10.0.0.2` is turned away | compare each address with the trimmed entry | not executed | `Notification.SpacedAllowListEntryRejected` | `Notification.SpacedAllowListEntryAdmittedWhenTrimmed` |
| payeer.php:199-222 | without `m_operation_id`, `$signHash` stays `''`, and an empty `m_sign` equals it | POST with `m_sign` empty, `m_status` = `success`, any `m_orderid` and no `m_operation_id` | demand the operation id and a matching signature | not executed | `Notification.UnsignedNotificationAccepted` | `Notification.AcceptedIntended` |
