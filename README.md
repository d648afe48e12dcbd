# NeonRift front-end logic, modelled in Dafny

NeonRift is a demo front-end for a token exchange and play-to-earn platform. All its
data is hard-coded and its "backend" calls are timers. This project models the small
pieces of sequential logic it does contain, and proves what they promise:

- **Exchange form** (`exchange.dfy`, module `Exchange`). The page holds
  `fromToken`, `toToken` and `amount`, and six handlers change them. The pure
  transitions on a `Selection` value (`FromTokenChanged`, `ToTokenChanged`,
  `Swapped`, `AmountChanged`, `MaxAmount`, `Submit`) are the specification. The class
  `ExchangeForm` holds the same three fields and has one method per handler; each
  method's postcondition ties the new state to the transition applied to the state
  from before the event. This matches React, where a setter does not change the value
  the handler reads. The invariant `Valid` says both sides are catalog tokens with
  different ids. It holds at start-up and every transition keeps it. The module also
  covers the amount sanitiser, the rate/fee/estimate expressions, the "receive" field
  and the two-step submission gate.
- **Password strength and form schemas** (`login.dfy`, module `Login`).
  `CalculatePasswordStrength` gives the meter's counter-and-label computation as a
  method. It is proved equal to a reference definition: the number of criteria on the
  list `CRITERIA` that the password meets. The login and registration schemas are
  parsers returning either the accepted values or the list of field messages.
- **Leaderboard** (`leaderboard.dfy`, module `Leaderboard`). This covers the
  case-insensitive name search, the rank badge and the change column.
- **Leaderboard preview** (`leaderboard_preview.dfy`, module `LeaderboardPreview`).
  This covers the rank colours, the medal rule and the footer button's border.

Shared helpers: `wrappers.dfy` (`Option`, `Result`), `ascii.dfy` (ASCII character
classes, lower-casing, substring search) and `subsequence.dfy` (in-order
subsequences).

`parseFloat` and `Number.prototype.toString` are not modelled. They are the constant
fields `parseFloat: string -> Option<real>` and `numberText: real -> string` of
`ExchangeForm`, fixed when the form is constructed. `None` stands for NaN. Every
JavaScript comparison with NaN is false, and the model says so through `AtMost` and
`Exceeds`. Prices and amounts are exact reals. E-mail validity in the schemas is a
parameter `isEmail: string -> bool`.

**NaN amounts reach the success branch.** The sanitiser can leave an amount that is
not a number: typing only letters leaves `""`, and a lone `"."` stays `"."`.
`parseFloat` returns NaN for both. NaN fails both `numAmount <= 0` and
`numAmount > balance`, so the page reports a successful exchange of NaN and resets the
amount to `"0"`. The model reproduces this
as written (`Gate`, `Submit`, `ExchangeForm.HandleExchange`). `NaNPassesGate` and
`NaNAmountSucceeds` exhibit it, and `SanitizeExamples` shows both texts.

## Model

| member | source | states |
|---|---|---|
| `Exchange.CatalogIdsDistinct` | src/pages/Exchange.tsx:10-16 | the five catalog ids are pairwise distinct |
| `Exchange.CatalogAmountsPositive` | src/pages/Exchange.tsx:10-16 | every catalog price and balance is positive |
| `Exchange.Valid` | src/pages/Exchange.tsx:19-20 | the form's invariant: both sides are catalog tokens with different ids, hence different tokens |
| `Exchange.FindToken` | src/pages/Exchange.tsx:33 | `find` returns a catalog token carrying the requested id, namely the first one in list order; it returns nothing exactly when no token has that id |
| `Exchange.SelectToken` | src/pages/Exchange.tsx:33 | the selection is a catalog token or the fallback, and anything other than the fallback carries the requested id |
| `Exchange.SelectTokenSpec` | src/pages/Exchange.tsx:33 | picking a catalog id selects exactly that token (ids are distinct); an unknown id selects the fallback; the result is a catalog token or the fallback |
| `Exchange.Sanitize` | src/pages/Exchange.tsx:60 | the sanitised amount holds only digits and dots and is never longer than the input |
| `Exchange.SanitizeIsSubsequence` | src/pages/Exchange.tsx:60 | the sanitised amount is an in-order subsequence of the input |
| `Exchange.SanitizeKeepsAmountChars` | src/pages/Exchange.tsx:60 | every digit and dot occurs in the output as often as in the input; no other character occurs; with the subsequence lemma this pins the output down exactly |
| `Exchange.SanitizeClean` | src/pages/Exchange.tsx:60 | text made only of digits and dots is left unchanged |
| `Exchange.SanitizeIdempotent` | src/pages/Exchange.tsx:60 | sanitising twice equals sanitising once |
| `Exchange.SanitizeAppend` | src/pages/Exchange.tsx:58-62 | sanitising distributes over concatenation, so each keystroke adds at most the key typed |
| `Exchange.SanitizeExamples` | src/pages/Exchange.tsx:60 | "-5" becomes "5" (a sign is stripped, not rejected); letters-only text becomes ""; a lone "." stays "." |
| `Exchange.Rate` | src/pages/Exchange.tsx:25 | the rate is how many destination tokens one source token is worth: rate times destination price is the source price; positive for a positive source price |
| `Exchange.Estimate` | src/pages/Exchange.tsx:26 | the estimate is NaN exactly when the amount is; otherwise it is worth as much as the amount: estimate times destination price equals amount times source price |
| `Exchange.Fee` | src/pages/Exchange.tsx:28-29 | the fee is NaN exactly when the amount is; otherwise it is one two-hundredth (0.5%) of the amount, and lies between 0 and the amount for a non-negative amount |
| `Exchange.RateInverse` | src/pages/Exchange.tsx:25 | for positive prices the rate is positive, and the rate one way times the rate the other way is 1 |
| `Exchange.EstimateRoundTrip` | src/pages/Exchange.tsx:25-26 | converting an estimate back at the reverse rate returns the original amount |
| `Exchange.ReceiveShown` | src/pages/Exchange.tsx:253 | the "receive" field is never negative for a positive source price |
| `Exchange.ReceiveShownSpec` | src/pages/Exchange.tsx:253 | the "receive" field is never negative; it shows the estimate when the parsed amount is positive and 0 otherwise, NaN included |
| `Exchange.QuoteExample` | src/pages/Exchange.tsx:25-29 | NRF to CBT with amount 10 gives rate 2.45/0.87, fee 0.05 (0.5%) and estimate 24.5/0.87 |
| `Exchange.Gate` | src/pages/Exchange.tsx:85-106 | an accepted amount is NaN or lies in (0, balance] |
| `Exchange.GateSpec` | src/pages/Exchange.tsx:85-106 | the gate reports an invalid amount exactly for parsed amounts at most 0 (whatever the balance) and insufficient balance exactly for positive amounts above the balance; anything else, NaN included, passes |
| `Exchange.NaNPassesGate` | src/pages/Exchange.tsx:86-106 | an amount that parses to NaN passes both tests |
| `Exchange.Initial` | src/pages/Exchange.tsx:19-21 | the start state (NRF, CBT, "0") satisfies the distinct-tokens invariant |
| `Exchange.FromTokenChanged` | src/pages/Exchange.tsx:32-39 | a from-side pick keeps the invariant and the amount |
| `Exchange.ToTokenChanged` | src/pages/Exchange.tsx:41-48 | a to-side pick keeps the invariant and the amount |
| `Exchange.FromTokenChangedSpec` | src/pages/Exchange.tsx:32-39 | the pick (or the first catalog token for an unknown id) lands on the from-side; on a clash the old from-token moves to the to-side, and otherwise the to-side stays; the amount stays; the invariant is kept |
| `Exchange.ToTokenChangedSpec` | src/pages/Exchange.tsx:41-48 | the mirror image, with the second catalog token as the fallback and the old to-token moving to the from-side on a clash |
| `Exchange.PickOtherSideSwaps` | src/pages/Exchange.tsx:32-48 | picking, on either side, the token already on the other side exchanges the two sides |
| `Exchange.Swapped` | src/pages/Exchange.tsx:51-55 | a swap keeps the invariant and the amount |
| `Exchange.SwappedSpec` | src/pages/Exchange.tsx:51-55 | swapping keeps the invariant and the amount, and swapping twice restores the pair |
| `Exchange.SwapInvertsRate` | src/pages/Exchange.tsx:25 | after a swap the displayed rate is the reciprocal of the rate before it |
| `Exchange.AmountChanged` | src/pages/Exchange.tsx:58-62 | a typed amount keeps the invariant and is stored with digits and dots only |
| `Exchange.AmountChangedSpec` | src/pages/Exchange.tsx:58-62 | a typed amount is stored sanitised (digits and dots only, a subsequence of what was typed); both tokens stay |
| `Exchange.MaxAmount` | src/pages/Exchange.tsx:65-67 | MAX keeps the invariant and both tokens |
| `Exchange.MaxAmountSpec` | src/pages/Exchange.tsx:65-67 | MAX stores the text of the from-token's balance and leaves both tokens alone |
| `Exchange.Submit` | src/pages/Exchange.tsx:85-116 | submission keeps the invariant and both tokens; the amount is kept unless the exchange succeeds, when it becomes "0" |
| `Exchange.SubmitSpec` | src/pages/Exchange.tsx:85-116 | submission never changes a token or a balance; an amount at most 0 gives "Invalid amount" and no change; a positive amount above the balance gives "Insufficient balance" and no change; success happens exactly otherwise and resets the amount to "0" |
| `Exchange.MaxThenSubmitSucceeds` | src/pages/Exchange.tsx:65-116 | after MAX, submitting succeeds, provided the balance's text parses back to the balance |
| `Exchange.NaNAmountSucceeds` | src/pages/Exchange.tsx:58-116 | any typed text whose sanitised form parses to NaN (letters only, or a lone ".") is reported as a successful exchange of NaN, and the amount is reset |
| `Exchange.ExchangeForm.constructor` | src/pages/Exchange.tsx:19-21 | the form starts with the first two catalog tokens and amount "0", satisfying the invariant |
| `Exchange.ExchangeForm.HandleFromTokenChange` | src/pages/Exchange.tsx:32-39 | the new state is `FromTokenChanged` of the state before the event; the invariant is kept |
| `Exchange.ExchangeForm.HandleToTokenChange` | src/pages/Exchange.tsx:41-48 | the new state is `ToTokenChanged` of the state before the event; the invariant is kept |
| `Exchange.ExchangeForm.HandleSwapTokens` | src/pages/Exchange.tsx:51-55 | the new state is the old one with its sides exchanged; the invariant is kept |
| `Exchange.ExchangeForm.HandleAmountChange` | src/pages/Exchange.tsx:58-62 | the new amount is the sanitised input; nothing else changes |
| `Exchange.ExchangeForm.HandleMaxAmount` | src/pages/Exchange.tsx:65-67 | the new amount is the text of the from-token's balance; nothing else changes |
| `Exchange.ExchangeForm.HandleExchange` | src/pages/Exchange.tsx:85-116 | the notice returned and the new state are those of `Submit` on the old state and the parsed old amount |
| `Login.CalculatePasswordStrength` | src/pages/LoginPage.tsx:75-95 | the counter equals the number of listed criteria the password meets (0 for the empty password) and is at most 5; the label is the one chosen from that count ("" for the empty password) |
| `Login.CountMet` | src/pages/LoginPage.tsx:78-87 | the number of criteria met never exceeds the number of criteria tested |
| `Login.Strength` | src/pages/LoginPage.tsx:76-87 | the score is at most 5, the length of the criteria list |
| `Login.LabelOf` | src/pages/LoginPage.tsx:89-92 | the label is one of Weak, Medium, Strong: Strong exactly above 4, Weak exactly at most 2 |
| `Login.Label` | src/pages/LoginPage.tsx:76-92 | the label is empty exactly for the empty password, and otherwise is the one for its score |
| `Login.StrengthUnfolded` | src/pages/LoginPage.tsx:78-87 | for any password the criteria count over the list is the sum of the five tests: length at least 8, a capital, a small letter, a digit, something else |
| `Login.EmptyPassword` | src/pages/LoginPage.tsx:76 | the empty password scores 0 with label "" |
| `Login.NonEmptyScoresAtLeastOne` | src/pages/LoginPage.tsx:84-87 | every non-empty password scores at least 1 and gets a non-empty label, since the four character tests cover every character |
| `Login.LabelSpec` | src/pages/LoginPage.tsx:89-92 | "Strong" exactly when all five criteria hold; "Weak" exactly for a score of at most 2; "Medium" exactly for 3 or 4 |
| `Login.AppendNeverLowers` | src/pages/LoginPage.tsx:76-87 | appending a character to a password never lowers its score |
| `Login.LoginIssues` | src/pages/LoginPage.tsx:22-26 | at most two issues, each under the e-mail or password field, and none exactly when both rules hold |
| `Login.ParseLogin` | src/pages/LoginPage.tsx:22-26 | an accepted login carries the typed e-mail and password; a rejected one carries the non-empty issue list |
| `Login.LoginSpec` | src/pages/LoginPage.tsx:22-26 | login is accepted exactly for a valid e-mail and a password of 6 or more characters; remember-me is false unless ticked; a short password is reported under the password field |
| `Login.RegisterIssues` | src/pages/LoginPage.tsx:29-40 | at most five issues, since the terms and mismatch issues exclude each other; none under remember-me; no mismatch issue while the terms box is unticked |
| `Login.ParseRegister` | src/pages/LoginPage.tsx:29-40 | an accepted registration is the input itself; a rejected one carries the non-empty issue list |
| `Login.RegisterSpec` | src/pages/LoginPage.tsx:29-40 | registration is accepted exactly when the username has 3 or more characters, the e-mail is valid, both passwords have 6 or more, the terms are accepted and the passwords agree |
| `Login.MismatchOnConfirmField` | src/pages/LoginPage.tsx:34-40 | a password mismatch always rejects the form; the mismatch is reported under the confirmation field exactly when the terms box is ticked |
| `Login.DefaultsRejected` | src/pages/LoginPage.tsx:53-72 | both forms' default values are rejected; the unticked terms box is reported |
| `Ascii.LowerChar` | src/pages/Leaderboard.tsx:33 | lower-casing a character leaves no capital: a capital moves 32 code points to its small letter, anything else is kept |
| `Ascii.Lower` | src/pages/Leaderboard.tsx:33 | lower-casing keeps the length and lower-cases each position |
| `Ascii.Contains` | src/pages/Leaderboard.tsx:33 | a contained text is no longer than the text it is in, and all its characters occur there |
| `Ascii.EmptyIsContained` | src/pages/Leaderboard.tsx:33 | the empty text is contained in every text |
| `Ascii.DifferOnlyInCaseLower` | src/pages/Leaderboard.tsx:33 | texts that differ only in letter case have the same lower-case form |
| `Leaderboard.Matches` | src/pages/Leaderboard.tsx:33 | a matching query is no longer than the row's name |
| `Leaderboard.FilterRows` | src/pages/Leaderboard.tsx:32-34 | the filter returns no more rows than it is given, each a given row that matches |
| `Leaderboard.FilteredData` | src/pages/Leaderboard.tsx:32-34 | the table shows at most the ten data rows, each one matching the search |
| `Leaderboard.FilterIsSubsequence` | src/pages/Leaderboard.tsx:32-34 | the shown rows are an order-preserving subsequence of the data |
| `Leaderboard.FilterMembership` | src/pages/Leaderboard.tsx:33 | a row is shown exactly when it is in the data and its lower-cased name contains the lower-cased query |
| `Leaderboard.FilterCounts` | src/pages/Leaderboard.tsx:33 | a matching row appears as many times as in the data, a non-matching row not at all |
| `Leaderboard.FilterKeepsAll` | src/pages/Leaderboard.tsx:33 | when every row matches the filter returns the rows unchanged |
| `Leaderboard.EmptyQueryKeepsAll` | src/pages/Leaderboard.tsx:33 | an empty search shows every row, in order |
| `Leaderboard.SameLowerSameRows` | src/pages/Leaderboard.tsx:33 | queries with the same lower-case form select the same rows |
| `Leaderboard.CaseInsensitive` | src/pages/Leaderboard.tsx:33 | queries that differ only in letter case select the same rows |
| `Leaderboard.FiltersHaveNoEffect` | src/pages/Leaderboard.tsx:27-34 | the time and type drop-downs do not affect the rows shown; the initial view shows all rows |
| `Leaderboard.RankCellFor` | src/pages/Leaderboard.tsx:154-164 | a rank gets a badge with a non-empty style exactly when it is 3 or less |
| `Leaderboard.RankCellSpec` | src/pages/Leaderboard.tsx:154-164 | ranks of 3 or less get a badge and larger ranks plain text; ranks 1, 2 and 3 get three different styles; in the data exactly ranks 1 to 3 get badges |
| `Leaderboard.ChangeCellFor` | src/pages/Leaderboard.tsx:185-197 | the signed change can be read back from the cell, an up arrow exactly for a rise and a down arrow exactly for a fall |
| `Leaderboard.ChangeCellSpec` | src/pages/Leaderboard.tsx:185-197 | 0 shows a dash, a positive change an up arrow and a negative change a down arrow; the number shown is positive and the signed change can be read back from the cell |
| `LeaderboardPreview.GetRankColor` | src/components/home/LeaderboardPreview.tsx:34-45 | the default grey is returned exactly for ranks other than 1, 2 and 3 |
| `LeaderboardPreview.ShowsMedal` | src/components/home/LeaderboardPreview.tsx:114 | every rank with a podium colour also shows the medal |
| `LeaderboardPreview.RankColorSpec` | src/components/home/LeaderboardPreview.tsx:34-45 | ranks 1, 2 and 3 map to yellow, light grey and amber; the default grey is returned exactly for every other rank |
| `LeaderboardPreview.MedalSpec` | src/components/home/LeaderboardPreview.tsx:104-169 | in both tabs the medal is shown exactly for the rows with a podium colour, which are the first three |
| `LeaderboardPreview.FooterButtonClass` | src/components/home/LeaderboardPreview.tsx:199 | the footer button's class is one of the purple and green border classes |
| `LeaderboardPreview.FooterButtonSpec` | src/components/home/LeaderboardPreview.tsx:199 | the footer button has the purple border exactly on the traders tab and the green border otherwise |

## Left out

- Rendering, styling, animations, intersection observers, the tailwind configuration, the
  navigation bar and the purely presentational home sections. They hold no logic to state.
- `handleRefreshRates` and the `isRefreshing` flag (src/pages/Exchange.tsx:70-82). This is
  a timer that only shows a notification.
- The login and registration submit handlers (src/pages/LoginPage.tsx:100-126). These are
  timers, notifications and navigation. Only the schemas that gate them are modelled.
- Toasts. Each is modelled as the `Notice` value the handler emits. Titles, descriptions
  and variants are not modelled beyond which notice it is.
- `parseFloat` and `Number.prototype.toString` are abstract. The model does not say which
  texts parse to which numbers, for example `"1.2.3"`.
- `MaxThenSubmitSucceeds`: assumes that the balance's text parses back to the balance. This
  holds for JavaScript numbers but is not derived here.
- `toFixed` and `toLocaleString` formatting is not modelled. Rates, fees and estimates are
  exact reals, not IEEE doubles.
- `Rate`: requires a positive destination price. The source does not guard against a zero
  price, but every catalog price is positive and the invariant keeps both sides in the
  catalog, so that case cannot arise.
- `RegisterIssues`: the confirmation refinement is skipped only when the terms box is
  unticked, the one field rule whose failure aborts the object parse. A field that is not a
  string at all would abort it too; inputs are typed here, so that case does not arise.
- E-mail validity is the parameter `isEmail`. Which addresses are valid is not modelled.
- Lengths count Dafny characters (Unicode scalar values). JavaScript counts UTF-16 code
  units, so the counts differ for characters outside the Basic Multilingual Plane. Character
  tests and lower-casing are ASCII only, with no Unicode case folding.
- Each handler is modelled as one atomic update of the held state. React's batching and
  re-rendering are not modelled.
- The market list's change arrows (src/pages/Exchange.tsx:160-162), the leaderboard's
  summary cards (src/pages/Leaderboard.tsx:47-86) and the token icons and avatars. These
  are display only.
- The preview's `activeTab` state is set by the tabs component. The model only uses it as
  the input of `FooterButtonClass`.
