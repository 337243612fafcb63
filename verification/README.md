# GhostBank wallet core, modelled in Dafny

GhostBank is a demonstration "private" multi-currency wallet. This project models
the parts that hold logic rather than markup:

- the wallet state kept by the application shell: a balance for each of the six
  currency codes (BRL, USD, BTC, XMR, GHOST, USDT) and a history of transaction
  records, most recent first; `addTransaction`; and the conversion handler the
  shell gives to the converter screen (module `Ledger`, file `ledger.dfy`);
- the converter screen: the fixed rate table keyed by `"FROM-TO"` strings with
  the fallback rate 1, the selected pair, the swap button and the exchange
  handler (module `Converter`), and its wiring to the wallet (module `Session`);
- the Pix send screen: the form, the send-button guard, the six-stage payment
  sequence and the `send` record it produces (module `PixPayment`); the form's
  currency starts at BRL (`PixPayment.InitialForm`) and every form operation
  keeps it, so every Pix record is a BRL send;
- the sign-in screen: the login / register / verify modes, the six-slot
  one-time code, the delivery-method choice and the submit guard (module `Auth`);
- the JavaScript string built-ins used to build identifiers and signatures:
  `slice`, `toUpperCase` and `Number.prototype.toString(16)` (module `JsText`).

Every handler is one atomic, pure step. Random strings (the output of
`Math.random().toString(36)` or `.toString(16)`), clock readings and the result
of `parseFloat` are parameters of the functions that use them. Amounts and rates
are `real`. The source's `Record<CurrencyCode, number>` is total over the six
codes, so `Ledger.Balances` is a record with one field per code and
`Get`/`Set` accessors; the opening balances are `Ledger.InitialBalances`.

The wallet code performs no balance check before a debit, so a send can drive
a balance negative. Every record is created `confirmed`: the `obfuscated` and
`mixing` statuses are declared but never produced, so there is no status
lifecycle. An unlisted currency pair silently prices at 1 rather than failing.
Transaction ids are random and not checked for uniqueness, and nothing
serialises operations on one currency. The lemmas state these behaviours as
they are.

## Model

| member | source | states |
|---|---|---|
| `Ledger.AddTransaction` | App.tsx:49-57 | the record goes to the head of the history, the old entries keep their order; a send lowers its currency by exactly its amount, a receive raises it by exactly its amount, a convert record changes no balance; every other currency is unchanged |
| `Ledger.SendWithoutBalanceCheck` | App.tsx:53 | a send larger than the balance is still applied and leaves that balance negative |
| `Ledger.AddAllAccounts` | App.tsx:49-57 | after adding any sequence of records, each balance equals its starting value plus the records' net signed change, and the history is the new records newest first ahead of the unchanged old history |
| `Ledger.ConvertBalances` | App.tsx:97 | for from != to, from drops by amtFrom and to rises by amtTo; for from == to the result is the old balance plus amtTo (the debit is overwritten); all other currencies unchanged |
| `Ledger.ConvertBalancesSequential` | App.tsx:97 | corrected update: every currency moves by what it receives minus what it gives, including when from == to |
| `Ledger.ConvertAgreesWithSequential` | App.tsx:97 | the source's update equals the corrected one exactly when from != to or nothing is debited |
| `Ledger.SelfConversionCreatesFunds` | App.tsx:97 | converting 100 USD into USD from the opening balances gives 4220.50 as written, 4120.50 when corrected |
| `Ledger.SelfConversionNeutral` | App.tsx:97 | with the corrected update, converting a currency into itself at rate 1 leaves all balances unchanged |
| `Ledger.BridgeId` | App.tsx:99 | a conversion id starts with `BRIDGE-`, is at most 17 characters long and exactly 17 when the random text has at least 12 characters; when every character from index 2 of the random text is a base-36 digit (as after the leading `0.` of `Math.random().toString(36)`), every character after the prefix is an upper-case letter or digit |
| `Ledger.ConvertRecord` | App.tsx:98-105 | the conversion record is a confirmed `convert` of amtFrom in the source currency with the given timestamp, no destination, no signature and a `BRIDGE-` id |
| `Ledger.OnConvertComplete` | App.tsx:96-106 | the converter's completion handler: balances move as in the conversion update (with the from == to overwrite), and exactly one confirmed `convert` record of amtFrom in `from`, with no destination or signature and a `BRIDGE-` id, is put ahead of the old history |
| `JsText.Slice` | App.tsx:99 | `slice` with non-negative bounds: at most end - begin characters, exactly that many when the text is long enough, exactly min(end, length) - begin when begin is inside the text, empty when begin is at or past the end, each copied from the matching position |
| `JsText.ToUpper` | App.tsx:99 | `toUpperCase` on ASCII: same length, each letter `a`..`z` becomes the letter 32 code points below it (its capital), every other character is unchanged, so lower-case base-36 digits become upper-case ones |
| `JsText.ToHex` | components/PixPayment.tsx:39 | `Date.now().toString(16)`: non-empty lower-case hexadecimal, starting with 0 exactly when the number is 0 |
| `JsText.HexRoundTrip` | components/PixPayment.tsx:39 | reading back the hexadecimal text gives the original number |
| `JsText.ToHexInjective` | components/PixPayment.tsx:39 | different instants give different hexadecimal suffixes |
| `Converter.Name` | App.tsx:10 | each currency code is written as three to five upper-case letters |
| `Converter.Lookup` | components/Converter.tsx:19-27 | the rate stored for a pair is always strictly positive |
| `Converter.LookupMatchesTable` | components/Converter.tsx:19-27 | the string-keyed lookup returns the listed rate for each of the ten listed ordered pairs and 1 for every other pair |
| `Converter.LookupFallback` | components/Converter.tsx:26-27 | a currency paired with itself, and any pair involving GHOST or USDT, prices at 1 |
| `Converter.PairKeyInjective` | components/Converter.tsx:26 | distinct ordered pairs have distinct `FROM-TO` keys, so the string-keyed table is a function of the ordered pair |
| `Converter.SyncRate` | components/Converter.tsx:18-28 | the rate effect stores the table's rate for the selected pair and changes nothing else |
| `Converter.Mounted` | components/Converter.tsx:12-28 | after the first effect the screen shows BRL to USD, an empty amount and the table rate 0.1824 (not the initial literal 0.1812) |
| `Converter.MountedValid` | components/Converter.tsx:12-28 | the mounted screen selects offered codes only, its rate matches the pair and no exchange is running |
| `Converter.SelectFrom` | components/Converter.tsx:73-82 | choosing a source currency keeps the target and the amount, and leaves the rate in step with the new pair |
| `Converter.SelectTo` | components/Converter.tsx:113-122 | choosing a target currency keeps the source and the amount, and leaves the rate in step with the new pair |
| `Converter.SwapPair` | components/Converter.tsx:89-93 | the swap exchanges source and target, keeps the amount, and leaves the rate in step with the reversed pair |
| `Converter.SwapTwice` | components/Converter.tsx:89-93 | swapping twice always restores the pair, and restores the whole screen exactly when its rate was in step |
| `Converter.TypeAmount` | components/Converter.tsx:66-70 | typing replaces the amount text and keeps the pair, the rate and the swapping flag |
| `Converter.HandleExchange` | components/Converter.tsx:30-39 | an empty amount returns with no request and no change; otherwise exactly one request for the selected pair with amountFrom = the parsed amount and amountTo = amountFrom times the stored rate, and the amount field is cleared |
| `Converter.ExchangeGate` | components/Converter.tsx:140 | on every reachable screen the exchange button is enabled exactly when pressing it produces a request |
| `Converter.ExchangeAtTableRate` | components/Converter.tsx:30-36 | when the rate is in step, the amount received is the parsed amount times the table's rate for the pair, or times 1 for an unlisted pair |
| `Converter.RunKeepsValid` | components/Converter.tsx:73-122 | after any sequence of user actions, only BRL, USD, BTC and XMR are selected, the rate matches the pair and no exchange is left running |
| `Session.ExchangeOnWallet` | App.tsx:96-106 | an exchange with an empty amount leaves wallet and screen unchanged; otherwise it adds exactly one `convert` record of the parsed amount in the source currency and clears the amount |
| `Session.ExchangeMovesFunds` | App.tsx:96-97 | on any reachable screen with two different currencies, the source drops by the typed amount, the target rises by that amount times the table rate, and every other currency, GHOST and USDT included, is unchanged |
| `Session.SelfConversionThroughScreen` | App.tsx:97 | from the mounted screen, choosing USD as source, typing 100 and exchanging converts USD into USD at rate 1 and raises the USD balance by 100 |
| `PixPayment.SetPixKey` | components/PixPayment.tsx:154-160 | typing a Pix key replaces the key and keeps the amount, currency, processing and finished flags, stage counter and receipt |
| `PixPayment.SetAmount` | components/PixPayment.tsx:166-172 | typing an amount replaces the amount and keeps the key, currency, processing and finished flags, stage counter and receipt |
| `PixPayment.SendGate` | components/PixPayment.tsx:186 | after typing a key and an amount the send button is enabled exactly when both are non-empty |
| `PixPayment.NewTunnel` | components/PixPayment.tsx:107 | starting a new tunnel clears key and amount and leaves the send button disabled |
| `PixPayment.PaymentId` | components/PixPayment.tsx:37 | a send id starts with `GHOST-TX-`, is at most 21 characters long and exactly 21 when the random text has at least 14 characters; when every character from index 2 of the random text is a base-36 digit, every character after the prefix is an upper-case letter or digit |
| `PixPayment.PaymentSignature` | components/PixPayment.tsx:39 | a signature starts with `SIG_0x` and ends with the hexadecimal clock reading, which reads back to that reading |
| `PixPayment.PaymentRecord` | components/PixPayment.tsx:41-50 | the record is a `send`, created `confirmed`, of the parsed form amount in the form currency, addressed to the fixed hidden recipient whatever key was typed, with a `GHOST-TX-` id and a `SIG_0x` signature both present |
| `PixPayment.StartPayment` | components/PixPayment.tsx:21-56 | the six stage captions are shown in the listed order, then the record is handed over exactly once and last; the receipt holds that record and the form ends finished, not processing, with key, amount and currency unchanged |
| `PixPayment.PaymentDebitsWallet` | components/PixPayment.tsx:53 | handing the record to the wallet lowers the form currency by the parsed amount, leaves other currencies and the old history as they were, and goes negative when the amount exceeds the balance |
| `Auth.SetCredential` | components/Auth.tsx:163-197 | typing into the e-mail, phone or password input replaces that field only; mode, loading flag, method and code are kept |
| `Auth.HandleInitialAction` | components/Auth.tsx:21-28 | submitting the login or register form always ends in verify mode, not loading, with credentials, method and code kept |
| `Auth.HandleVerify` | components/Auth.tsx:30-36 | the authenticated callback runs exactly once, whatever the code slots hold |
| `Auth.HandleOtpChange` | components/Auth.tsx:38-42 | a value longer than one character leaves the slots unchanged; otherwise only slot `index` becomes the value; the length never changes |
| `Auth.OtpChangeIdempotent` | components/Auth.tsx:38-42 | entering the same value in the same slot twice equals entering it once |
| `Auth.VerifySubmitGate` | components/Auth.tsx:116 | the code submit is enabled exactly when not loading and every slot is non-empty |
| `Auth.ToggleMode` | components/Auth.tsx:228 | the login/register link never enters verify and always changes a form mode |
| `Auth.ToggleInvolution` | components/Auth.tsx:228 | toggling twice restores the mode exactly for login and register |
| `Auth.Back` | components/Auth.tsx:55 | the back arrow always returns to login, keeping the chosen method and the typed code |
| `Auth.ChooseMethod` | components/Auth.tsx:68-84 | choosing WhatsApp or e-mail records that method and changes neither mode nor code |
| `Auth.ResetMethod` | components/Auth.tsx:121-124 | "change method" resets the method to none and keeps mode and code |
| `Auth.RunKeepsWellFormed` | components/Auth.tsx:19 | after any sequence of available user actions the code still has six slots of at most one character |
| `Auth.TypeCodeFills` | components/Auth.tsx:99-109 | typing one character into each slot in turn fills the slots with exactly the typed code and authenticates nothing |
| `Auth.CredentialsGate` | components/Auth.tsx:159-215 | the login or register form can be submitted exactly when it shows, is not loading and none of the three required inputs is empty |
| `Auth.AnyCodeAuthenticates` | components/Auth.tsx:21-36 | for any non-empty e-mail, phone and password, every six-character code and either method, the flow fill in form, submit it, choose method, type code, submit code is allowed at every turn and authenticates exactly once; submitting the fresh form without filling in the required inputs is refused |

## Left out

- Timers, `async`/`await` and the intermediate loading, swapping and processing flags: each handler is one atomic step; state updates queued with functional setters are composed in order.
- `Math.random`, `Date.now`: their outputs are parameters. The two clock readings of a payment (signature and timestamp) are separate parameters because the source reads the clock twice.
- `parseFloat` is an opaque `string -> real` parameter: NaN, infinities and the parse of malformed text are not modelled.
- IEEE-754 rounding of amounts and rates; display formatting (`toLocaleString`, `toFixed`).
- `JsText.ToUpper` upper-cases ASCII letters only; the source's `toUpperCase` also maps other scripts, which cannot occur in base-36 text.
- `Auth.HandleOtpChange` requires `index` to be a slot index; a larger index would grow the array in JavaScript, but every caller is one of the six rendered inputs. Lengths are counted in Unicode characters, not UTF-16 code units, so a single astral character counts as one.
- DOM focus moves between code inputs, clipboard writes and `alert` on the receipt screen.
- The browser's e-mail syntax check on the `type="email"` input: the model's form gate asks only that the three `required` inputs be non-empty, so `Auth.AnyCodeAuthenticates` also covers e-mail text the browser would refuse. The password-visibility toggle only changes the display.
- The Pix screen's receive tab: its button has no handler. The send/receive tab switch and the app's tab navigation are navigation only.
- The app's Tor-node and privacy-score interval, the dashboard and the history list, which are rendering and cosmetic randomness.
- Transaction id uniqueness: ids are random text and nothing in the code checks them, so no uniqueness property is stated.
- Insufficient-balance rejection, status transitions through `obfuscated` and `mixing`, failed or cancelled states, unknown-pair errors and per-currency ordering of concurrent operations: the code has none of them, so the model has none.

## Findings

| source | as written | input that shows it | evidently intended | confidence | as-written member | corrected member |
|---|---|---|---|---|---|---|
| App.tsx:97 | the conversion builds the new balances with two computed keys, both valued from the old balances; when source and target are the same key the credit replaces the debit | source = target = USD, amtFrom = amtTo = 100 (rate 1, the fallback for USD-USD); reachable by choosing USD as source while USD is the target | converting a currency into itself changes nothing; in general each currency moves by what it receives minus what it gives | high; not executed | `Ledger.ConvertBalances`, `Ledger.SelfConversionCreatesFunds`, `Session.SelfConversionThroughScreen` | `Ledger.ConvertBalancesSequential`, `Ledger.SelfConversionNeutral` |

`Ledger.ConvertAgreesWithSequential` proves the two updates agree exactly when
the currencies differ or nothing is debited, so the corrected update changes
behaviour only on the self-conversion. The wallet handler
`Ledger.OnConvertComplete` keeps the update as written, because its contract
records what the shipped code does; replacing its update by
`Ledger.ConvertBalancesSequential` is the fix.
