# AgroLink storefront state, in Dafny

AgroLink is a single-page poultry-farm storefront. Farms list product
batches as NFTs. Investors sign in, buy batches (the purchase goes through a
simulated Solana wallet) or send price offers. Factory accounts accept,
decline and ship those offers, and mint an album collection from their
artist page. From the dashboard, which investors and factories both reach,
any signed-in user (the app shows only the sign-in screen until then)
withdraws royalty income, simulates revenue payouts and requests fiat
withdrawals of the SOL balance. All of it lives in the `App` component of
`AgroLink/src/App.tsx`: a handful of `useState` cells, and event handlers
that overwrite them.

This project models that bookkeeping as one class, `App.Storefront`. Its
fields are the state cells: user directory, session, wallet connection,
catalog, offers, wallet balance, withdrawal queue, royalty balance, payouts
and the transaction-banner status. Each handler is one method on it,
including the banner's Close button (`CloseBanner`). Every method states
its whole new state through `Snapshot()`, as an update of a `State` value. Every method also keeps the class invariant `Valid()`:

- the wallet balance is never negative;
- the catalog differs from the initial one only in `owned` flags, and those
  are only ever raised;
- every offer's id names the entry it targets;
- an accepted offer's entry is owned;
- no finished handler leaves the banner pending.

The pure parts are functions with lemmas about them, one module per concern:

- `Text`: JavaScript `trim`, `slice`, `split(sep)[0]` and the account mask.
- `Amounts`: the amount draft filter, `Number()` on drafts, `String()` on
  amounts, and the clamps.
- `Catalog`: the farm × product catalog and ownership updates.
- `Identity`: signup and login.
- `Offers`: the offer ledger and its status machine.
- `Ledger`: withdrawals and payouts.
- `Analytics`: the factory dashboard aggregates.

The nested catalog loop and the per-product reducer keep their loops. Each
is proved equal to a function on the inputs: `Catalog.BuildCatalog`
against `Catalog.CatalogOf`, and `Analytics.SoldByProduct` against
`Analytics.TallyOf`.

Modelling conventions:
- Amounts are integers in hundredths of SOL, so 0.1 SOL is `10` and the
  catalog price of 1 SOL is `100`.
- A number read from an input is `Base.Num`, either `NaN` or an exact value.
- Every call into the simulated chain (`purchaseNft`, `distributeRoyalties`,
  `mintAlbumCollection`) becomes a `chainOk` parameter: the call either
  resolves or rejects. `connectPhantomWallet` (lines 89-95) always resolves,
  so `ConnectWallet` takes no such parameter.
- Clock readings are parameters:
  - the two `Date.now()` calls in `submitOffer`;
  - the withdrawal id, its eta and its timestamp;
  - the payout date.
- The user directory, which `handleLogin` re-reads from storage on every
  submit, is a field. It starts as the directory the constructor is given.
  Every other cell starts at its first-launch default.

Where the code and its written description differ, the model follows the
code:
- Signup checks "user already exists" before the confirmation mismatch.
- Login treats a legacy record holding the empty string like a missing
  user: `users[username]` is falsy.
- The withdrawal amount is `max(0.1, …)`, so the "amount ≤ 0" refusal can
  never fire. Only "more than the balance" refuses an amount.
- The offer status `counter` exists, but no handler sets it.
- A signed-up account keeps whatever farm id the form held, whatever its
  role. A farm id is required only for factory accounts.

## Model

| member | source | states |
|---|---|---|
| Text.Trim | AgroLink/src/App.tsx:376-378 | `s.trim()` is the piece of `s` between a white-space prefix and a white-space suffix, with no white space at either end; it is empty exactly when `s` is all white space |
| Text.Slice | AgroLink/src/App.tsx:618-619 | `s.slice(from, to)` is a contiguous piece of `s`: `s[from..to]` when both ends lie inside `s` in order, empty when `0 <= to <= from` |
| Text.SliceFrom | AgroLink/src/App.tsx:618-620 | `s.slice(from)` is a suffix of `s`: all but the first `from` characters, the last `-from` for a negative `from`, all of `s` below `-len`, nothing beyond the end |
| Text.MaskAccount | AgroLink/src/App.tsx:618-620 | the masked account is the first four characters, `****`, then the last four (12 characters); an account shorter than four appears whole on both sides |
| Text.MaskHidesMiddle | AgroLink/src/App.tsx:618-620 | a corollary of `MaskAccount`'s positions, stated by characters: for an account of at least 8 characters, every character of the mask is a star or comes from the first four or last four characters |
| Text.BeforeFirst | AgroLink/src/App.tsx:1715 | `split(sep)[0]` is a prefix of the name |
| Text.BeforeFirstOfJoin | AgroLink/src/App.tsx:1715  | splitting `p + " — " + q` at `" — "` gives back `p` when `p` has no em dash |
| Amounts.ReplaceFirst | AgroLink/src/App.tsx:1132 | `replace(",", ".")` changes only the first comma: same length, every other character kept, no change without a comma |
| Amounts.ReplaceFirstCount | AgroLink/src/App.tsx:1132 | with a comma in the input, the result holds a dot and one comma fewer |
| Amounts.AmountPattern | AgroLink/src/App.tsx:1133 | `^\d*\.?\d{0,2}$` admits every digit string and never a string with a comma |
| Amounts.FilterDraft | AgroLink/src/App.tsx:1132-1135 | the first comma becomes a dot: an accepted draft is the input with that replacement and matches `^\d*\.?\d{0,2}$` (so holds no comma); the input is refused exactly when the replaced text fails the pattern; a draft already matching is accepted unchanged |
| Amounts.ParseDraft | AgroLink/src/App.tsx:603 | `Number(draft)` on a draft the filter admits: `""` is 0, `"."` is NaN, any other pattern draft is a non-negative value, digits give their value, anything outside the pattern is NaN |
| Amounts.ParseWithFraction | AgroLink/src/App.tsx:603 | a whole part, a dot and at most two fraction digits, either part possibly empty but not both, matches the pattern and parses to the amount it spells (`".5"` is 0.5 SOL, `"5."` is 5 SOL) |
| Amounts.ShowAmount | AgroLink/src/App.tsx:1598 | `String(amt)` of an amount is never empty and never starts with a dot |
| Amounts.ShowAmountRoundTrip | AgroLink/src/App.tsx:1597-1598  | the text `String(amt)` writes into the draft passes the filter unchanged and parses back to the same amount |
| Amounts.WithdrawAmount | AgroLink/src/App.tsx:603 | `max(0.1, Number(draft) \|\| 0)`: at least 0.1 SOL, the parsed value when that is at least 0.1, else 0.1 |
| Amounts.OfferPrice | AgroLink/src/App.tsx:570 | `max(0.1, Number(p) \|\| 1)`: NaN and 0 become 1 SOL, a smaller positive value becomes 0.1, a larger one is kept |
| Amounts.PrefillAmount | AgroLink/src/App.tsx:1597 | the prefilled amount `max(0.1, min(balance, 5))` lies between 0.1 and 5 SOL: the balance when it does, 5 SOL above, 0.1 SOL below |
| Amounts.PrefillDraftAmount | AgroLink/src/App.tsx:1597-1598  | withdrawing the prefilled draft withdraws exactly the prefilled amount |
| Catalog.CatalogOf | AgroLink/src/App.tsx:302-316 | the catalog has one entry per farm and product |
| Catalog.BuildCatalog | AgroLink/src/App.tsx:302-316 | the nested `forEach` with `idCounter++` and `push` builds exactly `CatalogOf(farms, products)` |
| Catalog.InitialCatalogShape | AgroLink/src/App.tsx:248-318 | 30 entries; entry `i` has id `i + 1`, belongs to farm `i / 6 + 1`, is named after product `i % 6` and its farm, costs 1 SOL, is batch `i % 6 + 1` and is unowned |
| Catalog.ProductKey | AgroLink/src/App.tsx:1715 | `name.split(" — ")[0] \|\| name` is a prefix of the name, and non-empty for a non-empty name |
| Catalog.InitialProductKey | AgroLink/src/App.tsx:1715  | the analytics key `name.split(" — ")[0]` of every initial entry is its product name |
| Catalog.FindEntry | AgroLink/src/App.tsx:525 | `nfts.find` finds nothing exactly when no entry has the id, otherwise the first entry with that id |
| Catalog.MarkOwned | AgroLink/src/App.tsx:530-532  | exactly the entries with the id become owned; length, order and every other field and entry are kept |
| Catalog.MarkOwnedGrows | AgroLink/src/App.tsx:587-589  | marking raises `owned` flags only and changes nothing else |
| Catalog.MarkOwnedIdempotent | AgroLink/src/App.tsx:530-532  | marking the same id twice is marking it once |
| Catalog.OwnedGrowsTransitive | AgroLink/src/App.tsx:584-590  | "only raised `owned` flags" composes across handlers |
| Identity.CheckCredentials | AgroLink/src/App.tsx:399-408 | both modes refuse an empty trimmed username first, then a trimmed password shorter than 4 |
| Identity.SignUp | AgroLink/src/App.tsx:410-435 | signup succeeds iff `users[name]` is falsy (no truthy own record, and not a name inherited from `Object.prototype` such as `"constructor"`), the confirmation matches and a factory names a farm; a taken name is `UserExists`, then `PasswordMismatch`, then `SelectFactory`; success adds exactly that key with the password, role and farm, keeps every other record and signs that user in |
| Identity.LogIn | AgroLink/src/App.tsx:437-461 | login succeeds iff the directory holds a truthy record of its own under the name and its password matches, and otherwise fails with `InvalidCredentials` (an inherited name has no password); a legacy record signs in as an investor without farm, an account with its stored role (investor if missing) and farm |
| Identity.Authenticate | AgroLink/src/App.tsx:365-464 | the whole form handler on trimmed fields: a blank username and a short password are refused in both modes; past those checks a signup is exactly `SignUp` with the trimmed confirmation and the selected role (investor by default), and a login succeeds exactly when `LogIn` does, with its user and the directory unchanged, and otherwise fails with `InvalidCredentials` |
| Identity.InheritedNamesRefused | AgroLink/src/App.tsx:410-461 | a name inherited from `Object.prototype` that the directory does not hold is refused at signup with `UserExists` and at login with `InvalidCredentials` |
| Identity.SignUpThenLogIn | AgroLink/src/App.tsx:410-461 | logging in right after a signup with the same name and password gives the same session user |
| Identity.SignUpTwiceRefused | AgroLink/src/App.tsx:410-415 | a second signup under a name that signed up is refused with `UserExists` |
| Offers.NewOffer | AgroLink/src/App.tsx:562-573 | a new offer is pending, carries the buyer, target and id, and its price is `OfferPrice`, hence at least 0.1 SOL |
| Offers.FindOffer | AgroLink/src/App.tsx:585 | `offers.find` finds nothing exactly when no offer has the id, otherwise the first offer with that id |
| Offers.SetStatus | AgroLink/src/App.tsx:578-599 | only the status of the offers with the id changes; length, order, the other fields and the other offers are kept |
| Offers.SetStatusIdempotent | AgroLink/src/App.tsx:578-599 | declining, accepting or shipping twice is doing it once |
| Offers.SetStatusUnknownId | AgroLink/src/App.tsx:578-599 | a status change for an unknown id leaves the offers as they were |
| Offers.Actions | AgroLink/src/App.tsx:2032-2055 | the buttons offered for a status are exactly the allowed transitions: pending to accepted or declined, accepted to shipped |
| Offers.OfferedChangeIsTransition | AgroLink/src/App.tsx:2032-2055  | a status change made through an offered button moves each changed offer along an allowed transition |
| Offers.TerminalStatuses | AgroLink/src/App.tsx:2032-2055 | declined and shipped offers offer no action, and nothing leads back to pending |
| Offers.CountStatus | AgroLink/src/App.tsx:1823-1827 | a status count never exceeds the number of offers |
| Offers.FunnelBounded | AgroLink/src/App.tsx:1823-1827 | pending, accepted and shipped counts together never exceed the number of offers |
| Ledger.CheckWithdrawal | AgroLink/src/App.tsx:601-615 | a withdrawal passes iff a user is signed in, `0 < amount <= balance` and neither the name nor the account is blank; otherwise sign-in, then amount, then beneficiary is reported |
| Ledger.NewWithdrawal | AgroLink/src/App.tsx:617-634 | the queued record is `processing` with the amount, id, eta and time stamp, and its account is the mask: first four characters, `****`, last four (the whole account twice around the stars when shorter than four) |
| Ledger.WithdrawalKeepsBalance | AgroLink/src/App.tsx:601-636 | a withdrawal the checks admit debits at least 0.1 SOL and leaves a non-negative balance |
| Ledger.PaidToFans | AgroLink/src/App.tsx:329 | `paidToFans` is 0 without payouts and the single amount with one payout |
| Ledger.PaidToFansNonNegative | AgroLink/src/App.tsx:329 | the total is never negative when no payout is |
| Ledger.PaidToFansAppend | AgroLink/src/App.tsx:742  | appending a payout raises `paidToFans` by exactly its amount |
| Ledger.PaidToFansBounds | AgroLink/src/App.tsx:329 | with positive payouts the total is positive when there is a payout and at least each single payout |
| Analytics.CountOwned | AgroLink/src/App.tsx:327  | the sold count never exceeds the number of entries |
| Analytics.CountOwnedGrows | AgroLink/src/App.tsx:327  | raising `owned` flags never lowers the sold count |
| Analytics.FilterFarm | AgroLink/src/App.tsx:1699-1702 | the farm filter keeps exactly the entries of that farm |
| Analytics.FilterFarmCount | AgroLink/src/App.tsx:1699-1702 | the farm filter keeps each entry of that farm as often as it occurs and drops every other |
| Analytics.FarmView | AgroLink/src/App.tsx:1800-1803 | a factory user with a farm sees exactly its farm's entries, each as often as it occurs, anybody else the whole catalog |
| Analytics.Conversion | AgroLink/src/App.tsx:1703-1705 | conversion is 0 for no entries, lies in [0,1], and times the total gives the sold count |
| Analytics.Recommend | AgroLink/src/App.tsx:1725-1730 | the advice is "boost" below 0.3, "raise prices" above 0.7, "keep strategy" in between |
| Analytics.OwnedPriceSum | AgroLink/src/App.tsx:1706-1710 | the sold price sum is 0 when nothing is sold |
| Analytics.AveragePrice | AgroLink/src/App.tsx:1706-1710 | `avgPrice` is 0 when nothing is sold, and otherwise the mean: times the sold count it gives the sold price sum |
| Analytics.UniformPriceSum | AgroLink/src/App.tsx:1706-1710 | with one price for all entries, the sold price sum is that price times the sold count |
| Analytics.UniformAveragePrice | AgroLink/src/App.tsx:1706-1710 | with one price for all entries, the average sold price of a non-empty sale is that price |
| Analytics.Bump | AgroLink/src/App.tsx:1714-1717 | `acc[key] = (acc[key] \|\| 0) + 1` raises the total by one and only that key's count, by one |
| Analytics.BumpKeys | AgroLink/src/App.tsx:1714-1717 | after a bump the record lists exactly its old keys and the bumped key, still without duplicates |
| Analytics.TallyOf | AgroLink/src/App.tsx:1712-1718 | the reduced record lists no more products than there are sold entries |
| Analytics.TallySumsToSold | AgroLink/src/App.tsx:1711-1718  | the per-product counts add up to the sold count |
| Analytics.TallyCountsPerProduct | AgroLink/src/App.tsx:1810-1816  | each product's count is the number of sold entries with that product key, and no key is listed twice |
| Analytics.SoldByProduct | AgroLink/src/App.tsx:1711-1718  | the reducer loop builds exactly `TallyOf(es)` and its counts add up to the sold count |
| Analytics.Incoming | AgroLink/src/App.tsx:1806-1808 | the incoming offers are exactly the offers whose target is one of the farm's entries |
| Analytics.IncomingCount | AgroLink/src/App.tsx:1806-1808 | the incoming list keeps each offer on the farm as often as it occurs and drops every other |
| Analytics.OffersFunnel | AgroLink/src/App.tsx:1823-1827 | the funnel counts together never exceed the incoming offers |
| App.OfferIdShape | AgroLink/src/App.tsx:563 | the id starts with `offer_`, then the digits of the clock reading, a `_`, and digits that read back as the target's id |
| App.OfferIdNamesTarget | AgroLink/src/App.tsx:563 | two ids `offer_${now}_${nftId}` that are equal were built for the same entry |
| App.SameIdSameTarget | AgroLink/src/App.tsx:563 | two well-formed offers with the same id target the same entry |
| App.StatusChangeKeepsIds | AgroLink/src/App.tsx:578-599 | status changes keep every offer id naming its target |
| App.AcceptKeepsTargetsOwned | AgroLink/src/App.tsx:584-593 | after `acceptOffer` every accepted (or shipped) offer still targets owned entries |
| App.StatusChangeKeepsAcceptedOwned | AgroLink/src/App.tsx:578-599  | declining or shipping keeps every accepted offer targeting owned entries |
| App.ShipKeepsTargetsOwned | AgroLink/src/App.tsx:2048-2054  | shipping an accepted offer, as the table's button does, keeps every accepted or shipped offer targeting owned entries |
| App.AcceptKeepsInvariant | AgroLink/src/App.tsx:584-593 | accepting a known offer keeps the storefront invariant |
| App.PayoutStatusAsWritten | AgroLink/src/App.tsx:720-760 | the banner status `addPayout` leaves as written: unchanged without a wallet, success or error after a distribution |
| App.NoOwnersLeavesPending | AgroLink/src/App.tsx:727-737 | with a wallet and nothing sold the handler as written ends with the status pending; the corrected one does not |
| App.PayoutStatus | AgroLink/src/App.tsx:720-760 | the corrected status never stays pending, changes only when a distribution runs, and is success exactly when it succeeds |
| App.Storefront.constructor | AgroLink/src/App.tsx:155-329  | first launch: no session, no wallet, the 30-entry catalog, no offers or withdrawals, 25 SOL, 20 royalty, the two seed payouts, banner idle; royalty covered by payouts |
| App.Storefront.SoldCount | AgroLink/src/App.tsx:327 | the sold count never exceeds the catalog size |
| App.Storefront.RaisedSol | AgroLink/src/App.tsx:328 | raised SOL is at most one SOL per catalog entry |
| App.Storefront.RaisedIsPriceOfSold | AgroLink/src/App.tsx:328  | raised SOL is exactly the summed price of the sold entries |
| App.Storefront.WalletReady | AgroLink/src/App.tsx:516 | a connection holding the simulated key passes the `!connected \|\| !phantomPubkey` guard |
| App.Storefront.ConnectWallet | AgroLink/src/App.tsx:335-355  | connecting always succeeds with the simulated key, sets the banner to success and changes nothing else |
| App.Storefront.DisconnectWallet | AgroLink/src/App.tsx:357-363 | disconnecting drops the key, resets the banner to idle and changes nothing else |
| App.Storefront.CloseBanner | AgroLink/src/App.tsx:894-903 | the banner's Close button sets the status back to idle and changes nothing else; the invariant is kept |
| App.Storefront.HandleLogin | AgroLink/src/App.tsx:365-464 | on success the directory and session become those `Authenticate` gives, on a refusal nothing changes |
| App.Storefront.Logout | AgroLink/src/App.tsx:466 | logout ends the session and changes nothing else |
| App.Storefront.BuyNft | AgroLink/src/App.tsx:515-550 | a purchase succeeds iff a wallet is connected, the entry exists and the chain call resolves; no wallet changes nothing, a missing entry or a rejected call only sets the banner to error, success marks the entry owned |
| App.Storefront.SubmitOffer | AgroLink/src/App.tsx:557-576 | without a session or a target nothing changes; otherwise exactly one pending offer by the signed-in user is appended, with id `offer_${now}_${nftId}` and price `OfferPrice` |
| App.Storefront.DeclineOffer | AgroLink/src/App.tsx:578-582 | only the offers with the id become declined |
| App.Storefront.AcceptOffer | AgroLink/src/App.tsx:584-593 | an unknown id changes nothing; a known one marks the first such offer's entry owned and every offer with the id accepted, keeping accepted and shipped offers on owned entries |
| App.Storefront.ShipOffer | AgroLink/src/App.tsx:595-599 | only the offers with the id become shipped; shipping an accepted offer keeps accepted and shipped offers on owned entries |
| App.Storefront.ConfirmFiatWithdraw | AgroLink/src/App.tsx:601-646 | the withdrawal happens iff `CheckWithdrawal` passes for the clamped draft amount; then one processing record is queued and the balance drops by the amount, otherwise nothing changes; each refusal is reported as the one `CheckWithdrawal` gives |
| App.Storefront.QueueWithdrawal | AgroLink/src/App.tsx:625-636 | an accepted withdrawal's record is appended to the queue and its amount leaves the wallet balance; nothing else changes and the invariant is kept |
| App.Storefront.WithdrawRoyalty | AgroLink/src/App.tsx:648-681 | succeeds iff a wallet is connected, the royalty balance is positive and the distribution resolves; a rejected distribution is `TransactionFailed` and only sets the banner to error; success zeroes the balance; a refusal changes nothing; royalty stays covered by payouts |
| App.Storefront.MintAlbum | AgroLink/src/App.tsx:683-717 | refused without a connected wallet, changing nothing; otherwise only the banner moves, to success when the mint resolves and to error when it is rejected |
| App.Storefront.AddPayout | AgroLink/src/App.tsx:720-760 | succeeds iff a wallet is connected, some entry is owned and the distribution resolves; a rejected distribution is `TransactionFailed` and only sets the banner to error; success appends the payout and raises both the royalty balance and `paidToFans` by the amount; the banner ends as the corrected `PayoutStatus` |

## Findings

| source | as written | input that shows it | evidently intended | confidence | as-written member | corrected member |
|---|---|---|---|---|---|---|
| AgroLink/src/App.tsx:727-737 | `addPayout` sets the status to `pending`, then returns on "No NFT owners" without resetting it | wallet connected, no entry owned, press "+5": the status stays `pending`, so the buy, royalty, payout and mint buttons (lines 1458, 1565, 1581, 2003) stay disabled until the banner's Close button, a disconnect or a farms-page Buy resets the status | the refusal leaves the status as it was, as the wallet refusal does | high (not executed) | App.PayoutStatusAsWritten, App.NoOwnersLeavesPending | App.PayoutStatus (used by App.Storefront.AddPayout) |

## Left out

- Browser storage: the session, offers, withdrawals and balance persisted in `localStorage` and their JSON fallbacks (lines 162-234). The model starts from the first-launch defaults. The user directory is a field given to the constructor.
- Offers loaded from storage are not modelled. Only offers made by `SubmitOffer` exist, which is why every offer id has the `offer_${now}_${nftId}` shape.
- The chain simulator (lines 79-141): its timers and `Math.random` become the `chainOk` parameter. Transaction hashes, `lastPurchase` and alert texts are left out as presentation.
- Clock values are opaque parameters: `Date.now()`, the ISO eta and the payout date.
- Interleaving: the `authLoading` and `fiatSubmitting` guards and the `setTimeout` delays of `handleLogin` and `confirmFiatWithdraw`, and the `await` on the chain in `buyNft` (line 528), `withdrawRoyalty` (line 663), `mintAlbumNfts` (line 701) and `addPayout` (line 739). Each handler runs as one atomic step. In the source, the disconnect button (line 980), the farms page's Buy button (line 1392) and the banner's Close button (line 896) are not disabled while a call is pending, so they can run during an `await`; pressing Close sets the status to idle and re-enables every button gated on pending (lines 1458, 1565, 1581, 2003); for example, a disconnect and reconnect lets a second distribution start, and `setRoyaltyBalance(0)` (line 665) can then erase a payout added meanwhile. The model does not capture such interleavings.
- Floating point: `toFixed(2)` on the balance, `fmtSOL`, percentages and chart geometry, including `maxCount`/`maxProductCount`, which only scale bars. Amounts are exact hundredths, so the rounding at line 636 never changes a value here.
- Amounts.ParseDraft: covers only drafts the input filter admits, plus NaN for everything else. `Number()` on other text (exponents, signs, hex, white space) is not modelled, because the draft can never hold such text: it starts as "1" (line 194) and changes only through the filter (lines 1133-1134) and the prefill (line 1598). App.Storefront.ConfirmFiatWithdraw still takes any draft and reads it through this function.
- Amounts.ShowAmount: writes amounts in plain decimal. JavaScript's exponent notation for very large or very small numbers is not modelled, because the prefilled amount is at most 5 SOL.
- Identity.Authenticate: the form's farm selector is modelled as the number it holds. `Number()` on a non-numeric selector value is not modelled, because the selector only offers farm ids.
- String lengths count Dafny characters, not UTF-16 code units. The two agree for everything outside the astral planes.
- The offer list's sort by timestamp (line 1808): it does not change any count.
- The offer dialog's `counterPriceSOL` field and `handleCreate` (line 1831), which only shows an alert: they change no modelled state. The album form of `mintAlbumNfts` and the collection id it gets back are presentation; `App.Storefront.MintAlbum` models its banner.
- The `fiatAmount`, `fiatName` and `fiatIban` cells (lines 181-183): `confirmFiatWithdraw` writes them (lines 637-639), but nothing reads them.
- Markup, modal flags, tabs and the `NavBar`/`WithdrawModal` components: presentation. Their draft filter and mask duplicate the ones modelled.
- Offers.NewOffer: offer prices are taken to be whole hundredths of SOL. The offer field (lines 1512-1517) is a `number` input with `step=0.1` read through `Number()`, so the browser also accepts finer prices such as 0.125, which integer hundredths cannot express.
- App.Storefront.SubmitOffer: the target is a natural number, because the dialog is only opened on catalog entries, whose ids are positive.
