# Rukka books: verified model

This project models the bookkeeping rules of the Rukka Folio repository and proves what its run-time assertions, its
checker and its server rules promise, for every book, every run and every interleaving.

* **The reference-book engine** (`docs/accounting/reference-books/build.py`): vouchers are sorted, checked and posted into
  ledgers; balances, movements, the position, Receipts & Payments, the year close, the partners' appropriation, the balance
  sheet, the carry-forward and the agreement of two books are derived from them.
  Modules `Ledger`, `VoucherRules`, `BookPosting`, `Sharing`, `YearClose`, `CloseExact`, `LedgerTable`, `Reports`, `BalanceSheet`,
  `ReceiptsPayments`, `Family`, `CostMethod`, `Ageing`, `Loan`, and `PassingBooks` and `Findings` for books that pass every check.
* **The append-only ledger** (`docs/archive/reference/worked-examples-usecases/build.py`): entries, amendments, reversals,
  month locks, cash counts, daily balances, partner interest and the appropriation entry.
  Modules `EventLog`, `Chains`, `Locks`, `Counts`, `DailySeries`.
* **The printer and the independent checker** (`check_md.py`): amounts, their readers, and the checker's share test.
  Modules `Amounts`, `Sharing`.
* **Two server rules**: the entitlement token's re-mint rule (`entitlement.ts`) and the membership graph (`records.ts`).
  Modules `Entitlement`, `Membership`.

`Totals`, `Lines`, `Arith` and `Options` are shared tools.

Accounts are places in the chart, money is integer paise (+ on the Dr side), dates are day numbers with 01 Apr 2025 = 1.
A run-time assertion that can fail becomes a boolean or an absent result; one that cannot fail becomes a lemma.

## What the proofs found

Where the source's assertion is not a theorem, the exact condition is proved. For those marked with a lemma of `Findings`,
a family of books that pass every check of `finalize` shows the failure.

* The position's make-up assertion fails exactly when a fund stands on the Dr side: the position takes the fund's absolute
  amount. No voucher or balance check bounds a fund (`OverspentFundBreaksThePosition`). The balance sheet keeps the sign and
  is always level.
* Receipts & Payments is level exactly when transfers into and out of deposits cancel: a transfer is left out of the account,
  but a deposit is not cash or bank (`DepositBreaksReceiptsAndPayments`).
* A partnership's close never touches drawings or share-out heads, so with partners' accounts that are not heads its last
  check passes exactly when they stand at nil (`DrawingsStayOpenInAFirm`).
* The cost-method identity is out by openings of income and expense heads, by any other account of the pair, by drawings left
  out of the pair (`CostMethodIsOut`) and by a result closed to an account outside the pair (`ResultElsewhereIsOut`); none of
  these is checked. The exact gap is stated for every pair.
* A partner's rows of the balance sheet hold exactly when nobody else is paid into his accounts (`PartnersShareAnAccount`).
* A close by an owner's account that is itself a head leaves that head open, and carries balances that do not agree
  (`OwnersHeadStaysOpen`).
* The checker's one-paisa test is tighter than the sharing rule from three partners on.
* A book may start before the year, but no month before April 2025 can be locked: in such a book an entry dated before the
  year is admitted after every lock and moves every locked month's figures. In a book that starts with the year or later a
  month's figures are final exactly when none of its months so far is open.
* The figure read at a month's lock is the final figure exactly in books that do not start before the year and lock no
  earlier month later; otherwise there is a valid log whose figure leaves an entry out.
* The running daily series leaves out entries dated before the year, which the validator's recomputation counts: one such
  entry, in a book that started earlier, shows it. The two interests agree exactly when such entries cancel on the account or
  it is never in credit.
* The validator refuses every appropriation entry the producer makes for a loss, or for a profit smaller than the interest.
* Once plan changes stop, a pull mints exactly on expiry or when the stored token's writer began before the last subscription
  change did; one further pull, begun or not yet read once those writers are gone, ends that for good.

## Model

| member | source | states |
|---|---|---|
| `Ledger.ValidVoucher` | docs/accounting/reference-books/build.py:344-384 | what a voucher of each type may look like; results that need less than this take double entries only |
| `VoucherRules.VouchersByKind` | docs/accounting/reference-books/build.py:344-384 | a voucher passes the checks if and only if every line is on a kind of account that may stand on that side of that type, a collection box stands against cash, bank or income only, money stands in all but a journal, and contra and fund payment have their lines |
| `VoucherRules.FundShapeByParts` | docs/accounting/reference-books/build.py:358-368 | the counts and sums asked of a fund payment hold if and only if it is four lines of one amount: fund and cost debited, income and money credited |
| `Ledger.TrialBalanceAtEveryDate` | docs/accounting/reference-books/build.py:386-446 | on every date the balances rebuilt account by account from posted rows add up to what the openings add up to, for every book of double entries |
| `Ledger.TrialBalanceColumns` | docs/accounting/reference-books/build.py:410-414 | on every date the Dr column and the Cr column of the trial balance agree |
| `Ledger.RunningBalanceIsBalanceAt` | docs/accounting/reference-books/build.py:386-441 | in a book whose vouchers are in date order every ledger is too, and the running balance stored on the last row of a day is `balance_at` that day |
| `Ledger.MovementsJoin` | docs/accounting/reference-books/build.py:443-446 | the movements of two adjacent periods add up to the movement of the whole, on each side |
| `Ledger.BalancePlusMovement` | docs/accounting/reference-books/build.py:439-446 | a balance is the balance before a period plus the period's movement |
| `Ledger.MovementIsVoucherLines` | docs/accounting/reference-books/build.py:443-446 | the movement read from an account's ledger is what the period's vouchers put on each of its sides |
| `Ledger.PeriodColumnsAgree` | docs/accounting/reference-books/build.py:1059-1074 | over the whole chart the Dr side and the Cr side of any period's entries agree |
| `Ledger.ClosingIsBalanceAtYearEnd` | docs/accounting/reference-books/build.py:407-441 | the balance the last posting leaves is `balance_at` the last day of the year |
| `Ledger.PostingsMove` | docs/accounting/reference-books/build.py:391-406 | what the flattened postings move an account by, up to a date, is what the vouchers' own lines do |
| `BookPosting.SortIsStable` | docs/accounting/reference-books/build.py:333-336 | sorting orders the vouchers by date and leaves the entries of each day exactly as written: none added, lost or moved |
| `BookPosting.Book.V` | docs/accounting/reference-books/build.py:304-309 | an entry outside the year is refused and leaves the book as it was; otherwise it is appended |
| `BookPosting.Book.Post` | docs/accounting/reference-books/build.py:386-408 | the line-by-line loop over running balances leaves, on every account, exactly the ledger and closing balance the vouchers define |
| `BookPosting.Book.Finalize` | docs/accounting/reference-books/build.py:333-342 | the book is sorted, and goes through exactly when every voucher check and every balance check holds |
| `BookPosting.Book.ValidateBalances` | docs/accounting/reference-books/build.py:410-437 | the checks, made on the posted ledgers and closing balances, pass exactly when the balance checks of the vouchers' own book do |
| `PassingBooks.FinalisesByKind` | docs/accounting/reference-books/build.py:333-437 | a sorted book finalises if and only if its vouchers are allowed by kind and dated 01 Apr to 31 Mar in order, openings and closings net to nil, no running balance is where its kind may not stand, and there is a cash account |
| `CloseExact.ClosingColumnsAgree` | docs/accounting/reference-books/build.py:410-413 | the trial-balance check of a balanced book can never fail |
| `Sharing.HalfUpIsNearest` | docs/accounting/reference-books/build.py:132-135 | half-up rounding is the one integer within half a unit, a tie going up |
| `Sharing.ChosenIsEarliestLargest` | docs/accounting/reference-books/build.py:478-479 | the leftover paise go to the largest ratio, the earliest listed on a tie |
| `Sharing.SharesAddUp` | docs/accounting/reference-books/build.py:475-480 | the shares are the amount, nothing lost or made |
| `Sharing.OthersAreShortByLessThanAPaisa` | docs/accounting/reference-books/build.py:475-480 | every partner but the chosen one is short of the exact share by less than one paisa |
| `Sharing.ChosenTakesTheRest` | docs/accounting/reference-books/build.py:475-480 | the chosen partner is over by exactly what the others are short, between nil and (n-1) paise less (n-1) fractions |
| `Sharing.LargerRatioNeverGetsLess` | docs/accounting/reference-books/build.py:475-480 | a larger ratio never gets less; on equal ratios only the chosen partner gets more |
| `Sharing.SplitIsOdd` | docs/archive/reference/worked-examples-usecases/build.py:127-137 | a loss is shared exactly as the profit of the same size with signs turned, and the shares add up to it |
| `Sharing.CheckerAcceptsExactly` | docs/accounting/reference-books/check_md.py:731-734 | the checker's one-paisa test accepts a correct split if and only if the others' fractions come to less than a paisa |
| `Sharing.CheckerAcceptsTwoPartners` | docs/accounting/reference-books/check_md.py:731-734 | with two partners the checker accepts every correct split |
| `Sharing.CheckerRefusesACorrectSplit` | docs/accounting/reference-books/check_md.py:731-734 | at 2:2:1 the checker refuses the correct split of every amount that is 2 over a multiple of five |
| `YearClose.CloseEntries` | docs/accounting/reference-books/build.py:497-535 | the close goes through exactly when there is an own-money account or, in a partnership, a profit above the interest to share; what its entries do is `CloseDoes` |
| `YearClose.OwnerIsTheFirst` | docs/accounting/reference-books/build.py:487-495 | the result goes to the first capital account; to the first account of the Owner group where there is none |
| `YearClose.AppropriationIsTheResult` | docs/accounting/reference-books/build.py:461-480 | interest on capital and shares together are the whole result |
| `YearClose.PartnerPayIsTheResult` | docs/accounting/reference-books/build.py:461-480 | what the partners get adds up to the result, and no partner gets less than nothing |
| `YearClose.PartnersGetTheirPay` | docs/accounting/reference-books/build.py:461-480 | whatever list holds everyone's interest by its terms, each partner gets his and, of the rest, less than a paisa short of his own agreed share; only the earliest of the largest shares is left out of that |
| `YearClose.OnePayByTheTerms` | docs/accounting/reference-books/build.py:461-480 | those terms and the result leave one payment only |
| `YearClose.CreditedIsPay` | docs/accounting/reference-books/build.py:519-523 | the close's lines credit to a partner's own account exactly what he gets |
| `YearClose.CloseDoes` | docs/accounting/reference-books/build.py:497-561 | every generated entry nets to nil, the result and appropriation accounts end at nil, and each account ends at nil or where it stood, less what the close pays into it |
| `BookPosting.Book.MakeCloseEntries` | docs/accounting/reference-books/build.py:497-535 | the loops over heads build exactly those entries, once, and keep them; their lines credit each partner's own account with his pay |
| `BookPosting.Book.PostCloseBalances` | docs/accounting/reference-books/build.py:547-561 | adding every close line to its account gives the post-close balances; the two passing accounts come out nil; the last check is that the heads are nil |
| `CloseExact.OwnerCloseIsExact` | docs/accounting/reference-books/build.py:547-561 | one owner: all income, expense, drawings and share-out heads end at nil if and only if the owner's account is not one of them (or result and takings cancel) |
| `CloseExact.PartnersCloseIsExact` | docs/accounting/reference-books/build.py:515-561 | a partnership: the heads end at nil if and only if each drawings or share-out head stands at what partners are paid into it and none is paid into an income or expense head |
| `CloseExact.PartnersCloseLeavesDrawings` | docs/accounting/reference-books/build.py:515-561 | with partners paid into other accounts: if and only if no drawings or share-out head stands off nil, since that close never touches them |
| `CloseExact.OwnerOwnMoney` | docs/accounting/reference-books/build.py:1311-1314 | after a one-owner close own money is start + put in - taken + result, if and only if the result went to an own-money account (or came to nothing) |
| `CloseExact.PartnersOwnMoney` | docs/accounting/reference-books/build.py:1311-1314 | after a partnership's close own money is start + put in - taken + result if and only if every partner who is paid anything has an own-money account |
| `CloseExact.PartnersGetTheResult` | docs/accounting/reference-books/build.py:461-523 | what a partnership's close pays to accounts of some kinds is the whole result if and only if no partner paid anything has his account elsewhere |
| `CloseExact.CarriedBalancesAddUp` | docs/accounting/reference-books/build.py:1386-1431 | the two columns of the carry-forward agree if and only if the account the result goes to, or that of every partner who is paid anything, is not an income or expense head (or there is nothing to pay) |
| `CloseExact.CarriedOnceClosed` | docs/accounting/reference-books/build.py:558-560 | so they agree whenever the close's own last check has passed |
| `LedgerTable.Table` | docs/accounting/reference-books/build.py:647-682 | for any rows and any close rows the running balance ends at opening + Dr - Cr and the two columns of the ledger agree |
| `LedgerTable.YearLedgerCarriesDown` | docs/accounting/reference-books/build.py:647-682 | the year's ledger with its close rows is carried down at exactly the balance the next year opens with |
| `LedgerTable.ClosePostsAddUp` | docs/accounting/reference-books/build.py:537-545 | the close rows of an account add up to what the close entries put on it |
| `Reports.EquityPartsAreBalances` | docs/accounting/reference-books/build.py:453-459 | start + put in - taken out is what the own-money accounts stand at, on any date |
| `Reports.EquityPartsFromTheVouchers` | docs/accounting/reference-books/build.py:453-459 | start is what the own-money accounts opened with, put in what the year's vouchers credit to them so far, taken what they debit |
| `Reports.OwnMoneyIsPlaced` | docs/accounting/reference-books/build.py:994-1007 | own money made up from its movements and the result is the signed total of all placed accounts |
| `Reports.PositionAgainstBalances` | docs/accounting/reference-books/build.py:961-990 | have + get - give - funds is the signed total less twice every fund on the Dr side |
| `Reports.PositionMakeUp` | docs/accounting/reference-books/build.py:946-1007 | at every date of every balanced book the make-up equals the position if and only if no fund stands on the Dr side |
| `Reports.PlaceBalances` | docs/accounting/reference-books/build.py:967-975 | one pass over the chart puts every balance in one group by its kind and sign: a debtor under get, a fund under funds, else a debit under have and a credit under give; in chart order, at its absolute amount, and nothing else |
| `Reports.PositionTable` | docs/accounting/reference-books/build.py:961-1007 | the report's net, and its final assertion, which holds exactly when no fund is overspent |
| `BalanceSheet.SheetAgainstBalances` | docs/accounting/reference-books/build.py:1297-1310 | assets less liabilities and funds, as the sheet places them, are the signed balances for any balances at all |
| `BalanceSheet.SheetSides` | docs/accounting/reference-books/build.py:1297-1310 | by kind and sign: a debit that is no fund is an asset, everything else placed is kept with its sign among the liabilities |
| `BalanceSheet.Sheet` | docs/accounting/reference-books/build.py:1293-1357 | the two totals agree for every balanced book, partners who owe the firm included; each of the three other assertions has its exact condition in the balances and in who is paid where |
| `BalanceSheet.PartnerRows` | docs/accounting/reference-books/build.py:1320-1348 | the amounts of the partners' rows less what partners owe are interest + shares - their closing balances |
| `BalanceSheet.RowsComeTo` | docs/accounting/reference-books/build.py:1348 | the rows as printed, read back by `int_or` and added up, come to a total exactly when the amounts do |
| `BalanceSheet.EachPartnerIsPaid` | docs/accounting/reference-books/build.py:1320-1335 | a partner's rows hold if and only if his current account is paid his interest and share and no more, his capital account nothing, and neither is closed away |
| `BalanceSheet.EachPartnerHasHisAccount` | docs/accounting/reference-books/build.py:1320-1335 | on balance-sheet accounts: if and only if no other partner who is paid anything shares his current account and none is paid into his capital account |
| `BalanceSheet.YearMakesTheClosing` | docs/accounting/reference-books/build.py:1327-1329 | the other half of that assertion never fails: opening, put in and drawings make the closing |
| `ReceiptsPayments.VoucherCounts` | docs/accounting/reference-books/build.py:1260-1275 | of one valid voucher of any type, receipts less payments are the money it moved plus what it put into a deposit |
| `ReceiptsPayments.FundPaymentCountsItsCostOnce` | docs/accounting/reference-books/build.py:1263-1267 | the four-line fund payment is one payment of its cost: the money that left and the amount taken from the fund |
| `ReceiptsPayments.MoneyCloses` | docs/accounting/reference-books/build.py:1276-1278 | opening cash and bank plus what the vouchers moved are closing cash and bank |
| `ReceiptsPayments.ReceiptsAndPayments` | docs/accounting/reference-books/build.py:1259-1280 | the receipts side exceeds the payments side by exactly the net amount transfers moved into deposits |
| `ReceiptsPayments.Collect` | docs/accounting/reference-books/build.py:1259-1275 | the dictionaries built voucher by voucher hold each account's receipts and payments |
| `ReceiptsPayments.Account` | docs/accounting/reference-books/build.py:1254-1280 | the report goes through exactly when no receipt or payment credits an advance or a loan and transfers with deposits cancel |
| `PassingBooks.VoucherKeepsPassing` | docs/accounting/reference-books/build.py:333-446 | a checked voucher, dated no earlier than the last, keeps a passing book passing when the accounts it names may stand where it brings them |
| `Findings.OverspentFundBreaksThePosition` | docs/accounting/reference-books/build.py:344-446 | books that pass every check, whose position agrees with its make-up only while the fund covers the cost |
| `Findings.DepositBreaksReceiptsAndPayments` | docs/accounting/reference-books/build.py:1259-1280 | books that pass every check, whose Receipts & Payments account is out by what was put into a deposit |
| `Findings.DrawingsStayOpenInAFirm` | docs/accounting/reference-books/build.py:547-561 | partnerships that pass every check and close, whose last close check fails |
| `Findings.PartnersShareAnAccount` | docs/accounting/reference-books/build.py:1320-1335 | every firm of a family whose two partners share one account passes every check and closes, and not both partners' rows hold |
| `Findings.OwnersHeadStaysOpen` | docs/accounting/reference-books/build.py:547-561 | every book of a family whose owner's account is an income head passes every check; its close leaves the head open, and its carried balances do not agree, as soon as there is a result |
| `Findings.CostMethodIsOut` | docs/accounting/reference-books/build.py:1543-1565 | pairs of books that pass every check and agree entry for entry, where the cost-method assertion holds only if the running account makes up for the head opening and the drawings outside |
| `Findings.ResultElsewhereIsOut` | docs/accounting/reference-books/build.py:1543-1565 | such pairs where it holds only if the result, closed to an account outside the pair, is nil |
| `Family.MatchEntries` | docs/accounting/reference-books/build.py:1492-1501 | matching entry for entry goes through if and only if both books hold the same entries on opposite sides, and then pairs them one for one |
| `Family.PairClosings` | docs/accounting/reference-books/build.py:1543-1550 | books whose openings and entries agree stand opposite before the close, but for openings of income and expense heads |
| `CostMethod.StakeAgainstOwnMoney` | docs/accounting/reference-books/build.py:1543-1560 | before the close stake plus income is the business's own money seen from the other side, but for what stands beside |
| `CostMethod.ProfitKeptInABusiness` | docs/accounting/reference-books/build.py:1555-1565 | own money less stake equals profit less takings plus what stands beside the pair, less drawings left out of it, less the result closed elsewhere: the exact gap for every pair |
| `CostMethod.CostMethodIdentity` | docs/accounting/reference-books/build.py:1555-1565 | own money less the stake is the profit less the money taken home, if and only if what stands beside the pair is the drawings and the result outside it |
| `CostMethod.CostMethodOfAStakePair` | docs/accounting/reference-books/build.py:1555-1565 | so always for a pair as the source keeps it |
| `CostMethod.ProfitKeptInAFirm` | docs/accounting/reference-books/build.py:1555-1565 | a firm, any partners, accounts and names: the exact figure, and the identity against the named partners' part if and only if what stands beside makes up the difference in what the pair's accounts are paid |
| `CostMethod.CostMethodOfAFirm` | docs/accounting/reference-books/build.py:1555-1565 | so always when the own-money accounts of a stake pair are those of the named partners |
| `CostMethod.PairClosesAtPostClose` | docs/accounting/reference-books/build.py:1484-1520 | the printed account between two books ends at the post-close balances if and only if the pair's heads came in at nil |
| `CostMethod.RunningAccountsAgree` | docs/accounting/reference-books/build.py:1576-1579 | two running accounts agree at the foot if and only if the balances the closes bring to nil and the results they pay in are opposite |
| `CostMethod.PairsLeftAloneAgree` | docs/accounting/reference-books/build.py:1576-1579 | so always when neither pair holds a closed head, the owner account or a partner's current account |
| `Ageing.SettleLoop` | docs/accounting/reference-books/build.py:903-908 | the inner loop ends, and settles the amount against the oldest items |
| `Ageing.FifoOpenItems` | docs/accounting/reference-books/build.py:894-911 | the loop over rows up to a date leaves the open items of the history |
| `Ageing.OpenItemsAreTheLatest` | docs/accounting/reference-books/build.py:894-911 | after any history, with any crossings of nil, the queue is precisely the latest amounts of the balance's side that come to the balance, only the oldest one cut |
| `Ageing.OpenItemsComeToTheBalance` | docs/accounting/reference-books/build.py:927-928 | the queue stands on one side only, adds up to the balance, and is empty exactly at nil |
| `Ageing.OpenItemsOfALedger` | docs/accounting/reference-books/build.py:924-928 | on every account and date the open items add up to `balance_at` |
| `Ageing.BucketsPartTheBalance` | docs/accounting/reference-books/build.py:929-937 | the three age buckets part the absolute balance |
| `Ageing.Buckets` | docs/accounting/reference-books/check_md.py:546-550 | the buckets hold the amounts up to 30 days old, those up to 90, and the rest |
| `Ageing.PoolIsTheSignedQueue` | docs/archive/reference/worked-examples-usecases/build.py:935-958 | over every history the debit queue with its credit pool holds the same account as the signed queue, and pool and queue are never both in use |
| `Ageing.FifoAgeing` | docs/archive/reference/worked-examples-usecases/build.py:935-958 | it answers nothing unless the balance is Dr, and then the oldest date and total of the signed queue |
| `Loan.Schedule` | docs/accounting/reference-books/build.py:1896-1902 | the loop prints the statement row by row: something still owed, interest on it in the nearest whole rupee, interest and principal part together the instalment; it stops exactly when rounding is asked for a negative balance |
| `Loan.LoanIsPaidBackAndOwed` | docs/accounting/reference-books/build.py:1896-1902 | the principal parts and the outstanding are the loan |
| `Loan.OwedFalls` | docs/accounting/reference-books/build.py:1896-1902 | with an EMI above the first interest every instalment brings the outstanding down |
| `Loan.InterestFallsPrincipalRises` | docs/accounting/reference-books/build.py:1896-1902 | from one row to any later one interest never rises and the principal part never falls |
| `Loan.RoundingStaysNear` | docs/accounting/reference-books/build.py:1896-1902 | after n rounded instalments the outstanding is within 50 paise times 1 + (1+r) + ... + (1+r)^(n-1) of the unrounded recurrence |
| `Amounts.GroupDigits` | docs/accounting/reference-books/build.py:76-83 | the grouping loop puts groups of two in front of a last group of three |
| `Amounts.GroupedIsIndian` | docs/accounting/reference-books/build.py:76-83 | however long the number: last group of three digits, every other of two, the first of one or two |
| `Amounts.AmountsAsPrinted` | docs/accounting/reference-books/build.py:68-87 | nil prints as 0 or a long dash; any other amount as a true minus when negative, rupees grouped the Indian way with no nought in front, and two digits of paise only where there are any |
| `Amounts.IntOrInvertsFmt` | docs/accounting/reference-books/build.py:1377-1383 | for every amount `int_or` reads back what `fmt` printed, plain or bold, if and only if it is not the dash printed for nil |
| `Amounts.PaiseInvertsFmt` | docs/accounting/reference-books/check_md.py:62-75 | for every amount the checker's reader inverts the printer, the dash for nil included, plain or bold |
| `Amounts.IndianMatches` | docs/accounting/reference-books/check_md.py:24 | every Indian-grouped number matches the checker's amount pattern |
| `Amounts.RupeesAreTaken` | docs/accounting/reference-books/check_md.py:24 | the pattern takes digits alone, or digits with a first group of one to three and groups of two or three after every comma, and nothing else |
| `Amounts.SignedInvertsAmtSide` | docs/accounting/reference-books/check_md.py:78-83 | for every balance the checker reads back the amount and its side |
| `EventLog.Book.V` | docs/archive/reference/worked-examples-usecases/build.py:426-431 | an entry is appended and nothing else changes |
| `EventLog.Book.Amend` | docs/archive/reference/worked-examples-usecases/build.py:451-455 | an entry that is still a head is marked and replaced by a new one; otherwise nothing changes |
| `EventLog.Book.Reverse` | docs/archive/reference/worked-examples-usecases/build.py:457-462 | the original is marked and a mirror entry added |
| `EventLog.Book.Balances` | docs/archive/reference/worked-examples-usecases/build.py:502-515 | one pass over counted entries gives every account's balance, with or without the authored-before filter |
| `EventLog.AccountsTogetherAreNil` | docs/archive/reference/worked-examples-usecases/build.py:887-889 | whatever is counted, all accounts together are nil |
| `Chains.RunKeepsSound` | docs/archive/reference/worked-examples-usecases/build.py:735-822 | every admitted run, of a book that starts on any day, keeps every link forward, answered by a link back, and every entry balanced |
| `Chains.RunsStayBalanced` | docs/archive/reference/worked-examples-usecases/build.py:887-889 | on every run of a book that starts on any day, and every date, all accounts together are nil |
| `Chains.OneHeadAChain` | docs/archive/reference/worked-examples-usecases/build.py:361-369 | amend links part the log into chains, and exactly one entry of each chain counts |
| `Chains.AmendmentReplaces` | docs/archive/reference/worked-examples-usecases/build.py:451-455 | an amendment changes every balance by the new lines minus the old, each from its own date |
| `Chains.ReversalNetsToNil` | docs/archive/reference/worked-examples-usecases/build.py:457-462 | a reversal of an entry that stays head nets to nil on every account from the later of the two dates |
| `Chains.ReversalTakesOff` | docs/archive/reference/worked-examples-usecases/build.py:457-462 | reversing leaves balances before its date alone and takes the entry's lines off after it |
| `Chains.LockedFiguresNeverMove` | docs/archive/reference/worked-examples-usecases/build.py:755-815 | no admitted run ever moves an account's balance at a month's end if and only if every day the book may date an entry on up to then lies in a locked month: the book starts with the year or later and none of its months so far is open |
| `Chains.FiguresFromTheStart` | docs/archive/reference/worked-examples-usecases/build.py:755-815 | the same from the first day: after every run from the start, for every run that may follow |
| `Locks.LockFigures` | docs/archive/reference/worked-examples-usecases/build.py:822-828 | with the locks in order and a book that does not start before the year: the balances read at a lock over entries authored before it, the balances as the log stood then, and the balances now are one figure |
| `Locks.LockFiguresExactly` | docs/archive/reference/worked-examples-usecases/build.py:822-828 | the figure read at a month's lock is the final one in every valid book if and only if the locks are in order and the book does not start before the year |
| `Locks.LockAll` | docs/archive/reference/worked-examples-usecases/build.py:473-478 | every month is locked on its day of the next month, the twelve days spelled out |
| `Locks.LockAllFigures` | docs/archive/reference/worked-examples-usecases/build.py:473-478 | with the months locked that way, whatever the two days, the figures read at the locks are final in every valid book if and only if the book does not start before the year |
| `DailySeries.DailyBalanceSeries` | docs/archive/reference/worked-examples-usecases/build.py:547-563 | each day's running entry is the balance of the year's entries up to that day |
| `DailySeries.SeriesIsRecomputation` | docs/archive/reference/worked-examples-usecases/build.py:862-876 | the running series is the recomputed balance if and only if nothing dated before the year stands on the account |
| `DailySeries.EarlyEntryIsLeftOut` | docs/archive/reference/worked-examples-usecases/build.py:547-563 | an entry dated before the year is on no day of the series and earns nothing, and is on every day of the validator's recomputation |
| `DailySeries.PartnerInterest` | docs/archive/reference/worked-examples-usecases/build.py:1803-1819 | each partner's interest is the nearest paisa, half a paisa up, to a 365th of the rate on the year's credit balances of all 365 days |
| `DailySeries.SteadyCreditEarnsTheRate` | docs/archive/reference/worked-examples-usecases/build.py:1809-1814 | so much in credit on every day of the year earns the rate on it, half-up, and nothing else |
| `DailySeries.CreditSumsAgreeExactly` | docs/archive/reference/worked-examples-usecases/build.py:862-867 | the two sums over credit days are one exactly then; a Cr balance from before the year can only raise the validator's, a Dr balance only lower it |
| `DailySeries.InterestIsTheValidators` | docs/archive/reference/worked-examples-usecases/build.py:856-867 | at every rate the validator recomputes that interest if and only if nothing dated before the year stands on the account, or it is in credit on no day |
| `DailySeries.BookOfTheYear` | docs/archive/reference/worked-examples-usecases/build.py:856-867 | so in every book that starts with the year |
| `DailySeries.CreditDaysAreAmountsByDaysLeft` | docs/archive/reference/worked-examples-usecases/build.py:1809-1813 | for an account never in debit the sum over credit days is the sum of its amounts by the days they remained |
| `DailySeries.AppropriationBalances` | docs/archive/reference/worked-examples-usecases/build.py:1822-1839 | the one appropriation entry balances for a profit or a loss, any interest and any ratio |
| `DailySeries.AppropriationPaysEachPartner` | docs/archive/reference/worked-examples-usecases/build.py:877-886 | it moves each partner by interest and share, and Profit Distributed by the net result |
| `DailySeries.ValidatorAcceptsExactly` | docs/archive/reference/worked-examples-usecases/build.py:851-886 | given one net result and one set of interests, the validator's rules accept the producer's lines if and only if there is a profit and it covers the interest |
| `DailySeries.EntryIsAcceptedExactly` | docs/archive/reference/worked-examples-usecases/build.py:851-886 | recomputing net result and interest from the log with the entry in it, the validator accepts what the producer wrote if and only if there is a profit, it covers the interest, and both compute every partner's interest alike |
| `DailySeries.EntryOfABookOfTheYear` | docs/archive/reference/worked-examples-usecases/build.py:851-886 | in a book that starts with the year: if and only if there is a profit and it covers the interest |
| `Counts.PostCounts` | docs/archive/reference/worked-examples-usecases/build.py:628-647 | counts are taken against the book as it stands when reached, and each difference is posted |
| `Counts.CountsMove` | docs/archive/reference/worked-examples-usecases/build.py:628-647 | the counts move each account by its own differences and Adjustments by all of them, turned |
| `Counts.CountHolds` | docs/archive/reference/worked-examples-usecases/build.py:628-647 | after all are posted the book agrees with a count if and only if later counts of that account on that day cancel |
| `Counts.EveryCountHolds` | docs/archive/reference/worked-examples-usecases/build.py:628-647 | with at most one count of an account on a day every count holds at the end |
| `Counts.AdjustmentsTakeTheDifferences` | docs/archive/reference/worked-examples-usecases/build.py:636-646 | Adjustments ends lower by exactly the sum of the differences |
| `Entitlement.TokenNeverInventsEntitlement` | server/supabase/functions/_shared/entitlement.ts:63-194 | however pulls overlap after the last change, the stored token grants nothing beyond the present rows: a lapsed period has ended, grace needs dunning, and only extras the plan holds and may gate appear, once each |
| `Entitlement.TokenConverges` | server/supabase/functions/_shared/entitlement.ts:155-194 | once changes stop and earlier readers have finished, the first pull to finish leaves a token saying what the rows mean, and it stays so however pulls overlap |
| `Entitlement.TokenSaysThePlan` | server/supabase/functions/_shared/entitlement.ts:63-134 | that token spelled out: the plan the row names if the catalogue holds it, else the floor; its limits and gated extras in order; the row's own period end and grace; thirty days from its own time |
| `Entitlement.MintsExactlyWhen` | server/supabase/functions/_shared/entitlement.ts:185-194 | and then a pull mints if and only if the token has expired or its writer's transaction began before the last subscription change |
| `Entitlement.OneFurtherPullSettles` | server/supabase/functions/_shared/entitlement.ts:170-194 | once the pulls that began before that change are gone, one further pull settles the token: after it a pull mints only on expiry |
| `Entitlement.NoMintBeforeExpiry` | server/supabase/functions/_shared/entitlement.ts:155-194 | with no such pull in flight the first pull to finish settles it |
| `Entitlement.EarlyPullIsMintedAgain` | server/supabase/functions/_shared/entitlement.ts:185-189 | the other case occurs whatever is stored: an early pull that mints after the change stores a true token that any next pull mints again |
| `Entitlement.TimestampRuleStaysStale` | server/supabase/functions/_shared/entitlement.ts:170-184 | under the superseded timestamp rule one interleaving leaves an untrue token that no pull mints again before expiry; the byte rule mints at once |
| `Membership.Members.ApplyRecord` | server/supabase/functions/_shared/records.ts:160-201 | under any database answers: exactly which record is refused as what, which is written, and that every history stays a path of the graph |
| `Membership.EdgesFromBothEnds` | server/supabase/functions/_shared/records.ts:111-129 | the graph read from its far end: the statuses each status may be reached from |
| `Membership.PathsByReach` | server/supabase/functions/_shared/records.ts:111-129 | a history is a path if and only if it does not start blocked and every further step reaches its status from the one before |
| `Membership.Members.Run` | server/supabase/functions/_shared/records.ts:160-201 | the same over whole runs: histories only grow, and remain paths |
| `Membership.BlockedToActive` | server/supabase/functions/_shared/records.ts:111-121 | between a blocked and a later active there is a removed and, after it, a pending verification |

## Left out

- BookPosting.Book.Post: the particulars text naming the other accounts of an entry is not modelled, only date, entry, amounts and running balance; accounts are values in sequences, so sharing of account objects between books is not captured.
- BookPosting.Book.Finalize: entry-count limits, bank-holiday checks on deposits, references in narrations and voucher numbers are not modelled.
- BookPosting.Book.MakeCloseEntries: entry numbers and notes are not modelled; the kept entries are assumed to be those of the present postings; the source never posts again after closing.
- Membership.Members.ApplyRecord: the answer to `membershipStatus` is taken as the row itself, since an admin sees every row of his tenant and everyone his own; `isTenantAdmin`, `mayFileRecord` and the acceptance of the write may be anything. Only the membership arms are modelled; roles, devices, invites and verification events move no membership row, and the database's ceremony guard is one of its arbitrary answers.
- Entitlement.TokenConverges: canonical bytes stand for their payload one for one; signatures, byte encoding and the check that integers are safe are not modelled, and the floor plan is taken to be in the catalogue, as the database guards it.
- Amounts.PaiseInvertsFmt: cells carry no markup tags; only the plain space counts as white space.
- Counts.PostCounts: the counts are given in date order; library sorting and denomination sheets are not modelled.
- EventLog.Book.V: kind, narration, author, review and pending data of an entry are not modelled.
- EventLog.Book.Balances: the as-seen-on view of pending advances is not modelled, and the tags left out of a balance are modelled in `DailySeries` only; vouchers are values in the log, linked by their places.
- Chains.LockedFiguresNeverMove: review flags, membership roles, class shapes and the last day of the year are not modelled, only the validator's rules on the start of the book, dates, locks, amendments, reversals and balanced lines; entries are taken to be authored in the order they are added.
- DailySeries.EntryIsAcceptedExactly: the partners' accounts are distinct and, like Profit Distributed, no income or expense heads; the approvals and the at-most-one rule are not modelled, and no later entry follows the distribution.
- Loan.Schedule: the EMI is a parameter; due dates are not modelled; the decimal closed form that picks it, which also refuses a nil rate, is not modelled.
- Sharing.SharesAddUp: ratios are non-negative and not all nil; the source divides by their sum.
- Report text, column labels, sorting for print, the concrete example books, the bank extract, the Day Book and Cash Book: rendering and data.
- The checker's re-reading of printed tables row by row (ledgers, close entries, positions): the same sums over the same rows, once amounts read back.
- Class shapes, collection-box and review rules, inter-book links of the worked examples: single-entry checks without properties across operations.
- Guardian counting, recovery, billing and the database's policies: not in the modelled files.
