# The ledger, modelled and proved

Pacioli is a double-entry ledger: a Go service over Postgres whose schema refuses an entry that
does not balance, whose writes carry an idempotency key so that a retry never posts twice, and
whose balances are always derived from an append-only list of postings. This project models that
write protocol, the reads that must agree with it, and the request decoder in front of it, and
proves what they are for.

`dafny verify dfyconfig.toml` checks everything.

## How it is laid out

The ledger itself, one transaction at a time:

- `Text.dfy`, `Book.dfy`: the order and shapes of text, the tables, and sums over postings.
- `Engine.dfy`: one Postgres transaction over the schema. Its state is the tables, the queue of
  deferred trigger events and the mode of each deferrable constraint; a savepoint saves all three
  together, and a second savepoint of a name hides the first. Each statement is a function from one
  session to the next.
- `Invariant.dfy`: what every statement keeps, what COMMIT publishes, and what no statement undoes.
- `Checks.dfy`: the CHECKs as the regular expressions the schema writes, the column a refusal names,
  and that no run of statements breaks one or touches what was there.
- `Simple.dfy`: what `Open`, `Post` and `Once` mean, with no savepoints, events or modes in sight.
- `LedgerCalls.dfy`, `PostProof.dfy`: class `Tx`, whose methods send the same
  statements in the same order as the Go functions of the same names, each proved equal to its
  meaning in `Simple.dfy` from any valid transaction and over any savepoints.
- `Calls.dfy`, `Reads.dfy`, `Server.dfy`: whole runs of calls, reading an entry back, and
  POST /v1/transactions and POST /v1/accounts request after request.
- `Totals.dfy`, `Reversal.dfy`, `Naive.dfy`: the derived balances, the arithmetic of an entry, and
  the queued balance check against one full sum per leg.
- `Unsettled.dfy`: what an earlier call leaves unsettled refuses a later one that is sound.
- `Answers.dfy`: what each request is answered, said of the request and the book alone: the rule a
  refusal names, and what a 201 carries.

Sessions side by side:

- `Isolation.dfy`, `SessionWork.dfy`, `SessionHistory.dfy`: the balance rule when sessions interleave,
  at any isolation level; that each statement of the engine is a step of such a session; and that
  whole histories of transactions are runs of them.
- `Protocol.dfy`, `AtMostOnce.dfy`, `Progress.dfy`: the idempotency protocol as interleaved steps
  with crashes, cancellations and lost acknowledgements at every step; its refinement of an atomic
  map; and that it never deadlocks and always finishes.
- `Alone.dfy`: the two levels are one. What the server does with a request, statement by statement,
  is what one session of the interleaved machine does by itself.
- `Missed.dfy`: the run in which a taken key is not there to be read.

The edges:

- `Paging.dfy`: GET /v1/accounts and its cursor.
- `Decode.dfy`, `Faults.dfy`, `Values.dfy`, `Paths.dfy`, `Reordered.dfy`, `Fingerprint.dfy`: the body
  decoder, what its faults are, what it reads at every place, what the paths of faults name, what it
  cannot tell apart, and the claim a request carries.
- `Endpoint.dfy`: POST /v1/transactions from the body on, joining the decoder to the server and to the
  interleaved sessions.
- `Bodies.dfy`: the same by the names in the json: which bodies are taken, and that the entry posted
  is what they say, member for member.
- `JsonFields.dfy`: the walk of the request's type graph.

Four findings are worth stating in words.

- The comment on `replay`'s first branch calls it unreachable while nothing deletes keys
  (internal/ledger/idempotency.go:130). That holds at READ COMMITTED, which is what the endpoint
  uses; at REPEATABLE READ a run reaches it, exactly when the holder of the key committed after the
  session's snapshot was taken (`ReadCommittedFindsTheRow`, `SnapshotMissesTheRow`,
  `RepeatableReadCanMiss`, and `SaleIsMissed` for one run from nothing).
- `Post` asks for the balance of every entry its transaction still owes a check, and `Once` of every
  key it has not settled, so both refuse a sound call for what was left unsettled before it: `Post`
  accepts exactly the sound entries over a book that balances (`VerdictIsTheEntrys`), and `Once`
  records exactly those where every other key is settled too (`ClaimIsRecorded`). A transaction that
  shows each refusal is given (`UnfinishedEntryRefusesPost`, `UnsettledKeyRefusesOnce`). The net such
  a refusal carries is the refused entry's, although the check that raised was another's
  (`RaisedForItself`, `EarlierEntryRaises`).
- An entry's reversal is expressible leg by leg exactly when no leg is -2^63 (`NegationOfAnEntry`), and
  the ledger takes entries that have such a leg (`TakenAndNotReversible`).
- `jsonFields` lists a tagged field whether or not it is exported, where the decoder takes only
  exported ones (`ListedAndNotTaken`).

## Model

| member | source | states |
|---|---|---|
| `Book.BalancedHasTwoLegs` | internal/schema/0001_ledger.sql:80-91 | with zero amounts refused, a transaction the check accepts has at least two legs |
| `Engine.Innermost` | internal/ledger/ledger.go:110-111 | a savepoint name reaches the last one of that name, and nothing when there is none |
| `LedgerCalls.MissingSavepoint` | internal/ledger/ledger.go:120-131 | rolling back to or releasing a name no savepoint has is an error, after which the transaction takes nothing but a rollback |
| `Text.LessMeans` | internal/ledger/balance.go:117-123 | codes compare where they first differ, and one that ends there comes first: the order of every page |
| `Invariant.FireMeans` | internal/schema/0001_ledger.sql:114-144 | firing queued events succeeds exactly when each one asked passes; it then leaves the others queued in order and deletes exactly the balance_checks rows of the checks that fired; otherwise the error is one failing event's |
| `Invariant.ExecKeeps` | internal/schema/0001_ledger.sql:95-144 | every statement, accepted or refused, keeps the invariant in the state and in every savepoint: each transaction row balances or has a check queued, a balance_checks row exists exactly when its one deferred event is queued |
| `Invariant.RunKeeps` | internal/schema/0001_ledger.sql:95-144 | so does any sequence of statements: inserts, SET CONSTRAINTS either way, savepoints, rollbacks to them and releases |
| `Invariant.CommitMeans` | internal/schema/0001_ledger.sql:135-144 | COMMIT succeeds if and only if every transaction balances and every key has its result; what it publishes has no balance_checks row, no pending event, and two legs or more to every entry |
| `Invariant.CommittedIsAtRest` | internal/schema/0001_ledger.sql:68-144 | from a book at rest, whatever statements are sent, a commit that succeeds leaves a book at rest |
| `Invariant.CommitRefuses` | internal/schema/0001_ledger.sql:68-216 | a refused COMMIT raises the error of what is wrong: an entry that does not balance, or a key with no result |
| `Invariant.ExecExtends` | internal/schema/0001_ledger.sql:146-171 | no statement changes or removes a row that was there, nor the result of a settled key, in the state or in any savepoint |
| `Invariant.RunExtends` | internal/schema/0001_ledger.sql:146-233 | over any statements, committed postings and transactions stay and a settled key keeps its first result and its hash |
| `Checks.AccountChecked` | internal/schema/0001_ledger.sql:23-31 | the column an account is refused for is the first, by constraint name, that its regular expression or its rule for words does not take; none exactly where all do |
| `Checks.TransactionChecked` | internal/schema/0001_ledger.sql:37-42 | so is the column of a transaction row |
| `Checks.KeyChecked` | internal/schema/0001_ledger.sql:174-181 | so is that of a key: its shape, then the 32 bytes of its hash |
| `Checks.RunFits` | internal/schema/0001_ledger.sql:23-181 | over any statements, taken or refused, every account, transaction and key in the tables and in every savepoint meets its CHECKs |
| `Checks.HistoryIsRefused` | internal/schema/0001_ledger.sql:146-233 | after any statements, UPDATE or DELETE of a row that was there when the transaction began is refused as append-only, so is TRUNCATE, and any update of a key then settled as already settled |
| `PostProof.EnteredBalances` | internal/schema/0001_ledger.sql:68-93 | with an entry in, the whole book balances exactly when it did before and the entry has legs summing to zero |
| `PostProof.EntryPasses` | internal/ledger/ledger.go:167-170 | SET CONSTRAINTS IMMEDIATE after the legs passes exactly when the book balanced on entry, the entry has legs, and they sum to zero |
| `PostProof.EntryFired` | internal/ledger/ledger.go:167-173 | the settle reaches the two balance constraints only: other events stay queued in order, and no check row is left |
| `LedgerCalls.NetOf` | internal/ledger/ledger.go:97-105 | the loop returns the exact sum of the legs and how many there are |
| `LedgerCalls.Tx.Post` | internal/ledger/ledger.go:113-133 | from any valid transaction: the tables and the reply are those of the simple meaning; accepted, the savepoints are untouched, both balance constraints end deferred and no other event is lost; refused, tables, events and modes are those on entry, under one more savepoint |
| `LedgerCalls.Tx.PostBody` | internal/ledger/ledger.go:135-175 | the statements of post, in order, end in the verdict the pure function gives, with the id drawn on entry |
| `LedgerCalls.Tx.WriteLegs` | internal/ledger/ledger.go:154-165 | legs are sent in order up to the first the server refuses, and that one is the first at fault |
| `LedgerCalls.RefusalIsTheVerdict` | internal/ledger/ledger.go:225-297 | the SQLSTATE of the first leg at fault, classified and completed by a second look at the chart, is the verdict itself: leg, rule, and the currency its account holds |
| `LedgerCalls.LegClassified` | internal/ledger/ledger.go:225-248 | the SQLSTATE of each rule a leg can break is classified back to that rule and that leg |
| `LedgerCalls.Tx.Open` | internal/ledger/accounts.go:39-62 | the tables and the reply are those of the simple meaning; a refusal restores tables, events and modes and leaves one savepoint |
| `LedgerCalls.AccountSent` | internal/ledger/accounts.go:64-117 | the refusal read off the SQLSTATE and a second look is the one the chart and the CHECKs call for |
| `LedgerCalls.Tx.Once` | internal/ledger/idempotency.go:47-116 | from any valid transaction: tables and reply are those of the simple meaning of a claim, for any write callback that opens accounts and posts entries; every refusal and every replay restores tables, events and modes exactly, and the savepoint reached is the one this call pushed; a fresh record leaves no key event queued, the settled check deferred again, and every other event and mode as the posts under it left them |
| `LedgerCalls.UnderIsInnermost` | internal/ledger/idempotency.go:149-160 | whatever savepoints the callback's own refusals leave above, rolling back or releasing reaches the one `Once` pushed |
| `LedgerCalls.Tx.Perform` | internal/ledger/idempotency.go:80-87 | the callback's calls take effect in order inside the claim, and leave only their own savepoints behind |
| `LedgerCalls.Tx.Reserve` | internal/ledger/idempotency.go:55-68 | the reservation is refused for its shape first, then as a duplicate, and otherwise holds the key with no result |
| `LedgerCalls.Tx.SettleKey` | internal/ledger/idempotency.go:89-110 | the result is recorded when its transaction exists, and the claim is refused when any key of the transaction is left unsettled |
| `Calls.HeldIsReplayed` | internal/ledger/idempotency.go:118-147 | a settled key answers a well-formed claim with its own transaction, marked replayed, exactly when the hash is the stored one, and as reuse otherwise; nothing is written |
| `LedgerCalls.SettledAsked` | internal/schema/0001_ledger.sql:188-216 | asking for settled keys succeeds exactly when every key in the tables names a transaction and otherwise raises LB003, and changes no table |
| `LedgerCalls.ResultSent` | internal/schema/0001_ledger.sql:218-233 | the update writes the result of a key that has none, and is refused by the foreign key when no such transaction exists |
| `LedgerCalls.FirstResultStays` | internal/ledger/idempotency.go:89-93 | recording a result under a key that has one, or that nobody holds, writes nothing and raises nothing |
| `Calls.CallAll` | internal/ledger/ledger.go:110-133 | any list of `Open`, `Post` and `Once` calls in one transaction, accepted or refused in any pattern, leaves the tables and replies their meanings give, with every savepoint of the caller's still in place |
| `Calls.OnlyTheAcceptedCount` | internal/ledger/idempotency.go:41-116 | the final tables are exactly the effect of the accepted calls alone, in order |
| `Calls.RefusedChangesNothing` | internal/ledger/ledger.go:113-127 | a refused call, and a replay, change no table |
| `Calls.ClaimIsFinal` | internal/ledger/idempotency.go:47-49 | after a claim is recorded and any later calls, the same request under the key is answered with the first transaction and writes nothing, and any other is refused as reuse |
| `Calls.OneResultPerKey` | internal/ledger/idempotency.go:33-39 | over any run, two records under one key name one transaction, for one fingerprint, and the second is marked replayed |
| `Reads.EntryOf` | internal/ledger/ledger.go:177-223 | the loop over the joined rows reads exactly the entry held under the id, or none |
| `Reads.LegRowsReadBack` | internal/ledger/ledger.go:199-218 | the rows written for an entry's legs read back as those legs, in the order they were sent, over any larger chart |
| `Reads.RunLeavesLegs` | internal/schema/0001_ledger.sql:146-162 | no later call adds a leg to a transaction already written |
| `Reads.PostReadsBack` | internal/ledger/ledger.go:113-223 | what `Post` accepts, `EntryOf` reads back as it was sent, then and after any later calls; only an absent moment is filled in |
| `Server.RecordedCommits` | internal/ledgerhttp/ledgerhttp.go:118-120 | a recorded write leaves every entry balanced, every key settled and no check queued, so no deferred check can refuse its COMMIT |
| `Server.Pool.PostTransaction` | internal/ledgerhttp/transactions.go:94-181 | one request reserved, posted and read back in one transaction, committed or rolled back: the ledger and the answer are the specified ones and a book at rest is left at rest, also when the COMMIT fails or is not acknowledged |
| `Server.Pool.OpenAccount` | internal/ledgerhttp/accounts.go:41-64 | one account opened and read back in one transaction, committed or rolled back, a book at rest left at rest |
| `Server.OpenedIsEmpty` | internal/ledgerhttp/accounts.go:41-64 | an account just opened is answered as it was asked for, with a balance of zero over no postings |
| `Server.ServeAll` | internal/ledgerhttp/ledgerhttp.go:98-122 | request after request goes from one book at rest to the next, posts and account openings in any order |
| `Server.CreatedStands` | internal/ledgerhttp/transactions.go:145-181 | a 201's body is what the ledger reads back under that key from then on, a replay's was already, and a fresh one's key was not taken |
| `Server.ServedKeeps` | internal/ledgerhttp/transactions.go:216-230 | what stands under a key goes on being read back the same after any request |
| `Server.OneBodyPerKey` | internal/ledgerhttp/transactions.go:94-181 | over any run, every 201 under one key carries one id and one body, legs as sent; only the first is not a replay; another fingerprint is refused as a conflict whatever becomes of its COMMIT |
| `Server.RetryIsAnswered` | internal/ledgerhttp/transactions.go:145-181 | after a 201, or a commit whose acknowledgement was lost, the same request under the same key is answered with the first result at any later time, and the ledger is left as it was |
| `Answers.VerdictExplains` | internal/ledger/ledger.go:135-175 | over a book that balances, `Post` refuses an entry for a reason if and only if it is the first rule the entry breaks: the first column that does not fit; else the first leg on no account, or of zero, or on an account of another currency, which is named; else no legs or a net that is not zero, with that net and how many legs |
| `Answers.OneVerdict` | internal/ledger/ledger.go:225-259 | an entry is taken, or refused for exactly one such reason |
| `Answers.LastReplyIs` | internal/ledger/idempotency.go:80-87 | the reply a write is left with is that of its last `Post`, made of the ledger the calls before it left |
| `Answers.WriteIsAnswered` | internal/ledger/idempotency.go:80-116 | of a free key: a write that gives up, or whose last `Post` was refused, is refused with that reply and changes no table; one that names a transaction is recorded where the transaction exists and every other key is settled, and refused for whichever fails first |
| `Answers.ClaimSaysWhy` | internal/ledger/idempotency.go:80-87 | a claim of a free key over a book that balances is refused with a reason if and only if its entry breaks that rule first |
| `Answers.PostIsAnswered` | internal/ledgerhttp/transactions.go:94-181 | what every post is answered by a book at rest: no key; more than 1000 postings, with how many; the column of a malformed key; a conflict; the first result, read back; the first rule its entry breaks; or a 201 with the next id and its own currency, description and legs |
| `Answers.OpenIsAnswered` | internal/ledgerhttp/accounts.go:41-64 | what every account opening is answered: a kind that is none of the five, which are listed; the first column that does not fit; the account that holds the code; or the account as asked for, with nothing on it |
| `Totals.BalanceOf` | internal/ledger/balance.go:88-103 | an unknown code is refused, and only an unknown code |
| `Totals.BalanceIsTheAccounts` | internal/schema/0001_ledger.sql:237-251 | the row answered for a code has that account's own columns, the plain sum of the amounts posted to it and their number |
| `Totals.TrialBalance` | internal/ledger/balance.go:176-207 | exactly one row to each currency an account is held in, in currency order; in every well-formed book each row reports its postings as `TrialReports` says |
| `Totals.TrialReports` | internal/ledger/balance.go:180-185 | in every well-formed book, at rest or not: debits are the sum of the positive amounts posted in the currency, credits the sum of the negative ones turned positive, net their difference, balanced exactly when they are equal, and the counts those of its accounts and postings |
| `Totals.JoinedByAccount` | internal/ledger/balance.go:180-189 | a currency's aggregate over the left join is the sum over its accounts |
| `Totals.Regrouped` | internal/schema/0001_ledger.sql:59-61 | summed by account or by entry, one currency's postings come to the same, because both foreign keys carry the currency |
| `Totals.TrialCountsPostings` | internal/ledger/balance.go:178-207 | an aggregate over the left join of a currency's accounts is that aggregate over the currency's postings, every one counted once |
| `Totals.TrialCountsRows` | internal/ledger/balance.go:185-186 | the two counts of a trial row are the currency's accounts, those nothing was posted to among them, and its postings |
| `Totals.TrialIsBalanced` | internal/ledger/balance.go:22-34 | in every book at rest, for every currency, debits equal credits, net is zero, and net is the sum of the account balances |
| `Totals.RunningIsDerived` | internal/schema/0001_ledger.sql:235-251 | a running total kept at each posting equals the derived balance and count |
| `Totals.GroupedIsDerived` | internal/ledger/balance.go:180-189 | the grouped left join gives an account its derived balance and count, also with no postings |
| `Totals.BalancesAgree` | internal/schema/0001_ledger.sql:235-251 | the lateral view, the grouped join and the running total agree for every account |
| `Reversal.WrappedSumMeans` | internal/schema/0001_ledger.sql:72-73 | a 64-bit wrapping sum is zero exactly when the true net is a multiple of 2^64 |
| `Reversal.WrappingWouldPass` | internal/ledger/ledger.go:97-98 | three legs the schema holds whose wrapping sum is zero and whose net is 2^64 |
| `Reversal.SumIsBounded` | internal/ledger/ledger.go:97-105 | the net of n legs is at most n times 2^63 in size |
| `Reversal.LoopIsTrigger` | internal/schema/0001_ledger.sql:75-78 | for any entry, whether or not it cancels, the sum the trigger takes over the rows written is the net the loop computes, over as many legs |
| `Reversal.RefusalTellsTheNet` | internal/ledger/ledger.go:250-259 | the net and the count an unbalanced refusal carries are those of the entry's own rows |
| `Invariant.FireRaisesFirst` | internal/schema/0001_ledger.sql:113-144 | a firing that is refused raises the error of the first event asked that fails, in queue order |
| `Unsettled.RaisedForItself` | internal/ledger/ledger.go:167-170 | when the settle of an entry whose legs are all in is refused, the check that raises is the entry's own if and only if the book balanced before it; then the refusal's net and count are what that check found |
| `Unsettled.EarlierEntryRaises` | internal/ledger/ledger.go:250-259 | a transaction where an earlier row's check raises, over no postings, and the refusal says two that net to zero |
| `Reversal.VerdictIsTheEntrys` | internal/ledger/ledger.go:115-175 | an entry is accepted if and only if it breaks no rule of its own (its row well formed, every leg a non-zero amount on an account in its currency, legs that sum to zero) and every entry of the book balances |
| `Unsettled.ClaimIsRecorded` | internal/ledger/idempotency.go:80-115 | a claim of a free key to post an entry is recorded if and only if the entry is sound, the book balances and every other key is settled; it is refused for the other keys exactly when they are all that is wrong |
| `Unsettled.UnfinishedEntryRefusesPost` | internal/ledger/ledger.go:167-170 | a transaction of three statements that leaves a row without legs, and a sound entry it then refuses, taken without that row |
| `Unsettled.UnsettledKeyRefusesOnce` | internal/ledger/idempotency.go:101-107 | the same for a key left without a result and a sound claim |
| `Reversal.RefusedLegIsTheFirst` | internal/ledger/ledger.go:225-248 | the leg refused is the first at fault, and unknown comes before zero, zero before the wrong currency |
| `Reversal.NegationExpressible` | internal/schema/0001_ledger.sql:55-56 | an amount has a negation a posting can hold exactly when it is not -2^63 |
| `Reversal.NegationOfAnEntry` | internal/schema/0001_ledger.sql:55-56 | an entry's legs can be negated one by one if and only if none is -2^63 |
| `Unsettled.TakenAndNotReversible` | internal/schema/0001_ledger.sql:150-152 | an entry with a leg of -2^63 that the ledger takes and no entry reverses leg by leg |
| `Reversal.ReversalIsAccepted` | internal/schema/0001_ledger.sql:150-152 | the reversal of an accepted entry is accepted |
| `Reversal.ReversalRestores` | internal/schema/0001_ledger.sql:150-152 | an entry and then its reversal put every account's balance back |
| `Reversal.SidesOnlyGrow` | internal/ledger/balance.go:22-31 | both sides of every currency only ever grow |
| `Naive.ExecAlike` | internal/schema/0001_ledger.sql:102-129 | statement by statement, queueing one check an entry is simulated by one full sum per leg |
| `Naive.SameCommits` | internal/schema/0001_ledger.sql:95-144 | over any statements both designs accept and refuse the same transactions at COMMIT and publish the same tables |
| `Naive.QueuedEntry` | internal/schema/0001_ledger.sql:102-111 | sending an entry's statements leaves one check queued for all its legs |
| `Naive.NaiveEntry` | internal/schema/0001_ledger.sql:102-111 | sending the same statements to the naive design leaves one check queued for each leg |
| `Naive.SettlingReads` | internal/schema/0001_ledger.sql:104-108 | of the two states those runs reach, for n legs: one check row and 2n postings to read to settle it, against n + n^2 |
| `Isolation.CheckSquares` | internal/schema/0001_ledger.sql:75-91 | a check over a session's own legs and any snapshot of committed sessions that holds the creator proves the session's own legs net to zero |
| `Isolation.StepKeeps` | internal/schema/0001_ledger.sql:95-144 | every step of any session keeps the invariant over all sessions and savepoints |
| `Isolation.CommittedBalances` | internal/schema/0001_ledger.sql:68-144 | in every reachable world, at any isolation level, each committed session owes no check and moved every entry by zero on balance, and any snapshot holding an entry's creator sees it balanced over two legs or more |
| `SessionWork.CheckIsOverBoth` | internal/schema/0001_ledger.sql:75-78 | the trigger's sum is over the session's own legs and those it began on, which is what a check asks in the interleaved sessions |
| `SessionWork.ExecIsAStep` | internal/schema/0001_ledger.sql:95-144 | every statement taken, savepoints aside, creates, appends or writes nothing as the interleaved session does, and then passes checks; what a session owes is exactly the entries its queued events name |
| `SessionWork.WrittenIsKnown` | internal/schema/0001_ledger.sql:59-61 | a leg is only ever added to, and a check only owed on, an entry whose row the session can see |
| `SessionHistory.ExecLeads` | internal/schema/0001_ledger.sql:95-144 | any statement, taken or refused, savepoints, rollbacks to them and releases among them, leads to acts of the interleaved session that are enabled |
| `SessionHistory.RunLeads` | internal/schema/0001_ledger.sql:95-144 | so does a whole run of statements |
| `SessionHistory.CommitLeads` | internal/schema/0001_ledger.sql:135-144 | a commit taken is the checks still owed and then a commit, after which the committed sessions hold exactly the book's legs and entries |
| `SessionHistory.HistoryIsReached` | internal/schema/0001_ledger.sql:68-144 | any history of transactions, committed or not, from an empty ledger reaches a world of the interleaved sessions whose committed ones are the book |
| `SessionWork.CommitOwesNothing` | internal/schema/0001_ledger.sql:135-144 | a commit taken has passed every check still owed |
| `Protocol.StepKeeps` | internal/ledger/idempotency.go:50-116 | every interleaved step keeps: committed keys and entries in bijection, ids fresh, one holder of a key or code, snapshots past states, and every answer true of the ledger |
| `Protocol.RunIsValid` | internal/ledgerhttp/ledgerhttp.go:98-122 | so does every run, with failures and lost acknowledgements at any step |
| `AtMostOnce.OpenedIsHeld` | internal/ledger/accounts.go:46-62 | in every run, an account answered as opened is in the ledger, and no other session is answered so for its code |
| `AtMostOnce.StepRefines` | internal/ledger/idempotency.go:50-147 | each step of any session is one step of an atomic map from key to fingerprint, id and entry: nothing, one insertion of a fresh key and id, or one lookup |
| `AtMostOnce.RunRefines` | internal/ledger/idempotency.go:50-147 | every run of the sessions is a run of the atomic map from empty |
| `AtMostOnce.CommittedIsFinal` | internal/schema/0001_ledger.sql:218-233 | a committed key's hash and result, and every committed entry, never change |
| `AtMostOnce.KeysAndEntriesMatch` | internal/schema/0001_ledger.sql:173-216 | in every reachable state committed keys and committed entries match one to one |
| `AtMostOnce.AnswersAgree` | internal/ledgerhttp/transactions.go:145-181 | two 201s under one key, from interleaved sessions, carry one id, one body and one claim, and one of them is a replay |
| `AtMostOnce.AnswerIsTheRequests` | internal/ledgerhttp/transactions.go:205-213 | where a fingerprint tells requests apart, every 201 carries the entry its own request sent |
| `AtMostOnce.OtherRequestsConflict` | internal/ledger/idempotency.go:136-140 | a 201 is only given where the fingerprint is the committed one, and a conflict only where it is not |
| `AtMostOnce.ReadCommittedFindsTheRow` | internal/ledger/idempotency.go:128-146 | at READ COMMITTED a session refused as a duplicate finds the row, with a transaction: the two broken branches are reached in no run |
| `AtMostOnce.SnapshotMissesTheRow` | internal/ledgerhttp/ledgerhttp.go:98-108 | at REPEATABLE READ the row is missed exactly when the key is not in the session's snapshot |
| `Missed.RepeatableReadCanMiss` | internal/ledger/idempotency.go:129-131 | from any book at rest and any entry it takes under a free key: a REPEATABLE READ session asks for the key, another commits what the statements commit, and the first finds no row; every other session stays as it was |
| `Missed.SaleIsMissed` | internal/ledger/idempotency.go:129-131 | one such run from nothing: two sessions answered as having opened the accounts, a third a two-leg entry the ledger takes, the ledger committed being what its statements commit, and a fourth that finds no row |
| `Alone.HeldServed` | internal/ledger/idempotency.go:118-147 | in a book at rest, a key that is taken is answered by its row, whose transaction is there: a conflict, or the first entry |
| `Alone.FreshServed` | internal/ledgerhttp/transactions.go:145-161 | a fresh key draws one id and commits the entry under it, or nothing |
| `Alone.EnteredDb` | internal/ledger/idempotency.go:80-116 | the committed tables are the old ones and one key with its entry: every entry named before reads as it did |
| `Alone.OneRequestIsOneSession` | internal/ledgerhttp/ledgerhttp.go:98-122 | one request served statement by statement ends in the ledger, the next id and the answer that one session of the interleaved machine ends in, for every fate of its COMMIT |
| `Alone.ServerIsARun` | internal/ledgerhttp/ledgerhttp.go:98-122 | any sequence of requests served leads the interleaved machine to the same ledger, each answer its session's |
| `Alone.ServerIsTheMachine` | internal/ledgerhttp/ledgerhttp.go:98-122 | so whatever is asked of an empty server, posts and account openings with any fate, is a run of the machine from nothing, and all that is proved of runs holds of it |
| `Progress.NoChain` | internal/ledger/idempotency.go:60-64 | a session that waits holds nothing another can wait on |
| `Progress.NeverStuck` | internal/ledger/accounts.go:46-49 | an unfinished session takes its next step or waits for one that can take its own |
| `Progress.StepFinishes` | internal/ledgerhttp/ledgerhttp.go:98-122 | every step but an arrival leaves less to do |
| `Progress.StoppedIsDone` | internal/ledger/idempotency.go:60-64 | no step is possible exactly when every session is done: there is no deadlock |
| `Progress.EverySessionFinishes` | internal/ledgerhttp/ledgerhttp.go:98-122 | from any reachable state, under any schedule, sessions that go on while they can finish within the measure |
| `Paging.PageSize` | internal/ledgerhttp/ledgerhttp.go:440-458 | a page size taken is from 1 to 1000 |
| `Paging.AtoiMeans` | internal/ledgerhttp/ledgerhttp.go:446-447 | a number is one sign at most and then digits, and is what they say place by place |
| `Paging.NextAsksForTheRest` | internal/ledgerhttp/ledgerhttp.go:460-472 | the address of the next page reads back as the same filter and size, past the last code answered |
| `Paging.Balances` | internal/ledger/balance.go:105-155 | a kind that is none of the five is refused and nothing else; otherwise the matching accounts in code order, up to the limit |
| `Paging.Accounts` | internal/ledgerhttp/ledgerhttp.go:378-438 | asking for one account past the page answers exactly the first page, with a next page if and only if there is more |
| `Paging.PageDescribes` | internal/ledgerhttp/ledgerhttp.go:405-433 | every row of a page is of an account of the currency and kind asked for and past the cursor, with its code, name, currency and kind, the sum of the amounts posted to it and their number |
| `Paging.PageLeavesTheRest` | internal/ledgerhttp/ledgerhttp.go:423-436 | rows come in code order, as many as were asked for where there is a next page, 100 where none were; an account asked for and not on the page comes after its last |
| `Paging.RefusalSays` | internal/ledgerhttp/ledgerhttp.go:390-422 | a query is refused for the first thing wrong: the least name that is none of the four, then a size not from 1 to 1000, then an unknown kind |
| `Paging.PagesAscend` | internal/ledger/balance.go:116-123 | following next, while accounts are opened, every code listed matches and codes strictly increase across pages, so none comes twice |
| `Paging.NothingIsMissed` | internal/ledgerhttp/ledgerhttp.go:378-438 | every account matching when the first page was asked for is listed by the end |
| `Paging.CursorAdvances` | internal/ledgerhttp/ledgerhttp.go:434-436 | whatever a later chart holds, each page leaves fewer codes past the cursor, by the page's own size |
| `Paging.RequestsAreBounded` | internal/ledgerhttp/ledgerhttp.go:378-438 | the requests made are bounded by the matching accounts of the chart as it then stands |
| `Paging.WalkEnds` | internal/ledgerhttp/ledgerhttp.go:434-436 | any query answered with a page can be followed to an end: each address given is itself answered with a page |
| `Paging.UnchangingChart` | internal/ledgerhttp/ledgerhttp.go:378-472 | over an unchanging chart the pages are exactly the filtered chart in code order, in max(1, ceil(n/page)) requests |
| `Decode.ReadValue` | internal/ledgerhttp/decode.go:132-145 | the value read and the faults returned are the specified ones, dispatched on the type |
| `Decode.ReadLeaf` | internal/ledgerhttp/decode.go:146-152 | a leaf that cannot read its literal is one fault, at its own path |
| `Decode.ReadArray` | internal/ledgerhttp/decode.go:154-178 | elements are read up to the counted bound, each fault under its index, and the slice is as long as was sent |
| `Decode.ReadObject` | internal/ledgerhttp/decode.go:180-214 | fields in declared order and then undefined names in name order, null refused |
| `Decode.LeafUnder` | internal/ledgerhttp/transactions.go:282-288 | the last name in a path under an object is the field's own |
| `Decode.GotIsTheLast` | internal/ledgerhttp/decode.go:183-184 | of members with one name, the last is the one read |
| `Decode.TakesItsTags` | internal/ledgerhttp/decode.go:192-196 | an object takes exactly the names its exported fields are tagged with, up to a comma, but for an empty one and a dash |
| `Values.SentIsRead` | internal/ledgerhttp/decode.go:146-166 | wherever steps lead to a leaf, what is read there is the literal sent as its reader gives it, or its zero where the reader does not take it; to a slice, one element for each sent |
| `Values.UnsentIsBlank` | internal/ledgerhttp/decode.go:158-200 | where they lead nowhere, the field not sent, a value of the wrong shape, or an element past the bound, it is left at its zero |
| `Values.ReadIsTold` | internal/ledgerhttp/decode.go:132-214 | at every place of a value, what is read is what the body says there |
| `Values.ReadAlike` | internal/ledgerhttp/decode.go:132-214 | two bodies are read alike if and only if they say the same at every place |
| `Faults.FoundExactly` | internal/ledgerhttp/decode.go:132-214 | a fault is found if and only if its steps lead to a value of the wrong shape, or to a name its object does not take |
| `Faults.NoFaultsMeansConforms` | internal/ledgerhttp/decode.go:70-75 | there are no faults exactly when the body conforms to its type up to the counted bound |
| `Faults.FoundInOrder` | internal/ledgerhttp/decode.go:201-213 | faults come in one order fixed by the type and the names |
| `Faults.EachPlaceOnce` | internal/ledgerhttp/decode.go:132-133 | no place in the body is refused twice |
| `Paths.PathsAreDistinct` | internal/ledgerhttp/decode.go:223-229 | where no name holds a dot or bracket, two faults have one path if and only if they are one fault |
| `Paths.RootIsMarks` | internal/ledgerhttp/decode.go:172-229 | a path is its steps as they are written, a name after a dot and an index in brackets |
| `Paths.TransactionNamesAreDistinct` | internal/ledgerhttp/transactions.go:36-51 | the transaction request takes exactly its four names and declares none twice at any depth |
| `Reordered.SameDecodes` | internal/ledgerhttp/decode.go:182-214 | reordering object members at any depth, as section 4 of RFC 8259 allows, changes neither the faults nor the value |
| `Reordered.PermutedIsSame` | internal/ledgerhttp/decode.go:185-186 | any permutation of uniquely named members is such a reordering |
| `Reordered.NothingPastTheBound` | internal/ledgerhttp/decode.go:158-178 | what lies past the bound changes nothing, and the length is kept |
| `Fingerprint.MarshalInjective` | internal/ledgerhttp/transactions.go:205-213 | canonical json tells any two requests of one type apart: texts, numbers, absent and empty arrays, and every field |
| `Fingerprint.ReadIsShaped` | internal/ledgerhttp/transactions.go:205-210 | whatever a body holds, what is read of it can be written |
| `Fingerprint.TransactionWritesNumbers` | internal/ledgerhttp/transactions.go:36-51 | the transaction request is such a type: an amount is read into digits and written as them |
| `Fingerprint.ReorderedIsOneClaim` | internal/ledgerhttp/transactions.go:205-213 | a reordered request carries the same claim, and is taken or refused alike |
| `Fingerprint.ClaimsTellRequests` | internal/ledgerhttp/transactions.go:205-213 | where their texts are no collision of the digest, two bodies carry one claim exactly when they decode to one request |
| `Endpoint.AmountIsSent` | internal/ledgerhttp/transactions.go:124-132 | the amount an entry posts is the number the body sent |
| `Endpoint.ReorderedIsReplayed` | internal/ledgerhttp/transactions.go:134-181 | a committed request sent again with its members in any order is answered with the first result, as a replay and not as a conflict, and writes nothing |
| `Endpoint.OtherIsRefused` | internal/ledgerhttp/transactions.go:134-157 | a body that decodes otherwise under a key answered with a 201 is refused as a conflict |
| `Endpoint.DecodedIsFingerprinted` | internal/ledgerhttp/transactions.go:205-213 | sessions whose requests were decoded from bodies have one entry to a fingerprint |
| `Endpoint.AnswerIsTheBodys` | internal/ledgerhttp/transactions.go:145-181 | in any run of interleaved sessions every 201 carries the entry decoded from its own request's body |
| `Bodies.TakenExactly` | internal/ledgerhttp/transactions.go:36-51 | the decoder finds no fault in exactly the objects with no other name than the four, whose texts and moment are literals their readers take, and whose postings are null or an array of which each of the first 1000 is an object of an account and a whole amount of 64 bits |
| `Bodies.PostedIsSent` | internal/ledgerhttp/transactions.go:124-132 | the entry such a body posts has the text under "currency", the text under "description", a leg to each element of "postings" with its "account" and its "amount_minor", and the moment under "occurred_at" |
| `Bodies.TooManyAreCounted` | internal/ledgerhttp/transactions.go:113-122 | a body is refused for its postings exactly when it sends more than 1000, with the number sent, and at 1000 or under every element is read |
| `Bodies.BodyIsAnswered` | internal/ledgerhttp/transactions.go:94-181 | a body that is taken is answered as its own entry, member for member, is answered |
| `JsonFields.Walk.Visit` | internal/ledgerhttp/transactions.go:241-258 | on any graph of types whose element chains end, structs that reach themselves included, the walk ends; every struct it gains is reached from the root and finished, and every name it gains is one of theirs |
| `JsonFields.JsonFields` | internal/ledgerhttp/transactions.go:239-265 | on such a graph the list is strictly ascending and holds exactly the names reachable through tagged fields |
| `JsonFields.NamedByItsTag` | internal/ledgerhttp/transactions.go:249-253 | a field goes by its tag up to the comma, and a field tagged with nothing or a dash is neither listed nor walked |
| `JsonFields.RankedExactlyWhereChainsEnd` | internal/ledgerhttp/transactions.go:244-246 | the condition the walk is given holds exactly of the types whose element chains all end |
| `JsonFields.SliceOfItselfNeverEnds` | internal/ledgerhttp/transactions.go:244-246 | a slice of itself is a type where the loop over elements never does |
| `JsonFields.ListedAndNotTaken` | internal/ledgerhttp/transactions.go:249-255 | of a struct of leaves, a name is listed and not taken by the decoder exactly where a field tagged with it is unexported and none is exported |

## Left out

- HTTP itself: headers, content types, status text, timeouts, body ceilings, the connection pool and its wait; a request that fails there is a session that stops.
- Real time, uuid generation and SHA-256: `now` is a parameter, ids are drawn from counters and never reused, and the digest is any function of the request's canonical json, free of collisions only among the texts a lemma names.
- Regular expressions are asked with the character classes of ASCII, and codes are ordered by code unit rather than by the database's collation.
- Ids a client sends in a spelling that is no uuid, and the refusal for them.
- The wording of refusals, including what a refused field expected and the trimming of what is echoed back.
- Direct SQL that disables triggers, edits balance_checks, deletes keys or updates accounts.
- The JSON lexer: a body is a tree of literals, arrays and objects, and a leaf type reads a literal by a function of its own; an int64 is read from its digits.
- `Fingerprint.MarshalInjective`: every character json.Marshal escapes is written as \uXXXX, where Go has short forms for five of them, and an exported field without a json name, which no request type has, is not written.
- `JsonFields.JsonFields`: types whose element chain comes back to itself, on which the loop over elements does not end; no request type is one.
- A query parameter given twice, and percent-encoding of the next page's address, which is modelled as the query it encodes.
- `LedgerCalls.Tx.Once`: the write callback is a list of `Open` and `Post` calls and an answer, so a callback that runs other statements or calls `Once` itself is not modelled.
- `Isolation.CommittedBalances`: waits between sessions on a balance_checks row are not modelled; leaving them out only adds interleavings.
- `Protocol.StepKeeps`: whether the ledger takes an entry is a free choice at the write step, and a session's own tables are not carried; `Alone.OneRequestIsOneSession` ties one session to the real statements, and interleaved ones are at the level of steps. Serialization failures are the step that fails.
- `Naive.SettlingReads`: counts postings summed by the balance checks, not pages or index reads.
