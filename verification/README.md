# ezAuth, proved

A Dafny 4.11 model of the parts of ezAuth whose correctness rests on more than
one function. Check it with `dafny verify dfyconfig.toml`.

**The proof-of-work solver.** Argon2id and BLAKE2b are written twice: in Swift on
64-bit words, in JavaScript on pairs of 32-bit halves inside typed arrays. The
Swift form is stated as functions on sequences of words (`Blake2b`, `BlaMka`,
`Argon2Index`, `Argon2Memory`, `Argon2id`), and the JavaScript form as methods that
overwrite arrays (`Blake2bLanes`, `BlaMkaLanes`, `Argon2Lanes`, `Argon2Fill`,
`Argon2Call`). Each method is proved to leave in its arrays what the function says,
up to `State.Argon2id`, which keeps one large buffer between calls and still returns
the digest of a cleared one. Words are integers; xor, and, or and the shifts are
defined bit by bit in `Bits`, and every carry, mask and limb product is proved in
`Words`. Beside the refinement: the mixing function is a bijection
(`BlaMkaInverse`), the rounds of a sweep commute (`BlaMkaRounds`), the reference
index stays in its window (`Argon2Index`), and neither the old buffer nor the order
of the lanes within a slice matters (`Argon2Memory`).

**Custom tables.** A filter is checked for size with a worklist, compiled to a
three-valued SQL predicate, and pages continue after a cursor (`Filters`,
`FilterCompiler`, `Keyset`, `TableQueries`). Schema steps rewrite stored rows
(`CustomTables`). The main results: the compiler accepts exactly the understood
filters within the limits; the compiled predicate selects exactly the rows for which
the filter holds when unknown counts as false; following cursors lists every selected
row once and in order exactly when no column has taken the system name that the
listing is sorted by and every sort value reads back from a cursor, which in every
table reachable by any calls numbers, booleans and text do, and timestamps and JSON
as far as Python and the database agree on them; and a renamed column answers
renamed queries alike exactly when neither name is a system name.

**Prepaid billing.** `Billing`, `BillingRuns` and `MeteringSplits` describe the
books and prove what every run keeps; `BillingAccounts` writes the fields of one
account as the service does. `Payments` and `PaymentDesk` do the same for the three
payment rails, whose reports may arrive in any order and any number of times, with
charges, automatic reloads, forms and adjustments between them.
Times are integers in microseconds, decimals are reals, and only the six places
of a stored accrual are rounded.

**Object quotas.** `ObjectQuota` makes a put seven steps under a row lock,
interleaved with other puts, deletes and changes of limits; `ObjectPuts` gives each
of the three caps its exact condition and runs a whole put.

**Credentials.** `AuthAttempts` with `AttemptStore` for one-time codes and links,
each call with the transaction of the caller that makes it, `SigningKeys` with
`KeyService` for key rotation and the public-key cache,
`RateLimiter` for the fixed-window limiter.

Seven promises of the code hold under a condition only, and the condition is proved to
be exact:

- With zero passes the digest of a reused buffer depends on what the buffer held
  (`Argon2Memory.BufferMattersExactlyWithoutPasses`).
- Paging by `created_at` or `updated_at` is incomplete exactly when a column has
  that name: the sort looks for the system field first, the cursor for the column
  (`TableQueries.PagesSafelyExactly`, `TableQueries.ShadowedFollow`). A rename from
  or to such a name changes what queries answer, and only such a rename does
  (`TableQueries.RenameSafeExactly`).
- Paging by a column is incomplete as soon as it may hold a value that Python makes
  something else of than the database does, and complete otherwise
  (`TableQueries.PagesSafelyExactly`, `CustomTables.TablesPageExactly`,
  `CustomTables.WhichTablesPage`). The write path checks a timestamp with Python
  and stores its text. `2024-01-01T00:00:00.1234567+00:00` is cut to six digits by
  Python for the cursor and rounded by the database for the sort: ascending its row
  comes back for ever, descending rows with equal values are left out
  (`TableQueries.RoundedTimestampFails`). A JSON object with a letter outside ASCII
  fails likewise: Python writes an escape for the letter, the database the letter
  (`TableQueries.UnreadFollow`).
- A storage cap holds in every run that lowers no limit exactly when no delete of the
  object being overwritten lands between the put's measuring and that cap's check
  and, for the application's cap, an application's puts are kept apart from the
  phase of that check or an earlier one (`ObjectPuts.CapSafeExactly`). Nothing in
  the code does either: a delete takes no lock, and the lock of a put is its
  bucket's, so no cap is safe (`NoCapSafeAsItIs`). `DeleteInWindowExceedsCap` and
  `OverlapExceedsCap` are the runs that fail.
- Wrong codes are bounded exactly when the writes of every failing call are kept
  (`AuthAttempts.GuessesBoundedExactly`). A caller that raises out of its session
  has them rolled back (`src/ezauth/dependencies.py:47-54`), and
  `src/ezauth/api/frontend/verify_code.py:47-49` and
  `src/ezauth/api/admin_auth.py:142-150` raise; the attempt is then pending and
  untried after any number of wrong codes (`AuthAttempts.RolledBackGuesses`).
  Callers that return a page, as `src/ezauth/hosted/auth_pages.py:384-389`, keep
  the count.
- A metering pass stores a fraction of exactly one cent, instead of less, exactly
  when the fraction is 0.9999995 or more (`MeteringSplits.PassStoresOneExactly`).
- What remains according to a rate limiter tells whether the next call is accepted
  exactly as long as more remains than earlier entries of the same window take; with
  a window size configured twice something can remain and the call be refused
  (`RateLimiter.RemainingPredicts`, `RateLimiter.RepeatedWindowMisleads`).

The module comment of `src/ezauth/services/objects.py` says that concurrent uploads
queue against the application, bucket and per-user limits; for the application's
limit the model follows the code, where they do not.

## Model

| member | source | states |
|---|---|---|
| Words.MulHigh32 | javascript_client/src/hashcash.js:44-55 | the four 16-bit limb products and their carry give the exact high word of x * y |
| Words.ProductHalves | javascript_client/src/hashcash.js:44-55 | the limb products put together are x * y, low and high word |
| Words.AddPair | javascript_client/src/hashcash.js:65-69 | adding halves with the carry taken from the float sum is addition mod 2^64 |
| Words.XorPairs | javascript_client/src/hashcash.js:71-72 | xor of the halves is xor of the 64-bit words |
| Words.RotrPair | javascript_client/src/hashcash.js:80-83 | the crossed shifts of two halves rotate the 64-bit word right by n |
| Words.SwapPair | javascript_client/src/hashcash.js:71-74 | exchanging the halves rotates by 32 |
| Words.Rotl1Pair | javascript_client/src/hashcash.js:100-103 | the crossed shifts by one rotate the word right by 63 |
| Words.FBlaMkaPair | javascript_client/src/hashcash.js:206-217 | limb product, doubling and two additions give x + y + 2 * lo(x) * lo(y) mod 2^64, the 64-bit fBlaMka |
| Blake2bLanes.MixLanes | javascript_client/src/hashcash.js:59-104 | one in-place mixing of four lanes is the 64-bit G of RFC 7693 section 3.1 on the words, all other words untouched |
| Blake2bLanes.CompressLanes | javascript_client/src/hashcash.js:106-130 | twelve rounds on reused arrays fold into h what the 64-bit compression returns |
| Blake2bLanes.LoadMessage | javascript_client/src/hashcash.js:145-151 | up to 128 input bytes become the sixteen message words, padded with zeros |
| Blake2bLanes.AbsorbLanes | javascript_client/src/hashcash.js:140-155 | the block loop absorbs the whole input, also when it is empty or a multiple of 128 |
| Blake2bLanes.HashLanes | javascript_client/src/hashcash.js:133-162 | for every input and length the bytes returned are those of the 64-bit hash |
| Blake2bLanes.DigestOfLanes | swift_client/Sources/EZAuth/Hashcash.swift:131-134 | the digest bytes are the words, lowest byte first |
| BlaMkaLanes.QuarterLanes | javascript_client/src/hashcash.js:195-273 | eight in-place steps on lanes are the 64-bit G on four words, all other words untouched |
| BlaMkaLanes.RoundLanes | javascript_client/src/hashcash.js:275-284 | a round on the sixteen words an index vector names is the 64-bit round |
| BlaMkaLanes.PermuteLanes | javascript_client/src/hashcash.js:312-313 | the column and the row sweep together are the permutation P |
| BlaMkaLanes.FillBlockLanes | javascript_client/src/hashcash.js:301-316 | the block at nextOff becomes the compression of the blocks at prevOff and refOff, xored with its old content when asked, and the rest of the memory stays |
| BlaMkaInverse.OddInverseCorrect | swift_client/Sources/EZAuth/Hashcash.swift:388-391 | an odd factor has an inverse modulo every power of two |
| BlaMkaInverse.UnstirStir | swift_client/Sources/EZAuth/Hashcash.swift:388-391 | from fBlaMka(x, y) and y the word x is recovered |
| BlaMkaInverse.StirUnstir | swift_client/Sources/EZAuth/Hashcash.swift:388-391 | every word is fBlaMka(x, y) of the recovered x |
| BlaMkaInverse.UnquarterQuarter | swift_client/Sources/EZAuth/Hashcash.swift:393-405 | G on four words is undone by its inverse |
| BlaMkaInverse.QuarterUnquarter | swift_client/Sources/EZAuth/Hashcash.swift:393-405 | and its inverse is undone by G |
| BlaMkaInverse.SweepInverse | swift_client/Sources/EZAuth/Hashcash.swift:438-454 | each sweep of eight rounds is invertible |
| BlaMkaInverse.PermuteIsBijection | swift_client/Sources/EZAuth/Hashcash.swift:438-454 | the permutation of a 128-word block is a bijection, with its inverse from both sides |
| BlaMkaRounds.VectorsPartition | javascript_client/src/hashcash.js:286-299 | each of the 128 words belongs to exactly one of the eight index vectors of a sweep |
| BlaMkaRounds.RoundIsLocal | javascript_client/src/hashcash.js:275-284 | a round reads and writes only the words of its vector |
| BlaMkaRounds.RoundsCommute | javascript_client/src/hashcash.js:312-313 | any two orders of the same rounds give the same block |
| BlaMkaRounds.SweepInAnyOrder | javascript_client/src/hashcash.js:312-313 | a sweep is its eight rounds in any order |
| Argon2Index.AreaIsPositive | javascript_client/src/hashcash.js:318-332 | at every place that is filled the reference area holds at least one block |
| Argon2Index.Relative | swift_client/Sources/EZAuth/Hashcash.swift:478-479 | the quadratic mapping of j1 stays inside the area |
| Argon2Index.IndexAlpha | swift_client/Sources/EZAuth/Hashcash.swift:459-486 | the reference column lies in the lane |
| Argon2Index.IndexAlphaLanes | javascript_client/src/hashcash.js:318-342 | the 32-bit arithmetic with mulHigh32 gives the same column as the 64-bit arithmetic |
| Argon2Index.ReadableColumns | swift_client/Sources/EZAuth/Hashcash.swift:459-486 | in the same lane the column is neither the current nor the previous one, in another lane it is outside the slice being filled, and in the first pass it was filled before |
| Argon2Memory.ReadsAreWritten | javascript_client/src/hashcash.js:429-487 | every block read in the first pass was seeded or filled earlier in the same call |
| Argon2Memory.RunForgetsBuffer | javascript_client/src/hashcash.js:374-380 | with at least one pass two runs from any two old buffers end with the same memory |
| Argon2Memory.BufferMattersExactlyWithoutPasses | javascript_client/src/hashcash.js:374-380 | the last column is independent of the old buffer if and only if there is at least one pass |
| Argon2Memory.FillOneSeesOwnLane | javascript_client/src/hashcash.js:453-486 | filling a block depends on its own lane and on blocks outside the slice alone |
| Argon2Memory.ScheduledLanes | javascript_client/src/hashcash.js:430-487 | under any interleaving of blocks each lane ends as if filled alone |
| Argon2Memory.LanesInAnyOrder | javascript_client/src/hashcash.js:430-487 | every interleaving of the lanes of a slice, block by block, ends with the memory of the sequential loop |
| Argon2id.HPrime | swift_client/Sources/EZAuth/Hashcash.swift:174-195 | H-prime of RFC 9106 section 3.3 returns exactly the length asked for |
| Argon2id.ShapeValid | swift_client/Sources/EZAuth/Hashcash.swift:241-262 | the clamped memory divides into lanes of four segments of at least two blocks |
| Argon2id.FirstPassIgnoresTarget | javascript_client/src/hashcash.js:301-316 | without xor a filled block does not depend on what it replaces |
| Argon2id.DigestForgetsBuffer | swift_client/Sources/EZAuth/Hashcash.swift:241-385 | with at least one pass the digest computed in any buffer is that of a cleared one |
| Argon2Lanes.WriteU32LE | javascript_client/src/hashcash.js:344-349 | four bytes are written lowest first and no others change |
| Argon2Lanes.HPrimeLanes | javascript_client/src/hashcash.js:165-186 | the chunk loop returns the variable-length hash for every length |
| Argon2Lanes.LoadBlockLanes | javascript_client/src/hashcash.js:351-357 | 1024 bytes become the 128 words at the offset and the rest of the memory stays |
| Argon2Lanes.PreimageLanes | javascript_client/src/hashcash.js:382-395 | the first hash input, field by field |
| Argon2Fill.Addresses.Reset | javascript_client/src/hashcash.js:434-442 | the counter block names lane, slice, block count, passes and type |
| Argon2Fill.Addresses.Next | javascript_client/src/hashcash.js:418-427 | the 64-bit counter is raised across its halves and the address block is the double compression of the counter block |
| Argon2Fill.FillStep | javascript_client/src/hashcash.js:456-482 | one step draws an address, picks lane and column, and fills one block of the flat memory as the 64-bit form does |
| Argon2Fill.SegmentLanes | javascript_client/src/hashcash.js:432-486 | one lane of one slice of one pass, with its rolling offsets, fills the segment |
| Argon2Call.SeedMemory | javascript_client/src/hashcash.js:399-407 | the first two columns of every lane are seeded from the first hash |
| Argon2Call.FillMemory | javascript_client/src/hashcash.js:429-489 | the nested loops over passes, slices and lanes run all passes |
| Argon2Call.FinalBlock | javascript_client/src/hashcash.js:491-496 | the xor of the last column of all lanes |
| Argon2Call.FinalBytes | javascript_client/src/hashcash.js:498-501 | its bytes, lowest first |
| Argon2Call.State.Prepare | javascript_client/src/hashcash.js:374-380 | the buffer is kept when its size fits and replaced by a zeroed one otherwise |
| Argon2Call.DigestLanes | javascript_client/src/hashcash.js:382-503 | a whole call returns the digest that the 64-bit form computes from the same old buffer |
| Argon2Call.State.Argon2id | javascript_client/src/hashcash.js:364-503 | with the kept buffer, whatever it holds, a call with at least one pass returns the digest of a cleared buffer |
| Keyset.KeysetPredicateMeansAfter | src/ezauth/services/tables.py:495-518 | in both directions, with NULL on either side, the three-valued condition is true of exactly the rows listed after the cursor |
| Keyset.BeforeIsStrictOrder | src/ezauth/services/tables.py:459-463 | sort value and id in one direction, NULLs last or first, are a strict total order |
| Keyset.SortWhere | src/ezauth/services/tables.py:448-476 | sorting and filtering commute |
| Keyset.NextPage | src/ezauth/services/tables.py:465-490 | fetching after a row is cutting a page from the sorted listing right after it |
| Keyset.FollowSees | src/ezauth/services/tables.py:465-492 | after any number of pages the reader has exactly that many rows of the sorted listing and knows whether more are left |
| Keyset.FollowListsEverything | src/ezauth/services/tables.py:433-492 | following the cursors ends, and has then listed every row once and in order, for every page size |
| Keyset.ObjectListingPages | src/ezauth/services/objects.py:455-489 | the same for the objects of a bucket by key and id |
| TableValues.LessIsStrictOrder | src/ezauth/services/tables.py:750-763 | values of all column types are strictly and totally ordered |
| TableValues.BindMatchesExtract | src/ezauth/services/tables.py:744-825 | for every stored value, a cursor made from it binds as the value that its row is sorted by if and only if it is a number or boolean in its column, a string of text or JSON, or a value that Python and the database read or write alike |
| Filters.CheckFilterSize | src/ezauth/schemas/tables.py:152-168 | the worklist accepts exactly the trees of depth at most 8 with at most 64 conditions, and each error names a limit that is exceeded |
| FilterCompiler.CompileFilter | src/ezauth/services/tables.py:830-878 | the recursive compiler with its shared counter computes the compilation |
| FilterCompiler.ConditionCompiles | src/ezauth/services/tables.py:858-902 | a condition compiles exactly when field, operator and value are understood, null only with eq and neq |
| FilterCompiler.CompileIsExact | src/ezauth/services/tables.py:830-878 | at any depth and count, success is exactly understood and within both limits, and the count is the number of conditions |
| FilterCompiler.CompilesExactly | src/ezauth/services/tables.py:830-878 | a filter compiles if and only if it is understood and passes the size check, and a filter that passes it draws no limit error |
| FilterCompiler.ConditionSelects | src/ezauth/services/tables.py:881-902 | a compiled condition is true of the rows for which it holds when unknown is false |
| FilterCompiler.CompiledSelects | src/ezauth/services/tables.py:830-902 | the compiled three-valued predicate is true of exactly the rows for which the filter holds with two truth values |
| TableQueries.MatchingHolds | src/ezauth/services/tables.py:448-457 | the rows selected are those of the user for which the filter holds |
| TableQueries.CursorBinds | src/ezauth/services/tables.py:483-490 | unless shadowed, the cursor made from a row whose sort value reads back binds as that value |
| TableQueries.FollowQueryFollows | src/ezauth/services/tables.py:433-492 | no cursor is refused on the way, when the sort values of the selected rows read back |
| TableQueries.QueryListsAll | src/ezauth/services/tables.py:433-492 | following the cursors of a query then lists every selected row once and in order |
| TableQueries.NullCursorPage | src/ezauth/services/tables.py:495-518 | after a null cursor on a system field everything follows, or nothing |
| TableQueries.ShadowedFollow | src/ezauth/services/tables.py:483-488 | with a column of the system name, descending repeats the first page for ever and ascending ends after it |
| TableQueries.UnreadFollow | src/ezauth/services/tables.py:483-518 | when all selected rows hold one sort value that does not read back, the first page repeats for ever, or the listing ends after it, or the cursor is refused |
| TableQueries.PagesSafelyExactly | src/ezauth/services/tables.py:728-825 | paging is complete for every content with given values and every page size if and only if no column has taken the system name sorted by and every such value of the sort column reads back |
| TableQueries.RoundedTimestampFails | src/ezauth/services/tables.py:701-715 | a timestamp of seven fractional digits that Python cuts and the database rounds: ascending its row comes back for ever, descending its equals are left out |
| TableQueries.RenamedCompile | src/ezauth/services/tables.py:830-878 | with neither name a system name, a filter that compiled compiles after the rename and selects the same rows |
| TableQueries.RenameCommutes | src/ezauth/services/tables.py:272-291 | with neither name a system name, the renamed query on the renamed rows returns the same ids in the same order and the same cursor |
| TableQueries.RenameSafeExactly | src/ezauth/services/tables.py:215-243 | a rename leaves every answer of every table content alone if and only if neither name is a system name, which stands for the system field |
| CustomTables.ValidateRowData | src/ezauth/services/tables.py:620-646 | a row is accepted exactly when it is complete and every value fits its column, and becomes the coerced values and the defaults |
| CustomTables.CoerceAll | src/ezauth/services/tables.py:649-662 | a partial row is accepted exactly when every key names a column that takes the value |
| CustomTables.ValidateRequiredFields | src/ezauth/services/tables.py:665-674 | required columns are present and not null |
| CustomTables.Table.AddColumn | src/ezauth/services/tables.py:148-190 | a column is added at its position unless the name is taken |
| CustomTables.PositionFor | src/ezauth/services/tables.py:170-177 | without a position given a column comes after all others |
| CustomTables.Table.UpdateColumn | src/ezauth/services/tables.py:193-245 | name, required, default and position are changed where given, and a rename moves the stored values |
| CustomTables.Table.DeleteColumn | src/ezauth/services/tables.py:248-269 | a column goes, and its stored values with it |
| CustomTables.Table.InsertRow | src/ezauth/services/tables.py:322-359 | a row is added under the limit of rows and, with its size on top of what is measured, the storage limit, or nothing changes |
| CustomTables.Table.UpdateRow | src/ezauth/services/tables.py:384-415 | the payload is merged when the result still has what is required and what it grows by fits the storage limit, or nothing changes |
| CustomTables.Table.DeleteRow | src/ezauth/services/tables.py:418-430 | a row goes when the user may see it |
| CustomTables.Table.QueryTable | src/ezauth/services/tables.py:433-492 | errors in the order filter, sort, cursor, and then the page |
| CustomTables.StepKeeps | src/ezauth/services/tables.py:193-310 | every call keeps stored keys within the distinct column names |
| CustomTables.RunKeepsDeclared | src/ezauth/services/tables.py:193-310 | so does every run, and tables stay within 10000 rows |
| CustomTables.RunTyped | src/ezauth/services/tables.py:620-725 | every run with defaults of their column types keeps every stored value of its column type |
| CustomTables.EveryTablePages | src/ezauth/services/tables.py:433-492 | in every table that any run reaches, following cursors is complete, unless the sort name is shadowed, when the sort values of the selected rows read back |
| CustomTables.TablesPageExactly | src/ezauth/services/tables.py:677-825 | sorted by columns of a type, every table that any run reaches pages completely if and only if every value that the write path lets through for the type reads back |
| CustomTables.WhichTablesPage | src/ezauth/services/tables.py:677-825 | columns of numbers, booleans and text always do; columns of timestamps if and only if Python and the database read every timestamp alike, columns of JSON if and only if they write every value alike |
| CustomTables.RenamedTableAnswersAlike | src/ezauth/services/tables.py:193-245 | after update_column renames a column of any such table, with neither name a system name, renamed queries answer as before |
| Billing.MonthlyCostIsMarginal | src/ezauth/services/billing.py:39-42 | a thousand more users, or a gigabyte more beyond the included storage, cost exactly their price, and included storage is free |
| Billing.Hours | src/ezauth/services/billing.py:213-217 | billed hours are 0 when the clock went back, 744 from 31 days on, and the elapsed time otherwise |
| Billing.Stored | src/ezauth/models/billing.py:35 | storing rounds to six places: half a millionth off at most, and at most 1 |
| Billing.ChainStep | src/ezauth/services/billing.py:184-202 | consecutive entries of a tenant differ in balance_after by the amount |
| Billing.CreditBalances | src/ezauth/services/billing.py:141-181 | a credit keeps balances, chain and distinct references, and a paused account in debt |
| Billing.ChargeBalances | src/ezauth/services/billing.py:184-202 | so does a charge |
| Billing.MeterBalances | src/ezauth/services/billing.py:205-273 | so does a metering pass with its charge, reload, pause and warning |
| Billing.PausedExactlyWhenNegative | src/ezauth/services/billing.py:205-273 | after an enabled pass that is not the first, paused holds if and only if the balance is negative |
| BillingRuns.BalanceIsLedger | src/ezauth/services/billing.py:117-202 | in every run the balance is the sum of the ledger, and paused implies debt |
| BillingRuns.StepBalances | src/ezauth/dashboard/billing.py:156-225 | every call, from forms and adjustments too, keeps that |
| BillingRuns.WarningsSeparated | src/ezauth/services/billing.py:265-272 | between two low-balance warnings lies a credit |
| BillingRuns.FailedReloadsApart | src/ezauth/services/billing.py:235-250 | two failed reloads without a credit or a change of card between them are 24 hours apart |
| BillingRuns.MeteringAddsUp | src/ezauth/services/billing.py:213-233 | charged and carried cents equal the cents due within half a millionth for each pass, the carried part is in 0 to 1, and the hours billed are no more than the time spanned |
| BillingRuns.LastPassNeverMovesBack | src/ezauth/services/billing.py:234 | last_metered_at never decreases, in any call |
| MeteringSplits.WholeCentsOfTotal | src/ezauth/services/billing.py:219-222 | without rounding the whole cents of several dues are those of their sum |
| MeteringSplits.SplittingChargesAlike | src/ezauth/services/billing.py:213-222 | at constant usage any passes with gaps up to 744 hours charge what the elapsed time costs, and what one pass charges |
| MeteringSplits.StoredIsOneExactly | src/ezauth/models/billing.py:35 | a fraction below one is stored as one if and only if it is 0.9999995 or more |
| MeteringSplits.PassStoresOneExactly | src/ezauth/services/billing.py:219-233 | a metering pass leaves a stored accrual of one if and only if the fraction of what was accrued and due is 0.9999995 or more |
| BillingAccounts.Service.CreditAccount | src/ezauth/services/billing.py:141-181 | the fields, the ledger and the mail log after a credit, and its two errors |
| BillingAccounts.Service.ChargeAccount | src/ezauth/services/billing.py:184-202 | the same after a charge |
| BillingAccounts.Service.OpenAccount | src/ezauth/services/billing.py:117-138 | a new account gets the welcome credit |
| BillingAccounts.Service.AccrueUsage | src/ezauth/services/billing.py:213-234 | usage is accrued, whole cents are charged, the rest is stored |
| BillingAccounts.Service.ReloadIfDue | src/ezauth/services/billing.py:235-260 | the card is charged when due, and the outcome credited or remembered |
| BillingAccounts.Service.PauseAndWarn | src/ezauth/services/billing.py:261-272 | pause before warning |
| BillingAccounts.Service.MeterAccount | src/ezauth/services/billing.py:205-273 | a whole pass on the account object is the pass on the books |
| BillingAccounts.Service.SaveSettings | src/ezauth/dashboard/billing.py:156-173 | the form sets five fields |
| BillingAccounts.Service.SaveCard | src/ezauth/services/payments/stripe.py:131-142 | a saved card ends the reload pause |
| BillingAccounts.Service.RemoveCard | src/ezauth/services/payments/stripe.py:184-194 | so does removing it |
| BillingAccounts.MeterIsLocal | src/ezauth/services/billing.py:205-273 | a pass changes one account, and all else only by appending |
| Payments.CreditSettles | src/ezauth/services/billing.py:141-181 | a credit under a reference counts once |
| Payments.CompleteSettles | src/ezauth/services/payments/__init__.py:53-65 | completing a payment again changes nothing |
| Payments.CheckoutSettles | src/ezauth/services/payments/stripe.py:118-145 | a paid checkout counts its intent once, with or without a saved card |
| Payments.ConfirmSettles | src/ezauth/services/payments/crypto.py:71-92 | a crypto report counts the payment once when paid, and expires it otherwise |
| Payments.MeterSettles | src/ezauth/services/billing.py:205-273 | a metering pass charges without a reference, and its reload counts its intent once, also when the webhook came first |
| Payments.StepSettles | src/ezauth/dashboard/billing.py:156-225 | so does every other call of the billing service |
| Payments.HandleSettles | src/ezauth/services/payments/paypal.py:100-174 | after every report of every rail and every other change of the books, what the references in the books add to a tenant is what they are worth |
| Payments.EachReferencePaysOnce | src/ezauth/services/payments/__init__.py:38-65 | in every run of reports, metered charges, reloads, forms, adjustments and new accounts the referenced entries of a tenant sum to the worth of the distinct references proved, and the balance is that and the other entries |
| Payments.ReportsRaiseByWorth | src/ezauth/services/payments/__init__.py:38-65 | when nothing but reports comes in, a balance rises by exactly the worth of the references proved |
| Payments.OrderIsIrrelevant | src/ezauth/services/payments/__init__.py:38-65 | two histories that prove the same references have the same referenced sums, and balances that differ by their other entries |
| Payments.CompletedStays | src/ezauth/services/payments/__init__.py:56-57 | completed is absorbing |
| Payments.ExpiredMayComplete | src/ezauth/services/payments/crypto.py:71-92 | an expired payment that turns out to be paid is completed and credited |
| PaymentDesk.PaymentRails.LockedPayment | src/ezauth/services/payments/__init__.py:38-50 | a payment is found with its provider and its account, or not at all |
| PaymentDesk.PaymentRails.CompletePayment | src/ezauth/services/payments/__init__.py:53-65 | status and books after completion |
| PaymentDesk.PaymentRails.ConfirmCrypto | src/ezauth/services/payments/crypto.py:71-92 | status and books after a crypto report |
| PaymentDesk.PaymentRails.PollPending | src/ezauth/services/payments/crypto.py:101-118 | the polling loop expires after 48 hours and confirms otherwise, one payment at a time |
| PaymentDesk.PaymentRails.HandleCheckout | src/ezauth/services/payments/stripe.py:118-145 | the checks, the card and the completion of a checkout, undone together on an error |
| PaymentDesk.PaymentRails.HandleIntent | src/ezauth/services/payments/stripe.py:146-163 | a succeeded reload intent is credited to its tenant |
| PaymentDesk.PaymentRails.CapturePayPal | src/ezauth/services/payments/paypal.py:110-131 | the return page completes a matching order |
| PaymentDesk.PaymentRails.HandlePayPalNotice | src/ezauth/services/payments/paypal.py:159-174 | the webhook completes a matching capture |
| PaymentDesk.PollIsRun | src/ezauth/services/payments/crypto.py:101-118 | a poll is a run of single reports |
| ObjectQuota.UsageWrite | src/ezauth/services/objects.py:519-531 | an overwrite changes usage by the difference in size |
| ObjectQuota.StepReliable | src/ezauth/services/objects.py:267-356 | under a rule that suits a cap, what a put under way has measured and checked stays true in every step of any call |
| ObjectQuota.CommittedWithinCap | src/ezauth/services/objects.py:290-313 | a committed put leaves the scope within its cap and adds only its difference in size |
| ObjectQuota.CapHoldsInEveryRun | src/ezauth/services/objects.py:267-356 | in every interleaving from the start that follows such a rule and lowers no limit the cap holds, for the caps of bucket, user and application |
| ObjectPuts.OverlapExceedsCap | src/ezauth/services/objects.py:183-199 | two overlapping puts into two buckets exceed the cap of their application whenever the object fits once and not twice |
| ObjectPuts.CapSafeExactly | src/ezauth/services/objects.py:290-313 | each cap is safe in every run that lowers no limit, from every state, if and only if no delete of a put's own object lands between its measuring and that cap's check and, for the application, its puts are kept apart from that check on or before |
| ObjectPuts.NoCapSafeAsItIs | src/ezauth/services/objects.py:183-199 | with nothing imposed beyond the lock, as in the code, none of the three caps is safe |
| ObjectPuts.DeleteInWindowExceedsCap | src/ezauth/services/objects.py:423-452 | a delete in any phase of the window lets a put commit more than the cap |
| ObjectPuts.PutAloneRuns | src/ezauth/services/objects.py:267-356 | the steps of a put, run without interruption, commit what the call returns |
| ObjectPuts.ObjectStore.Measured | src/ezauth/services/objects.py:519-531 | the sum of the sizes in a scope |
| ObjectPuts.ObjectStore.PutObject | src/ezauth/services/objects.py:267-356 | the call stores the object exactly when every check passes and the upload succeeds |
| ObjectPuts.ObjectStore.DeleteObject | src/ezauth/services/objects.py:423-452 | the row is gone, and it is known whether there was one |
| ObjectPuts.ObjectStore.UpdateBucket | src/ezauth/services/objects.py:202-219 | given limits are set when positive, others stay |
| AuthAttempts.StepEvolves | src/ezauth/services/tokens.py:77-241 | an attempt only moves from pending to consumed or revoked, and counts a miss exactly when a wrong code was tested on it and the caller's writes are kept |
| AuthAttempts.StepKeeps | src/ezauth/services/tokens.py:35-241 | every call keeps counters bounded, pending attempts unique, tokens distinct and sessions earned |
| AuthAttempts.EveryRunIsSound | src/ezauth/services/auth.py:134-344 | in every run an attempt yields at most one session, in its own application, and one attempt at most is pending for an application, address and type |
| AuthAttempts.TriesCountTested | src/ezauth/services/tokens.py:141-149 | the stored counter is the number of wrong codes tested in the run, less those whose transaction was rolled back |
| AuthAttempts.WrongCodesBounded | src/ezauth/services/tokens.py:141-149 | no more wrong codes are tested on an attempt than allowed and rolled back together, and fewer while it is pending |
| AuthAttempts.RolledBackGuesses | src/ezauth/dependencies.py:47-54 | a caller that raises tests any number of wrong codes on an attempt, which stays pending with no try counted |
| AuthAttempts.GuessesBoundedExactly | src/ezauth/dependencies.py:47-54 | the wrong codes tested are bounded in every run if and only if no caller's failing call is rolled back |
| AuthAttempts.RaisingCallersUnbounded | src/ezauth/api/frontend/verify_code.py:36-49 | with callers that return a page and callers that raise, as they are, they are not bounded |
| AuthAttempts.IssueLeavesOnePending | src/ezauth/services/auth.py:134-167 | after an issue the new attempt is the one pending for that application, address and type |
| AuthAttempts.CodeAccepted | src/ezauth/services/tokens.py:112-139 | a code is accepted if and only if a live candidate of that application and address was issued it |
| AuthAttempts.ConsumedStays | src/ezauth/services/tokens.py:114-121 | a consumed attempt stays as it is in every later run |
| AuthAttempts.LinkOpensOnce | src/ezauth/services/tokens.py:210-241 | a link is consumed in its own application, and no call of any later run, in any application, accepts it again |
| AttemptStore.Attempts.RevokePendingAttempts | src/ezauth/services/tokens.py:77-96 | exactly the addressed pending attempts are revoked, and their number is returned |
| AttemptStore.Attempts.IssueCredential | src/ezauth/services/auth.py:134-167 | revoke, then add the new attempt |
| AttemptStore.Attempts.ConsumeAuthAttemptByCode | src/ezauth/services/tokens.py:99-152 | the first candidate with the code is consumed, or every candidate with a code counts a miss, with the reason |
| AttemptStore.Attempts.ConsumeAdminLoginCode | src/ezauth/services/tokens.py:155-207 | all matching attempts are consumed together and their applications returned, or all candidates count a miss |
| AttemptStore.Attempts.ConsumeAuthAttempt | src/ezauth/services/tokens.py:210-241 | the pending attempt of a token is consumed |
| AttemptStore.Attempts.ConsumeEmailLinkToken | src/ezauth/services/auth.py:250-274 | a verification link first, then a sign-in link, then the session, or the error |
| AttemptStore.Attempts.SignInWithCode | src/ezauth/services/auth.py:277-304 | a code, then the session, or the error |
| AttemptStore.Attempts.RequestCode | src/ezauth/api/frontend/verify_code.py:36-49 | the session or error of the call, whose writes are undone when the caller raises |
| AttemptStore.Attempts.RequestLink | src/ezauth/services/auth.py:250-274 | the same for a link |
| AttemptStore.Attempts.RequestAdminCode | src/ezauth/api/admin_auth.py:142-150 | the same for an administrator's code, with the applications |
| AttemptStore.Attempts.FinishAttempt | src/ezauth/services/auth.py:307-344 | a session for the user of the attempt, when the user belongs to the application |
| SigningKeys.StepKeepsOneActive | src/ezauth/services/keys.py:84-152 | every call leaves one active key, which signs, and whose id is jwk_kid |
| SigningKeys.RunKeepsOneActive | src/ezauth/services/keys.py:84-152 | so does every run from adoption on |
| SigningKeys.TokenLivesUntilDropped | src/ezauth/services/keys.py:120-152 | a token verifies if and only if retired keys have not been dropped since its key was retired |
| SigningKeys.CacheAgrees | src/ezauth/dependencies.py:65-81 | in every run of all applications the cached public key is the one that deriving gives |
| KeyService.Application.EnsureKeys | src/ezauth/services/keys.py:84-103 | the inline key is adopted when there is no row |
| KeyService.Application.Active | src/ezauth/services/keys.py:106-112 | the signing key |
| KeyService.Application.RotateKey | src/ezauth/services/keys.py:120-140 | the old keys are retired, the new one is first and inline |
| KeyService.Application.DropRetiredKeys | src/ezauth/services/keys.py:143-152 | only active keys stay, and the number removed is returned |
| KeyService.PublicKeyCache.PublicPemForKey | src/ezauth/dependencies.py:65-81 | a public key is derived once per key id |
| KeyService.PublicKeyCache.DecodeWithAppKeys | src/ezauth/dependencies.py:84-102 | the claims are returned if and only if some key verifies the token |
| RateLimiter.Limiter.CheckAndConsume | src/ezauth/ratelimiter.py:55-69 | every window is counted, and the call accepted exactly when no count exceeds its limit |
| RateLimiter.Limiter.GetRemaining | src/ezauth/ratelimiter.py:71-85 | what is left in every window, never negative |
| RateLimiter.EachWindowCounts | src/ezauth/ratelimiter.py:55-63 | a counter is touched in a call by the entries of its own window size alone, one after another |
| RateLimiter.EachWindowAlone | src/ezauth/ratelimiter.py:48-53 | windows of different sizes count independently |
| RateLimiter.TouchAllTimed | src/ezauth/ratelimiter.py:55-63 | no window size that is not positive leaves a counter in the store |
| RateLimiter.RemainingPredicts | src/ezauth/ratelimiter.py:55-85 | a call is accepted if and only if more remains in every entry than earlier entries of the same window size take: anything at all when none is repeated |
| RateLimiter.RepeatedWindowMisleads | src/ezauth/ratelimiter.py:55-85 | a limit of one given twice: something remains in both entries and the call is refused |
| RateLimiter.TraceCovers | src/ezauth/ratelimiter.py:55-63 | a window size given more than once counts, at the same times and in the same epochs, no less than given once |
| RateLimiter.TraceWindowed | src/ezauth/ratelimiter.py:58-63 | the hits of a run count up within an expiry epoch and start again after it |
| RateLimiter.AcceptedPerEpoch | src/ezauth/ratelimiter.py:55-69 | at most the limit is accepted per expiry epoch, also when a window size is repeated |
| RateLimiter.SlidingBound | src/ezauth/ratelimiter.py:55-69 | an interval as long as the window holds fewer than twice the limit |
| RateLimiter.AcceptedCallsBounded | src/ezauth/ratelimiter.py:55-69 | that bound holds for each window of a limiter with several, repeated or not, over every run |

## Left out

- Argon2Memory.Run: the Swift client's reused pointers and temporary copies are stated as values; its clearing of the buffer is the zero buffer of `Digest`.
- Argon2Call.State.Argon2id: lengths of password and salt of 2^32 bytes and more, and the float range of JavaScript numbers beyond 2^53, which no length in range reaches.
- The search for a nonce, leading zero bits and hex coding: the search has no guarantee to end, the rest adds only easy members.
- TableValues.Extract: a stored value that its cast refuses stands as NULL, where the database ends the query with an error; such a value does not read back, so paging counts as incomplete in both.
- TableValues.Bind: parsers and renderers of Python and of the database are parameters, and the database's collation is some strict order; that a timestamp which Python wrote itself reads back is a hypothesis of the paging results, and holds. Decimal and float NaN and infinities are not modelled.
- TableQueries.QueryRows: no write happens between two pages; the base64 and JSON coding of a cursor is not modelled.
- TableQueries.RenamedCompile: a rename from or to created_at or updated_at is left to RenameSafeExactly, which says that there the claim fails; so for TableQueries.RenameCommutes and CustomTables.RenamedTableAnswersAlike.
- CustomTables.Table.InsertRow: the bytes in use are an input, measured over all tables of the application; so for CustomTables.Table.UpdateRow.
- CustomTables.Table.AddColumn: the code checks no default against its column's type, and the model neither; columns keep the order in which they were added, and their positions order them for display alone.
- CustomTables.RunTyped: defaults are required to be of their column's type, which the code does not enforce; so for CustomTables.TablesPageExactly.
- FilterCompiler.Compile: field names are strings, as validation ensures.
- Billing.Meter: usage counts, the processor's answer and mail delivery are inputs; currency and top-up limits are a configuration.
- BillingRuns.Run: concurrent writers of one account are serialised by its row lock, so calls are steps; the savepoint that catches a reference inserted meanwhile is that same no-op.
- Payments.Honest: providers report a reference always with one amount and tenant, and a payment always under one reference; signatures, HTTP calls and the creation of orders are not modelled.
- ObjectQuota.Enabled: limits of a bucket do not change, and a bucket is not dropped, while its row is locked, as in the code.
- Object keys and content types, S3 calls and usage caches: only easy members, or foreign systems.
- AuthAttempts.Apply: which callers keep their writes is an input, and `ReturnsPage` says which do in the code; tokens are new, and an attempt is compared by hash. Calls on one attempt are serialised by its row lock.
- AuthAttempts.WrongCodesBounded: a code that matches another attempt of the same address is not counted against the rest, by the code's design, and is not a wrong code here.
- SigningKeys.Run: RSA, JWT claims and expiry are opaque; key ids are new, and no new key derives an old public key. The order of rows is that of the query.
- RateLimiter.TouchAll: the commands of a pipeline run at one time; the parts of a counter's key stay apart instead of being joined by colons.
- Creation and listing of tables, HTTP routes, dashboard pages, OAuth, cookies, migrations, configuration: no invariants beyond those of the parts above.
