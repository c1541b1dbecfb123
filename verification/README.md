# Verified models of the visual-dashboard fixture and the URL and billing state machines

This project models, in Dafny, the parts of the trading-journal application whose correctness is hardest to
read off the code, and proves what they promise.

- **The visual-fixture seed** (`SeedDatabase`, `SeedRows`, `SeedTheorems`, `SeedFrame`, `SeedRerun`, `SeedGuards`,
  `SeedMigration`, `SeedTransaction`, on `Tables`). One database transaction resolves two accounts by name or derived id, accepts
  legacy ownership markers, re-keys and upserts the accounts, refuses foreign collisions, deletes everything under
  the two accounts and rebuilds it. The tables are maps in the fields of a class; `FixtureDatabase.Seed` commits or
  rolls back exactly as the pure function `Transaction` says. Proved about that function: the exact condition under
  which it commits; that the five inserts, the fingerprint STOP and the journal STOP can never fail once the
  guards have passed; that nothing else changes; that what lies under the accounts is exactly the blueprint; that
  every key and foreign key still holds; that a second run resolves the same accounts and changes two timestamps; that
  the guards are exact, refusing only what would break a key; and that a database with the older, unscoped markers is
  adopted and brought to the same state.
- **The fixture generator** (`JsonNamespace`, `Identity`, `IdentityTexts`, `Manifest`, `Permutations`, `Prng`, `Shuffle`,
  `FixtureTables`, `Calendar`, `ExitLegs`, `Blueprint`): the identity scheme on injective JSON encoding, the 32-bit
  generator and its full period, the in-place shuffle, the R tables after the shuffle of seed 12, the calendar with
  its one shared day, the partial-close splitter, and the 70 trades with the table constraints they have to meet.
  `Populations`, `CommittedTotals`, `CommittedRows` and `Outcomes` carry the counts and totals the validators and the
  fixture's tests pin (trades by population, table sizes, net result and costs, partial closes, total R and the paired
  gap, wins and losses by trade and by day) over to the committed tables.
- **The checkout attempt protocol** (`Checkout`): the component's handlers, session storage, and a server that keeps
  one transaction per idempotency key, under loss, delay, repetition and reloads; both what never happens and that the
  payment can succeed from every state a run reaches.
- **URL state** (`Utf8`, `UrlQuery`, `AuditQuery`, `AuditEdits`, `AnalyticsFilters`, `Proxy`, `Arrivals`,
  `SessionCookie`): form-encoded queries, the audit list's link and filter form, the analytics selection, the redirect
  chain through the proxy, layouts and login page and where it ends, and the signed session cookie.
- **Scroll restoration** (`ScrollRestoration`): the consume-once offset, the bounded retry chain it starts, and both
  over the whole history of a tab.

## Assumptions

- The truncated digest is a function without collisions on the texts it is given, and its output has no colon.
- Transactions run one at a time. The server handles one checkout call at a time; a drawn idempotency key is new;
  session storage works; one component instance is live and one quote belongs to a storage key; handlers see the
  state of the last completed event.
- `trim().toLowerCase()` on owner and workspace is an arbitrary function. Strings are sequences of Unicode scalar
  values.
- next-intl redirects a path without a locale to the visitor's locale, and its `redirect` puts the locale before
  whatever path it is given. The URL parser's same-origin verdict on a callback is an arbitrary predicate.
- A database starts with the keys and foreign keys of the migrations in force (`SeedDatabase.Sound`), and the seed
  reaches its transaction with what its earlier STOPs establish (`SeedDatabase.Prepared`).

## Findings

- `src/components/billing/checkout-experience.tsx:50-61`: a stored item that parses as JSON but has no string `key` is
  not replaced, although the comment says corrupt state is. Without a transaction id as well, the form stays disabled
  over every reload (`Checkout.StuckForever`); `Checkout.MountGivesKeyIff` says exactly which items give a key.
- `src/components/admin/admin-audit-filter-form.tsx:74-80`: a select change copies the current query, so a blank or
  padded text filter that came with the address survives it (`AuditQuery.PaddedActorSurvives`). After a run of edits
  the text filters are clean exactly when they were before or the run submitted or reset the form
  (`AuditQuery.CleanIff`).
- `src/app/[locale]/(public)/login/page.tsx:50-64`: a signed-in visitor at the login address the proxy wrote for an app
  path is sent to that path with its locale twice, where there is no page (`Proxy.AppCallbackIsDoubled`). The requested
  address is reached again exactly for admin paths (`Proxy.CallbackReturnsIff`).
- A redirect chain ends for every request exactly when a session always comes with its cookie (`Proxy.ChainsEndIff`);
  a valid session without a cookie would loop at `/admin`.
- A trade with a condition snapshot cannot be deleted (`drizzle/0011_setup_conditions_domain.sql:108-125`), so a
  snapshot under a fixture account makes the seed roll back; it is one of the four conditions of
  `SeedTheorems.CommitsExactlyWhen`. Such a database is reached by one run and one snapshot
  (`SeedRerun.SnapshotStopsTheNextRun`, `SeedRerun.ProtectedRunExists`).

## Model

| member | source | states |
|---|---|---|
| JsonNamespace.RoundTrip | scripts/visual-dashboard-fixture.ts:196-199 | A parser for JSON arrays of strings and numbers undoes the encoding of every identity namespace (section 7 of RFC 8259) |
| JsonNamespace.EncodeInjective | scripts/visual-dashboard-fixture.ts:196-199 | Two namespaces with the same encoding are the same namespace |
| Identity.UuidInjective | scripts/visual-dashboard-fixture.ts:196-206 | Equal deterministic ids come from equal namespaces |
| Identity.SchemesDisjoint | scripts/visual-dashboard-fixture.ts:208-218 | No id of the current scheme is an id of the legacy scheme, for any namespace and label |
| Identity.AccountIdentitiesDistinct | scripts/visual-dashboard-fixture.ts:225-273 | One owner and workspace get two different account ids and two different markers, neither marker a legacy identity |
| Identity.AccountIdentitiesDisjoint | scripts/visual-dashboard-fixture.ts:225-273 | Different normalised owner and workspace pairs share none of their four identities, in any position |
| Identity.MarkersAreApart | scripts/visual-dashboard-fixture.ts:225-285 | An account's current and legacy ownership markers never coincide, across both accounts |
| Identity.TradeIdsDistinct | scripts/visual-dashboard-fixture.ts:287-298 | Trade ids and trade mutation keys are equal exactly for the same account and index |
| Identity.ExitIdsDistinct | scripts/visual-dashboard-fixture.ts:300-306 | Exit ids and exit mutation keys are equal exactly for the same trade and sequence |
| Identity.RuleCheckIdsDistinct | scripts/visual-dashboard-fixture.ts:300-306 | Rule-check ids are equal exactly for the same trade and rule key |
| Identity.IdealIsPossible | scripts/visual-dashboard-fixture.ts:196-206 | The assumption made of the digest is consistent: some function of texts, with results of unbounded length, meets it |
| IdentityTexts.EncodeListed | scripts/visual-dashboard-fixture.ts:196-199 | A namespace of plain texts is hashed as the bracketed list of them, quoted and separated by commas |
| IdentityTexts.AccountTexts | scripts/visual-dashboard-fixture.ts:225-273 | The four account identities are the digests of the quoted paths that name the role, with the word mutation for the markers |
| Manifest.UniqueIff | scripts/validate-visual-dashboard-id-isolation.ts:47-51 | Comparing the size of the set with the length passes exactly on lists without duplicates |
| Manifest.IntersectionEmptyIff | scripts/validate-visual-dashboard-id-isolation.ts:42-45 | The intersection is empty exactly when the lists are disjoint |
| Manifest.CompositeKeys | scripts/validate-visual-dashboard-id-isolation.ts:94-99 | A composite key determines its trade and its mistake or emotion key |
| Manifest.TradesAreSeparate | scripts/validate-visual-dashboard-id-isolation.ts:65-101 | Two different trades, of one fixture or of two, share nothing in any of the seven per-trade kinds |
| Manifest.ManifestUniqueIff | scripts/validate-visual-dashboard-id-isolation.ts:103-107 | The duplicate check on all nine kinds passes exactly when the two account ids differ and the rule keys are distinct |
| Manifest.CollisionFreeIff | scripts/validate-visual-dashboard-id-isolation.ts:109-124 | All nine intersections are empty exactly when the normalised pairs differ and the account ids are disjoint, also with ids looked up in the database |
| Manifest.NamespacesAreIsolated | scripts/validate-visual-dashboard-id-isolation.ts:257-281 | Derived identities of different normalised pairs give collision-free manifests |
| Manifest.UniqueCheckIsComplete | scripts/validate-visual-dashboard-id-isolation.ts:103-107 | For any manifest the duplicate check passes exactly when none of the nine kinds holds a duplicate |
| Manifest.CollisionCheckIsComplete | scripts/validate-visual-dashboard-id-isolation.ts:109-124 | For any two manifests the check passes exactly when they share no identity of any of the nine kinds |
| Manifest.ManifestLists | scripts/validate-visual-dashboard-id-isolation.ts:65-101 | A manifest lists under each kind exactly the identities of its account, trades, exits and rule checks |
| Manifest.BlueprintsAreGenerated | scripts/visual-dashboard-fixture.ts:561-701 | Every trade's id, mutation key and exits are derived from its account and index, with no repeated mistake or emotion key |
| Prng.Mulberry32.Next | scripts/visual-dashboard-fixture.ts:308-316 | One draw moves the seed to the next 32-bit state and returns the mixed output of that state |
| Prng.Output | scripts/visual-dashboard-fixture.ts:308-316 | Every draw is a numerator below 2^32, that is a number in [0, 1) |
| Prng.StateClosedForm | scripts/visual-dashboard-fixture.ts:308-316 | After k draws the state is seed + k times the increment, modulo 2^32 |
| Prng.FullPeriod | scripts/visual-dashboard-fixture.ts:308-316 | Two draws share a state exactly when their numbers agree modulo 2^32, for every seed |
| Prng.EveryStateIsReached | scripts/visual-dashboard-fixture.ts:308-316 | Every 32-bit state occurs within one period |
| Shuffle.Target | scripts/visual-dashboard-fixture.ts:318-326 | The swap target of every draw is an index not above the current one |
| Shuffle.DeterministicShuffle | scripts/visual-dashboard-fixture.ts:318-326 | The loop over a fresh copy computes the specified sequence of swaps and leaves its argument alone |
| Shuffle.ShuffledPermutes | scripts/visual-dashboard-fixture.ts:318-326 | For every list and seed the result is a permutation of the input |
| Shuffle.ShuffledAt | scripts/visual-dashboard-fixture.ts:318-326 | Which input entry ends at each position, traced back through the swaps |
| FixtureTables.OverriddenEntries | scripts/visual-dashboard-fixture.ts:373-394 | Shuffled with seed 12, entries 32 and 48 are zero before their override, and entries 38 to 40 are 2.2, -1.1 and -1.15 |
| FixtureTables.SumPermutation | scripts/visual-dashboard-fixture.ts:318-326 | Lists with the same values have the same total |
| FixtureTables.ShuffleKeepsTotal | scripts/visual-dashboard-fixture.ts:332-350 | The total of a shuffled table does not depend on the seed |
| FixtureTables.ActualTotal | scripts/visual-dashboard-fixture.ts:332-394 | The 66 actual targets total 23.1R with both overrides in place |
| FixtureTables.PairedActualTotal | scripts/visual-dashboard-fixture.ts:332-394 | The 64 paired actual targets total 22R: both overrides replace a zero and cancel |
| FixtureTables.SystemTotal | scripts/visual-dashboard-fixture.ts:332-394 | The 64 paired system targets total 35.8R and all 68 total 36.25R, whatever order the shuffle of seed 2 leaves them in |
| FixtureTables.SharedDayTotal | scripts/visual-dashboard-fixture.ts:396-418 | The three trades of the shared day are a win and two losses netting -0.05R |
| FixtureTables.TableValues | scripts/visual-dashboard-fixture.ts:332-372 | Every tabulated target is one of the listed R values |
| Calendar.SpreadWindow | scripts/visual-dashboard-fixture.ts:420-430 | Every index falls between 0 and 89 days ago, the first on day 89 and the last on day 0 |
| Calendar.SpreadIsInjective | scripts/visual-dashboard-fixture.ts:420-430 | The spread is strictly decreasing exactly for 2 to 90 trades |
| Calendar.OneSharedDay | scripts/visual-dashboard-fixture.ts:415-430 | With 70 trades and the collision map the days never go back, and only indices 38, 39 and 40 share one |
| ExitLegs.BuildExitBlueprints | scripts/visual-dashboard-fixture.ts:436-483 | The pushed and mapped parts are the specified legs |
| ExitLegs.LegsConserve | scripts/visual-dashboard-fixture.ts:436-483 | For every R and index the legs are accepted one by one, close 10000 basis points and sum to the exact minor total |
| ExitLegs.MinorOfFourDecimals | scripts/visual-dashboard-fixture.ts:432-434 | Minor units of an R with at most four decimals are that R times 10000, for either sign |
| ExitLegs.CanonicalExactly | src/lib/calc/decimal.ts:84-88 | Rounding leaves an R alone exactly when it has at most four decimals; the rounded value always has, and is within half a ten-thousandth |
| ExitLegs.ComposeTraderClose | src/lib/calc/trade.ts:153-237 | The two loops over the legs compute the specified close or its error, which CloseSucceedsIff characterises |
| ExitLegs.CloseGivesBackR | scripts/visual-dashboard-fixture.ts:597-607 | Closing the legs gives back the R they were built from exactly when it has at most four decimals |
| ExitLegs.LegTimeline | scripts/visual-dashboard-fixture.ts:474-482 | Legs are numbered from one, 45 minutes apart, ending at the exit and reaching back 90 minutes at most |
| ExitLegs.CloseSucceedsIff | src/lib/calc/trade.ts:153-237 | A close succeeds exactly for a positive risk and legs that each close something and together everything, and returns the rounded quotient with its side of the band |
| ExitLegs.CloseIgnoresOrder | src/lib/calc/trade.ts:153-237 | The close of the same legs in any order is the same, result or error |
| ExitLegs.LegShares | scripts/visual-dashboard-fixture.ts:436-483 | The share, amount and reason of every leg of every shape |
| Blueprint.SystemSnapshotGivesBackTarget | scripts/visual-dashboard-fixture.ts:495-518 | For every target the snapshot fails exactly when its gross R has more than eight digits before the point, and otherwise gives back the target exactly when that has at most four decimals |
| Blueprint.BlueprintNeverThrows | scripts/visual-dashboard-fixture.ts:485-491 | No calculation of the 70 trades fails, and each returns the tabulated R |
| Blueprint.BuildVisualTradeBlueprints | scripts/visual-dashboard-fixture.ts:561-701 | The loop returns the 70 specified trades, or the error for fewer than three setups |
| Blueprint.BlueprintSatisfiesSchema | src/server/db/schema/trades.ts:358-660 | Every fixture trade meets the status, system-status and column checks and the exit triggers |
| Blueprint.ExitsSatisfyTriggers | drizzle/0013_actual_execution_v2.sql:118-189 | Exits follow the entry and never exceed 10000 basis points on the way; their total fits the status |
| Blueprint.TimelineOrdered | scripts/visual-dashboard-fixture.ts:592-643 | Created, entered, each leg, exit, system exit, system resolution and update are strictly ordered wherever they exist |
| Blueprint.MoneyConserved | scripts/visual-dashboard-fixture.ts:608-676 | Gross less commission, fees and swap is the net, which is the sum of the legs and R times the risk |
| Blueprint.RealisedPnl | scripts/visual-dashboard-fixture.ts:608-613 | The legs of a closed trade realise exactly its target R times 10000 |
| Tables.Insert | scripts/seed-visual-dashboard.ts:450-521 | A multi-row insert checked row by row computes the specified table or fails without effect |
| Tables.InsertSucceedsIff | scripts/seed-visual-dashboard.ts:450-521 | An insert goes through exactly when its rows are valid, unique among themselves and clear of the table |
| SeedRows.TradeRowsUnique | scripts/seed-visual-dashboard.ts:400-450 | The 70 trade rows share no id and no mutation key |
| SeedRows.ExitRowsUnique | scripts/seed-visual-dashboard.ts:452-467 | The exit rows share no id, mutation key or trade and sequence |
| SeedRows.CheckRowsUnique | scripts/seed-visual-dashboard.ts:469-489 | The rule-check rows share no id and no trade and rule key |
| SeedRows.MistakeRowsUnique | scripts/seed-visual-dashboard.ts:491-511 | No trade and mistake pair is inserted twice |
| SeedRows.EmotionRowsUnique | scripts/seed-visual-dashboard.ts:513-521 | No trade and emotion pair is inserted twice |
| SeedRows.RebuildSucceeds | scripts/seed-visual-dashboard.ts:400-521 | All five inserts succeed on what the guards and the delete leave, and add exactly their rows |
| SeedRows.BlueprintsAreBuilt | scripts/visual-dashboard-fixture.ts:561-701 | Every generated trade has what the inserts rely on: derived identities, satisfied checks, known and distinct mistake and emotion keys |
| SeedTheorems.ResolutionIsSound | scripts/seed-visual-dashboard.ts:215-269 | Whatever mix of name, derived id and legacy marker is used, the two account ids are distinct and their rows are in the target workspace |
| SeedTheorems.ClaimSucceedsIff | scripts/seed-visual-dashboard.ts:283-320 | Both upserts go through exactly when no other account of the workspace holds either marker |
| SeedTheorems.BeforeRekeying | scripts/seed-visual-dashboard.ts:390-398 | Before the upserts the delete selects only trades under the two accounts and misses exactly those whose account carries a legacy marker |
| SeedTheorems.DeleteCoversEveryOldTrade | scripts/seed-visual-dashboard.ts:390-398 | After the upserts it selects every trade under the two accounts |
| SeedTheorems.GuardsClearTheWay | scripts/seed-visual-dashboard.ts:335-398 | Once the collision guards pass, the delete leaves no row that shares an id or a workspace and mutation key with a row to be inserted |
| SeedTheorems.FingerprintIsKept | scripts/seed-visual-dashboard.ts:543-558 | The fingerprint of the other accounts is the same after the rebuild |
| SeedTheorems.CommitsExactlyWhen | scripts/seed-visual-dashboard.ts:207-568 | The transaction commits exactly when resolution succeeds, the markers are free, nothing is foreign and nothing to be deleted is protected; constraint errors and fingerprint STOPs never occur |
| SeedTheorems.OutcomeOf | scripts/seed-visual-dashboard.ts:207-568 | The outcome of every run on a sound database: the resolution STOP, the taken marker, the foreign collision, the protected snapshot, or the specified state, in that order |
| SeedTheorems.EmptyDatabaseCommits | scripts/seed-visual-dashboard.ts:207-568 | On an empty database every prepared run with a non-blank owner and workspace commits |
| SeedFrame.NothingElseChanges | scripts/seed-visual-dashboard.ts:207-568 | Every other account and every row not under the two accounts is as it was |
| SeedFrame.ExactlyTheBlueprint | scripts/seed-visual-dashboard.ts:400-521 | The empty account has no trades; under the populated one are exactly the blueprint's trades, exits, rule checks, mistakes and emotions, each once |
| SeedFrame.AccountsAreClaimed | scripts/seed-visual-dashboard.ts:283-320 | Both accounts carry every written column and the current marker; untouched columns survive |
| SeedRerun.CommitKeepsSound | scripts/seed-visual-dashboard.ts:207-568 | Every key and foreign key of the database holds after a commit |
| SeedRerun.ResolvesAgain | scripts/seed-visual-dashboard.ts:215-269 | After a commit the accounts are found by name, whichever way they were found before |
| SeedRerun.SecondRunChangesNothing | scripts/seed-visual-dashboard.ts:207-568 | A second run resolves the same accounts, commits, and changes nothing but their updated_at |
| SeedRerun.SnapshotStopsTheNextRun | drizzle/0011_setup_conditions_domain.sql:108-125 | After a commit, adding a condition snapshot to any trade under the two accounts keeps the database sound and makes the next run roll back because of it |
| SeedRerun.ProtectedRunExists | drizzle/0011_setup_conditions_domain.sql:108-125 | There is a sound database on which the run ends in the protected-snapshot error |
| SeedGuards.GuardsAreExact | scripts/seed-visual-dashboard.ts:335-398 | The collision guards stop a run exactly when the inserts could not all go in on what the delete leaves |
| SeedGuards.DeleteRefusedIff | drizzle/0011_setup_conditions_domain.sql:108-125 | The snapshot trigger refuses a delete exactly when its cascades would break a foreign key |
| SeedGuards.FingerprintShowsALoss | scripts/seed-visual-dashboard.ts:269-281 | The fingerprint of the other accounts changes with the loss of any one of their trades |
| SeedGuards.FingerprintShowsAccounts | scripts/seed-visual-dashboard.ts:269-281 | An unchanged fingerprint means every other account is there with its name and updated_at |
| SeedMigration.ResolvesIff | scripts/seed-visual-dashboard.ts:215-269 | Resolution succeeds exactly for a non-blank owner and workspace, derived ids that are free or the fixture's own, and names borne at most once in the workspace by a row with the current or the legacy marker; it finds the bearers, or the derived ids where there are none |
| SeedMigration.MigrationRestores | scripts/seed-visual-dashboard.ts:215-320 | Putting the legacy marker back on either or both accounts of any committed database, under ids of another scheme, gives a sound database on which the run finds the same accounts, commits and restores the committed state but for two timestamps |
| SeedMigration.LegacyDatabaseCommits | scripts/seed-visual-dashboard.ts:249-320 | A database that holds just the two accounts with their legacy markers is adopted: the run commits, keeps their ids and gives them the current markers |
| SeedMigration.StopsSayWhy | scripts/seed-visual-dashboard.ts:215-262 | A failed resolution names the blank identity, the owned id, or the first name that is shared or lacks both markers |
| SeedTransaction.FixtureDatabase.Lookup | scripts/seed-visual-dashboard.ts:232-269 | The name guard and lookup return the specified id or STOP |
| SeedTransaction.FixtureDatabase.ResolveAccounts | scripts/seed-visual-dashboard.ts:215-269 | The guards in their order return the specified resolution or STOP |
| SeedTransaction.FixtureDatabase.UpsertAccount | scripts/seed-visual-dashboard.ts:307-320 | The accounts table after an insert with on-conflict update, or unchanged on a taken marker |
| SeedTransaction.FixtureDatabase.DeleteTrades | scripts/seed-visual-dashboard.ts:390-398 | The five tables after the delete and its cascades, or unchanged when a snapshot protects a trade |
| SeedTransaction.FixtureDatabase.InsertAll | scripts/seed-visual-dashboard.ts:400-521 | The five tables after the inserts in their order |
| SeedTransaction.FixtureDatabase.Seed | scripts/seed-visual-dashboard.ts:207-568 | Commits the specified state or restores the old one with the specified STOP, and from a sound database commits exactly under the stated conditions |
| SeedTransaction.FixtureDatabase.ClaimAccounts | scripts/seed-visual-dashboard.ts:283-320 | The accounts table after both upserts in order, or the taken marker |
| Populations.CountsReconcile | scripts/seed-visual-dashboard.ts:754-768 | For any rows the exclusive counts and the paired count add up to both totals and to the candidates |
| Populations.NarrowedCandidatesAreTheIntersection | scripts/validate-visual-dashboard-d5.ts:147-175 | Candidates narrowed by eligibility are exactly the rows complete on both axes |
| Populations.ShorterQueryAgrees | scripts/seed-visual-dashboard.ts:625-634 | Under the table's checks the status-only comparison query selects the same rows |
| Populations.LabelsAreEligibility | scripts/visual-dashboard-fixture.ts:79-118 | A trade is trader-complete exactly for labels A and C, system-complete exactly for B, C and operational |
| Populations.FixtureCounts | scripts/visual-dashboard-fixture.ts:79-118 | 66 trades in population A, 68 in B, 64 in both, 2 and 4 exclusively |
| Populations.FixtureNetTotal | scripts/validate-visual-dashboard-d7.ts:204-214 | The closed trades net exactly 231000 minor units for every account and framework |
| Populations.FixturePartials | scripts/visual-dashboard-fixture.ts:436-483 | The generator closes ten trades in parts, by 24 legs |
| Populations.ReportAfterCommit | scripts/seed-visual-dashboard.ts:754-768 | After a commit on any database the report's population queries count 66, 68, 64, 2 and 4 |
| Populations.CountHeldRows | scripts/seed-visual-dashboard.ts:754-768 | Counting in a table that holds exactly some rows is counting the rows |
| CommittedTotals.SumHeldRows | scripts/validate-visual-dashboard-d7.ts:226-240 | Adding up a table that holds exactly some rows is adding up the rows |
| CommittedTotals.CommittedTradeIsConsistent | drizzle/0013_actual_execution_v2.sql:163-189 | After a commit every fixture trade is in the tables with its content, and its exits there total 10000 basis points and its net result when closed, fewer when open, none when planned |
| CommittedTotals.CommittedNet | scripts/validate-visual-dashboard-d7.ts:204-214 | After a commit on any database the populated account's trades net 231000 minor units |
| CommittedTotals.CommittedPartials | scripts/validate-visual-dashboard-d7.ts:227-244 | After a commit on any database the query over closed trades and their exits finds ten trades with several exits and 24 exits among them |
| CommittedTotals.GapIsDifference | src/lib/calc/attribution.ts:121-132 | For any trades the gap summed pair by pair is the difference of the two paired totals |
| CommittedTotals.CommittedR | scripts/visual-dashboard-fixture.test.ts:290-325 | After a commit on any database the actual R totals 23.1 over population A, the system R 36.25 over B, and over the paired trades they total 22 and 35.8 with a gap of -13.8 |
| CommittedTotals.CommittedAverages | scripts/visual-dashboard-fixture.test.ts:290-328 | The averages 0.35 and 0.5331 come from the two populations, the average gap -0.2156 and the captured edge 0.6145 from the paired totals, each rounded once |
| CommittedRows.CommittedSizes | scripts/visual-dashboard-fixture.test.ts:190-207 | After a commit 70 trades, 80 exits, 7 mistakes and every rule checked on 68 trades |
| CommittedRows.CommittedCheck | scripts/seed-visual-dashboard.ts:43-49 | Each rule is checked once on each classified trade and on no other, with the status for its trade and rule and the times of its trade |
| CommittedRows.CommittedMistake | scripts/seed-visual-dashboard.ts:491-511 | A committed mistake carries the severity, the weight and the note of its own type |
| CommittedRows.CommittedCosts | scripts/visual-dashboard-fixture.ts:608-676 | The committed trades cost 4950 of commission, 1650 of fees and 550 of swap |
| CommittedRows.CommittedExit | scripts/visual-dashboard-fixture.ts:466-483 | The committed legs of every closed trade are 45 minutes apart, the last at the trade's exit |
| CommittedRows.CommittedFeelings | scripts/seed-visual-dashboard.ts:491-521 | A committed emotion is one its trade was given, and emotions and mistakes carry the time their trade was last updated |
| Outcomes.CountPermutation | scripts/visual-dashboard-fixture.ts:318-326 | How often a predicate holds does not depend on the order a shuffle leaves |
| Outcomes.CommittedOutcomes | scripts/visual-dashboard-fixture.test.ts:290-312 | After a commit on any database 27 wins, 5 break-evens and 34 losses among the trader's results and 29, 4 and 35 among the system's, with the win rates 0.4091 and 0.4265 |
| Outcomes.OutcomesAgree | src/lib/calc/trade.ts:455-470 | Every committed outcome says on which side of the band of 0.05 its stored R is |
| Outcomes.SystemNets | scripts/visual-dashboard-fixture.ts:495-518 | Every committed system R is its recorded gross R less its recorded cost |
| Outcomes.CommittedDays | scripts/visual-dashboard-fixture.ts:396-430 | The committed trades exit on the 64 days of the calendar, and each day totals its trades, the shared one exactly -0.05R |
| Outcomes.CommittedDayOutcomes | scripts/visual-dashboard-fixture.test.ts:412-453 | Of those 64 days 26 win, 6 break even and 32 lose, a rate of 0.4063 |
| Checkout.CheckoutExperience.MountEffect | src/components/billing/checkout-experience.tsx:47-70 | The key, transaction and stored item after the mount timer |
| Checkout.CheckoutExperience.HandleSubmit | src/components/billing/checkout-experience.tsx:82-91 | Starts one checkout call with the held key, or nothing without a key or while pending |
| Checkout.CheckoutExperience.HandleReconcile | src/components/billing/checkout-experience.tsx:102-110 | Starts one reconcile call for the known transaction, or nothing |
| Checkout.CheckoutExperience.ActionAnswered | src/components/billing/checkout-experience.tsx:72-114 | The state and stored item after either action answers |
| Checkout.CheckoutExperience.BeginNewAttempt | src/components/billing/checkout-experience.tsx:116-122 | The state and stored item of a new attempt |
| Checkout.StepInv | src/components/billing/checkout-experience.tsx:47-122 | Every event keeps the protocol invariant |
| Checkout.RunsAreSafe | src/components/billing/checkout-experience.tsx:47-122 | Over every run from no stored item or an unreadable one: one action in flight at most, stored key equal to the held key, every submitted key but the stored one acknowledged as terminal, one unresolved transaction at most |
| Checkout.GuardNeverFires | src/server/services/checkout.ts:454-470 | The server never refuses this component's call because another checkout is in progress |
| Checkout.ReloadResumes | src/components/billing/checkout-experience.tsx:47-70 | After a reload or lost response the next mount resumes the same key and transaction and draws nothing |
| Checkout.MountGivesKeyIff | src/components/billing/checkout-experience.tsx:50-61 | The mount leaves no key exactly for items that parse without a string key |
| Checkout.StuckForever | src/components/billing/checkout-experience.tsx:50-61 | From an item with neither key nor transaction no run ever sends a call |
| Checkout.OfferedIsExact | src/components/billing/checkout-experience.tsx:267-302 | In every reachable state the control shown is decided by the session and the server's row: continue for succeeded, try again for failed or canceled, form or check while an attempt is stored, check exactly for a remembered transaction whose last answer was no refusal |
| Checkout.SubmitSends | src/components/billing/checkout-experience.tsx:82-91 | In every reachable idle state with the form, submitting starts exactly one call, the checkout of the key that is held and stored |
| Checkout.CheckSends | src/components/billing/checkout-experience.tsx:102-111 | In every reachable idle state with a remembered transaction, checking starts exactly its reconcile, and no other transaction is unresolved |
| Checkout.RestartIsFresh | src/components/billing/checkout-experience.tsx:116-122 | A new attempt holds and stores a key never submitted or seen by the server, and shows the form |
| Checkout.SuccessIsReachable | src/components/billing/checkout-experience.tsx:47-122 | From every reachable idle state some steps without a reload end with the payment succeeded, acknowledged and the way to the plan shown |
| Checkout.SuccessAfterAnyRun | src/components/billing/checkout-experience.tsx:47-122 | The same from every reachable state, with calls in flight or lost, after one reload |
| Checkout.OneOpenForAnyone | src/server/services/checkout.ts:454-470 | For any caller and any keys the server never opens a transaction beside another, never changes a terminal one and adds rows only for checkouts |
| Checkout.KeysAccountedFor | src/components/billing/checkout-experience.tsx:47-122 | The invariant bounds submitted keys by acknowledged ones plus one, and unresolved transactions by one |
| Utf8.RoundTrip | src/components/admin/admin-audit-list-page.tsx:38-47 | Decoding the UTF-8 encoding of a string gives the string |
| UrlQuery.TextRoundTrip | src/components/admin/admin-audit-list-page.tsx:38-47 | Form-decoding a form-encoded text gives it back, and the encoding has no delimiter in it |
| UrlQuery.QueryRoundTrip | src/components/admin/admin-audit-list-page.tsx:38-47 | Parsing a serialized list of names and values gives the list, for all lists (sections 5.1 and 5.2 of the WHATWG URL Standard) |
| UrlQuery.URLSearchParams.Put | src/components/admin/admin-audit-list-page.tsx:38-46 | set replaces the first entry of the name and removes the others, or appends |
| UrlQuery.URLSearchParams.Remove | src/components/admin/admin-audit-filter-form.tsx:74-80 | delete removes every entry of the name and keeps the others in order |
| UrlQuery.GetAfterSet | src/components/admin/admin-audit-list-page.tsx:38-46 | Reading after set gives the value for its name and what was there for any other |
| UrlQuery.SetInPlace | src/components/admin/admin-audit-list-page.tsx:38-46 | A value set for a present name stands where its first entry stood, and the other entries keep their order |
| UrlQuery.SetAtEnd | src/components/admin/admin-audit-list-page.tsx:38-46 | A value set for a new name goes to the end |
| AuditQuery.BuildHref | src/components/admin/admin-audit-list-page.tsx:26-48 | The link of the seven conditional sets |
| AuditQuery.LinkRoundTrip | src/components/admin/admin-audit-list-page.tsx:26-48 | Reading the link's query gives back the six filters and the cursor for all values; an empty cursor stays apart from an absent one |
| AuditQuery.AuditFilterForm.HandleChange | src/components/admin/admin-audit-filter-form.tsx:114-165 | The address after a select change |
| AuditQuery.AuditFilterForm.HandleSubmit | src/components/admin/admin-audit-filter-form.tsx:82-95 | The address after submitting the trimmed text filters |
| AuditQuery.TrimCleans | src/components/admin/admin-audit-filter-form.tsx:82-95 | Trimming gives an empty or a clean value and leaves a clean one alone |
| AuditQuery.CursorIff | src/components/admin/admin-audit-filter-form.tsx:74-80 | A cursor survives a run of edits exactly when none of them navigated |
| AuditQuery.CleanIff | src/components/admin/admin-audit-filter-form.tsx:74-95 | Text filters are clean after a run exactly when they were before or the run submitted or reset |
| AuditQuery.PaddedActorSurvives | src/components/admin/admin-audit-filter-form.tsx:74-80 | A padded actor in the address survives a select change |
| AuditEdits.EditRead | src/components/admin/admin-audit-filter-form.tsx:74-165 | After every edit the page reads what it read before with exactly that edit made, and no cursor if it navigated |
| AuditEdits.LastChoiceDecides | src/components/admin/admin-audit-filter-form.tsx:103-165 | After any run of edits a select reads as its last choice |
| AuditEdits.LastSubmitDecides | src/components/admin/admin-audit-filter-form.tsx:82-95 | After any run each text filter reads as its own box, trimmed, at the last submission |
| AuditEdits.ResetEmpties | src/components/admin/admin-audit-filter-form.tsx:74-165 | A reset empties every filter until a later edit fills it |
| AnalyticsFilters.FilterBar.PickRange | src/components/analytics/analytics-filters.tsx:90-96 | The address after choosing a preset, without the custom dates |
| AnalyticsFilters.FilterBar.PickStrategy | src/components/analytics/analytics-filters.tsx:141-148 | The address after choosing a strategy, without setup and version |
| AnalyticsFilters.FilterBar.PickSetup | src/components/analytics/analytics-filters.tsx:166-172 | The address after choosing a setup, without the version |
| AnalyticsFilters.FilterBar.PickVersion | src/components/analytics/analytics-filters.tsx:190-195 | The address after choosing a version |
| AnalyticsFilters.NarrowedMembers | src/components/analytics/analytics-filters.tsx:41-54 | The narrowed options are exactly those of the selected strategy |
| AnalyticsFilters.CurrentParamsRead | src/components/analytics/analytics-filters.tsx:56-67 | Reading the current parameters gives the selection |
| AnalyticsFilters.ChangeRoundTrip | src/lib/analytics/url-filters.ts:65-111 | The page reads back the updated selection, or rejects it exactly when the schema does |
| AnalyticsFilters.PresetNeedsNoDates | src/lib/analytics/filters.ts:50-77 | A preset is accepted with the rest of a selection exactly when the selection had no custom range |
| AnalyticsFilters.ChangeIsCoherent | src/components/analytics/analytics-filters.tsx:41-54 | Every change the page offers keeps strategy, setup and version in agreement |
| AnalyticsFilters.RunsAreCoherent | src/components/analytics/analytics-filters.tsx:41-194 | Every run from a coherent address stays at accepted addresses with coherent selections, and keeps custom dates exactly until a preset is chosen |
| AnalyticsFilters.AcceptedReadsBack | src/components/analytics/analytics-filters.tsx:56-67 | From every accepted address the rebuilt parameters are read the same again |
| AnalyticsFilters.FirstDifference | src/lib/analytics/filters.ts:50-77 | Two dates are ordered by the first character in which they differ |
| AnalyticsFilters.BeforeIsTotal | src/lib/analytics/filters.ts:50-77 | Two different dates are ordered one way and never both |
| AnalyticsFilters.RefusedAddresses | src/lib/analytics/url-filters.ts:65-111 | Unknown names, repeated filters, dates without a custom range, incomplete or reversed custom ranges and malformed ids are refused |
| AnalyticsFilters.EveryRange | src/lib/analytics/filters.ts:50-77 | Each preset is accepted on its own and the custom range with two dates in order |
| AnalyticsFilters.FilterBar.PickAccount | src/components/analytics/analytics-filters.tsx:117-122 | The address after choosing an account |
| Proxy.AppPathHasItsLocale | src/proxy.ts:58-69 | Every app path gets its own locale, never the fallback |
| Proxy.ProxyRequest | src/proxy.ts:71-111 | The proxy's decision for every request |
| Proxy.CallbackOfLogin | src/proxy.ts:98-108 | The login address carries the requested path and query as its callback, for all of them |
| Proxy.DecodingShrinks | src/app/[locale]/(public)/login/page.tsx:50-52 | Decoding never lengthens a text, so nested callbacks are used up |
| Proxy.StepDecreases | src/proxy.ts:30-41 | Every redirect decreases a measure on the visitor and the request |
| Proxy.HopsBounded | src/proxy.ts:30-41 | A chain is no longer than the measure, and has at most three redirects without a session |
| Proxy.ChainIsPermitted | src/app/[locale]/(app)/layout.tsx:46-50 | Whatever the starting request, a protected page is shown only to the visitors it is for, and the login form only without a session |
| Proxy.ChainsEndIff | src/proxy.ts:30-41 | Every chain ends exactly when a session always comes with its cookie |
| Proxy.OldRuleLoops | src/proxy.ts:30-41 | The removed rule would bounce a visitor with a stale cookie between the app and the login page; the present one shows the form |
| Proxy.AdminCallbackReturns | src/app/[locale]/(public)/login/page.tsx:53-63 | A signed-in visitor gets back to the admin path and query the proxy took the callback from |
| Proxy.AppCallbackIsDoubled | src/app/[locale]/(public)/login/page.tsx:64-65 | From an app path the same visitor reaches a path with the locale twice, where there is no page |
| Proxy.CallbackReturnsIff | src/app/[locale]/(public)/login/page.tsx:50-64 | For every request the proxy sent to a login address, a visitor signed in there is sent back to that request exactly when it was for an admin path |
| Proxy.FollowEnds | src/proxy.ts:30-41 | From every request the chain ends when a session comes with its cookie |
| Arrivals.SentToLogin | src/proxy.ts:71-108 | Every app or admin request without a cookie moves to a login page in the path's own locale, with the whole path and query in its callback |
| Arrivals.ProxyOtherwise | src/proxy.ts:71-111 | With a cookie app and admin paths pass, other localised paths always pass, and the rest get the preferred locale and keep path and query |
| Arrivals.EndsWhere | src/app/[locale]/(app)/layout.tsx:46-50 | For every visitor and every localised or admin path what the chain of redirects finally shows, decided by the page asked for |
| Arrivals.UnprefixedEnds | src/proxy.ts:86-93 | A path without a locale ends where the same path in the preferred locale does |
| Arrivals.LoginGoesHome | src/app/[locale]/(public)/login/page.tsx:50-65 | A signed-in visit to the login page without a usable callback ends on the visitor's own start page |
| Arrivals.DestinationIsLocal | src/lib/auth/callback-url.ts:16-37 | Every destination is a path on this site, and it is the callback whenever that is one |
| Arrivals.MatcherSees | src/proxy.ts:113-120 | The proxy sees every app and admin path without a dot, and no static file, API or framework path |
| ScrollRestoration.FoundIff | src/components/dashboard/dashboard-scroll-restoration.tsx:35-58 | A mount finds an offset exactly when a click stored it and no click or mount has happened since |
| ScrollRestoration.ConsumedOnce | src/components/dashboard/dashboard-scroll-restoration.tsx:23-27 | Between two mounts of which the second finds an offset, a click stored one |
| ScrollRestoration.NoMoreThanClicks | src/components/dashboard/dashboard-scroll-restoration.tsx:23-27 | No history restores more positions than clicks stored offsets |
| ScrollRestoration.DashboardTab.RememberDashboardScroll | src/components/dashboard/dashboard-scroll-restoration.tsx:36-43 | The stored item after a click |
| ScrollRestoration.DashboardTab.MountEffect | src/components/dashboard/dashboard-scroll-restoration.tsx:46-60 | The item is gone, and a chain for the number it denotes is started when that is finite and positive; nothing happens when storage throws |
| ScrollRestoration.MountStartsIff | src/components/dashboard/dashboard-scroll-restoration.tsx:46-60 | A mount starts a chain for a positive position exactly when an untouched click stored a text for it, and a mount right after it starts none |
| ScrollRestoration.SixtyPerClick | src/components/dashboard/dashboard-scroll-restoration.tsx:46-123 | Over every history of mounts, browsers, frames and inputs a tab is scrolled at most sixty times for each click |
| ScrollRestoration.Restoration.Attempt | src/components/dashboard/dashboard-scroll-restoration.tsx:100-112 | The chain after one attempt and the attempts it makes itself when frames are synchronous |
| ScrollRestoration.Restoration.Dispatch | src/components/dashboard/dashboard-scroll-restoration.tsx:93-122 | The chain after a frame, an input or the cleanup |
| ScrollRestoration.RestorationIsBounded | src/components/dashboard/dashboard-scroll-restoration.tsx:62-123 | At most 60 scrolls, every one but the last a miss and in time, and none after an input or the cleanup, for every browser |
| ScrollRestoration.StopsForAReason | src/components/dashboard/dashboard-scroll-restoration.tsx:100-112 | In every run a frame scrolls, and the chain stops only within two pixels, after a second or at the sixtieth scroll |
| ScrollRestoration.ScrollsUntilDone | src/components/dashboard/dashboard-scroll-restoration.tsx:98-112 | Without inputs a chain goes on until it is within two pixels, a second has passed or it has scrolled sixty times |
| SessionCookie.Base64RoundTrip | e2e/support/authenticate.ts:129-131 | Base64 gives back its bytes and has no dot (section 4 of RFC 4648) |
| SessionCookie.UriComponentRoundTrip | e2e/support/authenticate.ts:131-131 | Decoding an encoded URI component gives it back |
| SessionCookie.CookieGivesBackToken | e2e/support/authenticate.ts:109-132 | Splitting at the last dot recovers every token and its signature from the signed cookie |

## Left out

- SeedDatabase.Transaction: rows carry the columns the seed writes, with price-mode, attachment and soft-delete
  columns left out because every fixture row has them null; an account's unwritten columns are one opaque value.
- SeedDatabase.Transaction: the running total of basis points that the exit trigger keeps per trade is proved of the
  blueprint (`Blueprint.ExitsSatisfyTriggers`) and of the committed tables (`CommittedTotals.CommittedTradeIsConsistent`)
  and is not part of the modelled table's own constraints; references to strategies, setups, rules and taxonomies are
  to rows read before the transaction, whose tables are not modelled.
- SeedDatabase.Prepared: finding the user, workspace, strategy, setups, rules and taxonomy, and the environment check,
  happen before the transaction; the model starts from what their STOPs establish.
- SeedTransaction.FixtureDatabase.Seed: concurrent sessions and locking; transactions run one at a time.
- The identity manifest's digest, the console reports and the dashboard composers are not part of this model.
- JsonNamespace.EncodeInjective: strings with lone surrogates, which JSON.stringify escapes.
- Identity.UuidInjective: the digest is assumed free of collisions; its truncation to 128 bits with two fixed digits
  makes that an assumption about the texts in use.
- Identity.IdealIsPossible: shows that assumption consistent with a digest of unbounded length only; no digest of 128
  bits is free of collisions on all texts.
- Manifest.CollisionFreeIff: the sorting of the lists, which only affects how they are printed.
- Shuffle.DeterministicShuffle: the product of a draw and a length is exact in double precision for lists shorter than
  2^21 entries, so it is modelled exactly; rounding beyond that is not.
- ExitLegs.CloseGivesBackR: R values are the numbers their strings denote; the working precision of the decimal
  library is never reached by four decimals and is not modelled.
- ExitLegs.ComposeTraderClose: the price mode and legs without a realised result, which the fixture never has.
- Calendar.OneSharedDay: dates are instants computed by functions, not Date objects changed in place.
- Checkout.RunsAreSafe: a run starts from no stored item or an unreadable one; items with a key arise within runs, and
  items that parse without a key are the subject of `Checkout.MountGivesKeyIff` and `Checkout.StuckForever`.
- Checkout.RunsAreSafe: several tabs or components, failing storage, the continuation of a component left by
  client-side navigation, and amounts; a transaction id is modelled as determined by its key, and a reply may be any
  reply ever given to the same call, which allows more than the network does.
- AuditQuery.LinkRoundTrip: the page's own check of action, reason and date against its catalogues, and repeated keys,
  which a link never has.
- AnalyticsFilters.RunsAreCoherent: the uuid and calendar-date formats are arbitrary predicates.
- Proxy.ChainIsPermitted: dot segments, trailing slashes, letter case in locales and locale detection, which Next.js and
  next-intl handle before the rules here; route handlers and not-found pages all count as not found; where the sign-in
  form goes after a successful sign-in is not part of this model.
- CommittedTotals.CommittedR: profit factor and drawdown of the headline cards.
- Outcomes.CommittedDayOutcomes: days are days in UTC, the zone the fixture's dates are written in.
- CommittedRows.CommittedSizes: the number of emotion rows, and the descriptive columns of a trade (notes, symbols,
  sessions, confidence), which are only carried along.
- SeedMigration.MigrationRestores: starts from a committed database; trades that the older scheme inserted under the two
  accounts are covered by `SeedTheorems.DeleteCoversEveryOldTrade`.
- Arrivals.EndsWhere: which addresses have a page is the table in `Proxy.RouteOf`, taken from the route directories.
- ScrollRestoration.RestorationIsBounded: Number is an arbitrary function on the stored text, and scrolling by other
  means than wheel, touch and keys is not an input.
- SessionCookie.CookieGivesBackToken: HMAC is an arbitrary function from tokens to bytes.
- Markup, translations, charts, static catalogues and billing-capability branching: each claim there is settled by
  reading one branch.
