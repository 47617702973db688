# Verification of the wallet analytics platform

A Dafny model of the parts of the platform that carry guarantees, with machine-checked proofs
of those guarantees. `dafny verify dfyconfig.toml` checks all of it.

| area | files |
|---|---|
| Backtest engine: moving average, metrics, lagged correlation | `MovingAverage`, `Metrics`, `Correlation`, with `RealSums`, `Quotients` |
| Authentication: nonces, sessions, lineages, roles, sign-in messages | `AuthTables`, `AuthProtocol`, `AuthFrames`, `AuthGrowth`, `AuthNonces`, `AuthExpiry`, `AuthReuse`, `AuthSessions`, `AuthLineages`, `AuthRoles`, `AuthWallets`, `AuthService`, `Siwe`, `SiweAccepts`, `Text` |
| Transaction indexer, wallet sync, overlapping syncs, worker pool, price oracle | `Indexer`, `SyncDriver`, `SnapshotRace`, `DailyRows`, `WorkerPool`, `Oracle` |
| Contracts and reconciliation with the ingested rows | `RoleManager`, `Token`, `Ledger`, `LedgerExample` |
| Throttles | `NonceLimiter`, `Alerts`, over one counting lemma in `Spacing` |

## How the model is made

Code that changes state step by step is a class whose methods keep the program's branches and
order (`MovingAverage.RunMovingAverage`, `AuthService.Service`, `IndexerService.Service`,
`Oracle.Stack`, `SyncDriver.Driver`, the two contracts, the throttles). Each method is tied to a
function of the old state or says outright what it achieves. Where many callers interleave, each
SQL statement and each remote call is one atomic step of a state machine, and the theorems hold
for every sequence of steps. `AuthService` and `IndexerService` record the machine steps their
methods take, and run any steps of other callers between two statements, so the theorems hold of
the tables those methods leave behind and the contracts of `Login`, `LinkWalletToUser`,
`RefreshSession` and `SyncTransactions` hold under interference. `Oracle` and `SyncDriver` run
other callers inside every `Await` in the same way.

Floating-point numbers are reals, and the quotient 0/0 of an empty window (NaN in the program) is
`None`, which compares false with everything. Time is an integer clock that never runs backwards.
Tables are maps and sequences. Failures of remote calls and statements are non-deterministic
choices. Signatures, hashing, address and time texts, and random values are abstract.

## What holds only under a condition

- `RoleManager`: `transferOwnership` always reports `None` as the new owner's previous role
  (RoleManager.sol line 43). The event log is right about previous roles exactly when the new
  owner had no role (`PreviousRoleTold`); `PreviousRoleWrong` is a run where it is wrong.
- Ledger: a transfer of the wallet to itself is one incoming row. The ledger equals the balance
  change exactly when nothing was sent to itself (`LedgerReconciles`); `LedgerDiffers` is a run where
  it says 5 and the balance did not change.
- Nonces: issuing a nonce again clears its consumption (auth/src/lib.rs lines 333-344). The bound
  on Ok answers is the number of issues; it is one for nonces that never repeat (`NonceSpentOnce`).
  The bound is tight: for every k a run issues a nonce k times and answers Ok for it k times
  (`BoundIsTight`).
- Nonces and time: an Ok answer goes back to a check at which the nonce was at most 300 seconds past
  its last issue (`GrantsWereChecked`). The consumption does not look at the expiry, so the answer
  itself can come any time later (`LateAnswer`).
- Errors and nonces: an error of `LinkWalletToUser` has spent the caller's nonce only when the user
  already had a row of the address and that row could not be read after the consumption
  (auth/src/lib.rs lines 747-751); an error of `Login` only when the access token could not be
  signed after the consumption. No error grants anything.
- Indexer: the cursor can move backwards (`CursorMovesBack`); nothing is lost when it does. A run
  that finds no cursor row asks for no logs at all and still writes the cursor; only a row without
  progress makes a run go back 500 blocks (`ReadCursorExactly`, `RunStores`).
- Rising prices: with 1 <= short < long the asset is held after every price but the first and the one
  that first fills the short window (`RisingMarketHeld`).
- Roles: every role in a cache or a token was held on the chain, in every run, exactly when a role
  contract is configured (`ProvenanceExactly`); without one every such role is Viewer
  (`ViewerWithoutContract`), held or not (`UnheldViewer`).
- Worker pool: the semaphore belongs to one call of the sync. While at most one call is busy the
  service keeps to `max_concurrency` (`AtMostMaxPerCall`). Overlapping calls have a run above it
  exactly when the wallets they can run at once, min(max, length) for each list, add up to more
  than max (`ExceedsMaxExactly`, `TwoCallsExceedMax`), and they can sync one wallet at the same
  time (`TwoCallsShareWallet`).
- Snapshots: a sync's read of the newest snapshot is safe exactly when every other sync of the
  wallet that is past its read took its timestamp at least the minimum interval ago
  (`ReadIsSafeExactly`). Runs of safe reads keep all snapshots of a wallet apart
  (`SafeRunsStayApart`), and runs in which no sync reads between the read and the insert of
  another keep them in order too (`AloneRunsStaySpaced`). The timer and the block listener can
  break this (`OverlapBreaksSpacing`).
- Daily rows: a write that settles its row leaves the day's newest snapshot there exactly when the
  row it replaces is not newer (`WriteIsRightExactly`). With safe reads alone the rows are right in
  every run exactly when the minimum interval is at least a day (`DailyRightExactly`);
  `OlderOverwrites` is the run for every shorter interval. With one sync of a wallet at a time, or
  when no row is written over a newer one, they are right for every interval (`SoloRunsKeepRows`,
  `OrderlyRunsKeepRows`).
- Oracle: only a recent error status lets an old quote be served (`OnlyErrorStatusMakesStale`).
- Alerts: `history_by_wallet` already returns the oldest snapshot first, and `run_once` reverses it
  against its own comment (alert.rs line 89). The model does what the code does, so it says nothing
  about the direction of a drop.

## Model

| member | source | states |
|---|---|---|
| MovingAverage.RunMovingAverage | backend/strategy_engine/src/lib.rs:44-68 | The sliding-window loop returns, for every point, its timestamp and the closed-form equity over the whole price list, for all window lengths and all prices of either sign, as long as no iteration divides by 0. |
| MovingAverage.HoldingExactly | backend/strategy_engine/src/lib.rs:44-61 | The position on the prices alone: with n = min(i + 1, long), held after price i exactly when n times the sum of the last short prices exceeds short times the sum of the last n, or, while n is below short, when n times price i exceeds that sum; windows of length 0 never hold. |
| MovingAverage.EquityFollows | backend/strategy_engine/src/lib.rs:62-68 | Equity starts at 1; while held it moves in proportion to the price, and otherwise not at all. |
| MovingAverage.RisingMarketHeld | backend/strategy_engine/src/lib.rs:44-61 | On strictly increasing prices the asset is held after price i exactly when both windows are non-empty, n is at least 2 and differs from short. |
| MovingAverage.RisingMarketFollowed | backend/strategy_engine/src/lib.rs:44-68 | So with 1 <= short < long the equity follows every price from the second step on, but for the step after the short window first fills. |
| MovingAverage.EquityIsTradeProduct | backend/strategy_engine/src/lib.rs:44-68 | Equity after any price is the product over the maximal holding runs of exit price over entry price. |
| MovingAverage.TradesAreMaximalRuns | backend/strategy_engine/src/lib.rs:49-61 | The trades in that product are exactly the stretches of holding that cannot be extended on either side. |
| MovingAverage.TradesOrdered | backend/strategy_engine/src/lib.rs:49-61 | Trades come in time order with a gap between one exit and the next entry. |
| MovingAverage.NeverHoldsUnitWindow | backend/strategy_engine/src/lib.rs:44-66 | With a long window of one price nothing is ever held, so reading the current price as the previous one does no harm. |
| MovingAverage.WindowSlides | backend/strategy_engine/src/lib.rs:45-48 | Pushing a price and dropping the oldest keeps the last min(i+1, long) prices. |
| MovingAverage.EquityPositive | backend/strategy_engine/src/lib.rs:62-68 | Positive prices give a positive equity curve. |
| MovingAverage.SuffixMeanAtMostMean | backend/strategy_engine/src/lib.rs:49-60 | The mean of a suffix of a non-increasing list is at most the mean of the list. |
| MovingAverage.FallingMarketNotHeld | backend/strategy_engine/src/lib.rs:49-61 | On a non-increasing price list the position is 0 at every point, for all windows. |
| MovingAverage.FallingMarketNeverBought | backend/strategy_engine/src/lib.rs:44-68 | On a non-increasing price list the whole equity curve is exactly 1. |
| MovingAverage.NoLookAhead | backend/strategy_engine/src/lib.rs:44-68 | Equity after a price is the same for any two price lists, of any sign, that agree up to it. |
| MovingAverage.HoldingIgnoresUnit | backend/strategy_engine/src/lib.rs:49-61 | Scaling all prices by the same positive factor changes no position. |
| MovingAverage.UnitIndependent | backend/strategy_engine/src/lib.rs:44-68 | Scaling all prices by the same positive factor leaves the equity curve unchanged. |
| Metrics.BuildMetrics | backend/strategy_engine/src/lib.rs:192-224 | For every curve: returns, total return and the deepest drop below a positive running peak are those of the curve, and only an empty curve has no metrics; on a positive curve that drop is the least change between any two points in time order. |
| Metrics.ReturnsExactly | backend/strategy_engine/src/lib.rs:199-210 | On any curve each positive value but the last has its return, in order, and there are no others. |
| Metrics.ChangeTimes | backend/strategy_engine/src/lib.rs:199-213 | A change times the value it starts from is the difference. |
| Metrics.DrawdownStep | backend/strategy_engine/src/lib.rs:215-224 | One more value can deepen the drawdown only by its own drop below the running peak. |
| Metrics.PeakDrawdownIsMax | backend/strategy_engine/src/lib.rs:215-224 | On a positive curve the one-pass drop below the running peak equals the quadratic minimum over all pairs in time order. |
| Metrics.DrawdownBounds | backend/strategy_engine/src/lib.rs:211-224 | The drawdown lies in (-1, 0] and is never above the total return. |
| Metrics.ReturnsCompound | backend/strategy_engine/src/lib.rs:199-213 | The product of 1 + r over all returns is 1 + the total return. |
| Backtest.BacktestMa | backend/strategy_engine/src/lib.rs:33-85 | The backtest as a whole: closed-form curve, final equity equal to 1 + total return; from positive prices also drawdown in (-1, 0] and at most the total return, and returns that compound to the total return. |
| Correlation.CauchySchwarzStep | backend/strategy_engine/src/lib.rs:178-184 | One more pair of deviations keeps num^2 <= den_x * den_y. |
| Correlation.CauchySchwarz | backend/strategy_engine/src/lib.rs:175-184 | The accumulated sums satisfy num^2 <= den_x * den_y for all series of equal length. |
| Correlation.Pearson | backend/strategy_engine/src/lib.rs:170-190 | The coefficient never leaves [-1, 1], for any square root function. |
| Correlation.PearsonFromSums | backend/strategy_engine/src/lib.rs:170-190 | With c = n*Sxy - Sx*Sy and the same number for x and for y, the coefficient is 0 where a series does not vary, and otherwise has the sign of c and the square c^2 / (vx*vy), for any square root function. |
| Correlation.CrossSumFromSums | backend/strategy_engine/src/lib.rs:175-184 | The accumulated sum of products of deviations from the means is an n-th of n*Sxy - Sx*Sy. |
| Correlation.PearsonSymmetric | backend/strategy_engine/src/lib.rs:170-190 | Swapping the two series does not change the coefficient. |
| Correlation.PearsonOfItself | backend/strategy_engine/src/lib.rs:170-190 | A series that varies has coefficient 1 with itself. |
| Correlation.Correlate | backend/strategy_engine/src/lib.rs:170-190 | The accumulating loop computes that coefficient. |
| Correlation.BacktestCorrelation | backend/strategy_engine/src/lib.rs:135-168 | For every lag and price list the two slices have equal length, the result is the coefficient of the list with itself shifted by the lag, and the flat curve has zero return and drawdown. |
| AuthNonces.AnswersAtMostIssues | backend/auth/src/lib.rs:333-387 | Over every interleaving of any number of logins and links, a nonce leads to no more Ok answers than times it was issued. |
| AuthNonces.NonceSpentOnce | backend/auth/src/lib.rs:550-591 | With nonces that never repeat, each nonce leads to at most one Ok answer of login or link; it was issued, consumed exactly once, and is free no more. |
| AuthExpiry.GrantsWereChecked | backend/auth/src/lib.rs:346-372 | Over every interleaving each Ok answer of a login or link goes back to a check of a signed request at which its nonce was unconsumed and at most 300 seconds past its last issue before that check. |
| AuthExpiry.ExpiryIsLastIssue | backend/auth/src/lib.rs:541-548 | In every reachable state a nonce expires 300 seconds after its last issue, consumed or not. |
| AuthExpiry.StepHolds | backend/auth/src/lib.rs:550-569 | In every step a caller holds a nonce only if it held it before or has just passed its check. |
| AuthLineages.LineagesMapToNonces | backend/auth/src/lib.rs:550-591 | Delivered login lineages map injectively to consumed nonces: distinct deliveries have distinct lineages and distinct nonces, each issued and used exactly once. |
| AuthLineages.LineageGrantedOnce | backend/auth/src/lib.rs:443-464 | Every delivered login stands for a session that started its lineage, and no two deliveries share one, over all interleavings. |
| AuthLineages.StepKeepsLineages | backend/auth/src/lib.rs:550-591 | Every step keeps it that a login session on its way or granted starts a lineage and is carried or granted only once. |
| AuthNonces.StepKeepsNonceInv | backend/auth/src/lib.rs:732-791 | Every step of every caller keeps the balance of issued, free, consumed and answered nonces. |
| AuthNonces.ReissueRevives | backend/auth/src/lib.rs:333-344 | Issuing a consumed nonce again makes it valid and free again. |
| AuthReuse.BoundIsTight | backend/auth/src/lib.rs:333-387 | For every k there is a run from the empty tables that issues one nonce k times and answers Ok for it k times. |
| AuthReuse.LateAnswer | backend/auth/src/lib.rs:374-387 | For any delay there is a run with one issue of a nonce and an Ok answer for it that much later, because the consumption does not look at the expiry. |
| AuthFrames.LocalStep | backend/auth/src/lib.rs:234-282 | Checks, lookups, wallet inserts and role stores move only their caller, keep every wallet row's owner and address, and bring no caller to its answer. |
| AuthGrowth.StepGrows | backend/auth/src/lib.rs:443-498 | Every step of every caller lets time pass, only adds to the logs, and keeps the identity of every session and wallet row. |
| AuthGrowth.OthersStay | backend/auth/src/lib.rs:550-591 | The steps of others never move a caller. |
| AuthSessions.RollingSessions | backend/auth/src/lib.rs:617-690 | In every reachable state each lineage has at most one unrevoked session, with its first user and wallet, and no refresh token succeeded twice. |
| AuthSessions.RefreshSwapsOne | backend/auth/src/lib.rs:617-690 | A successful refresh replaces one live session by another of the same lineage, so their number stays the same; the old one is revoked now and the new one expires one life time from now. |
| AuthSessions.NeverValidAgain | backend/auth/src/lib.rs:466-489 | A session that is revoked or past its expiry is so in every later state, whatever happens. |
| AuthSessions.SessionsDie | backend/auth/src/lib.rs:443-464 | In every run a session that exists is expired once more than the life time of refresh tokens has passed. |
| AuthSessions.RotateExactly | backend/auth/src/lib.rs:617-690 | A rotation changes the tables exactly when the session is the token's, unrevoked and not past its expiry, and the new id and hash are unused. |
| AuthWallets.OneWalletPerNetwork | backend/migrations/0001_init.sql:8-15 | In every reachable state an address has at most one wallet row on each network. |
| AuthSessions.StepKeepsSessionInv | backend/auth/src/lib.rs:443-498 | Every step keeps the session invariant, and sessions never vanish, change hands or come back from revocation. |
| AuthSessions.RunKeepsSessionInv | backend/auth/src/lib.rs:443-498 | The same along any run, with time never running backwards. |
| AuthSessions.RevokeKeeps | backend/api/src/repositories/session_repository.rs:78-86 | Revoking a session keeps the invariant of all lineages and only ages the table. |
| AuthRoles.RolesHaveProvenance | backend/auth/src/lib.rs:234-282 | With a role contract and empty caches, every role in a token, and every number in a cache read as 1 = Admin, 2 = Viewer and none otherwise, was held on the chain under the same numbers by its address at that moment or earlier, over all interleavings with role changes. |
| AuthRoles.StepKeepsRoleInv | backend/auth/src/lib.rs:560-569 | Every step keeps the provenance of rows, tokens and roles on their way through a caller, or, without a contract, keeps them all Viewer. |
| AuthRoles.StoreRoleOk | backend/auth/src/lib.rs:271-282 | Stamping a held role into every row of its address keeps all rows good. |
| AuthRoles.ViewerWithoutContract | backend/auth/src/lib.rs:221-232 | Without a role contract, in every reachable state every cached role and every role in a token is Viewer. |
| AuthRoles.UnheldViewer | backend/auth/src/lib.rs:221-232 | Without a role contract a first login goes through to a token whose role its address never held. |
| AuthRoles.ProvenanceExactly | backend/auth/src/lib.rs:221-244 | All roles have provenance in every run exactly when a role contract is configured. |
| AuthService.Service.constructor | backend/auth/src/lib.rs:127-149 | A new service has empty tables, the initial protocol state. |
| AuthService.Service.DoIssueNonce | backend/auth/src/lib.rs:541-548 | Issuing sets the row of the nonce to unconsumed with an expiry 300 seconds from now, as the protocol's step does. |
| AuthService.Service.EnsureNonceValid | backend/auth/src/lib.rs:346-372 | NonceNotFound without a row, NonceExpired for a consumed row or one past its expiry, and no error exactly for an unconsumed row not past its expiry. |
| AuthService.Service.DoConsume | backend/auth/src/lib.rs:374-387 | When the conditional update runs it succeeds exactly on an unconsumed row, which is then consumed now; when it fails to run it answers Internal. Any error leaves the nonce table as it was and nothing spent by this caller. |
| AuthService.Service.EnsureSessionActive | backend/auth/src/lib.rs:466-489 | A session validates exactly when it exists, is not revoked and has not expired. |
| AuthService.Service.DoLogout | backend/auth/src/lib.rs:613-615 | After logout the session is revoked now, and no other session changes; the rest of the protocol state follows the logout step. |
| AuthService.Service.DoAdminRevoke | backend/api/src/repositories/session_repository.rs:78-86 | An admin's revocation reports a change exactly when the session existed and was unrevoked, and leaves it inactive. |
| AuthService.Service.DoCreateSession | backend/auth/src/lib.rs:443-464 | A session is stored exactly when its id and token hash are new, with its user, wallet, expiry and hash. |
| AuthService.Service.ResolveRole | backend/auth/src/lib.rs:234-244 | Among any steps of others, the role was seen during the call: fresh in a cache row of the address, or on the chain when it was asked. |
| AuthService.Service.FetchRole | backend/auth/src/lib.rs:221-244 | The role is the chain's when it was asked, or Viewer without a contract, and is stored before the caller goes on. |
| AuthService.Service.Others | backend/auth/src/lib.rs:550-591 | Any number of steps of other callers, logouts, revocations, role changes and time leave the tables a reachable state and the caller where it was. |
| AuthService.Service.ConsumeAndAnswer | backend/auth/src/lib.rs:374-387 | The caller answers Ok only after it consumed the nonce while it was free, with others running in between; on an error it did not answer, and it spent the nonce only in a login whose token could not be signed after the consumption. |
| AuthService.Service.UpsertUserWallet | backend/auth/src/lib.rs:389-441 | The ids returned belong to a wallet row of the address with that user, among steps of others, and no user is created when the address had a row at the start. |
| AuthService.Service.Login | backend/auth/src/lib.rs:550-591 | Among any steps of others: Ok means that the signature matched, that at some moment of the call the nonce was unconsumed and not past its expiry, that the caller consumed its nonce while it was free and answered exactly once with one grant and one token, that the role was seen for its address during the call, in a fresh cache row or on the chain, and that a session new since the start carries the new token for the user and wallet of the address; an error answers nothing, and it is Internal whenever the nonce was spent. |
| AuthService.Service.LinkWalletToUser | backend/auth/src/lib.rs:732-791 | Among any steps of others: Ok means that the signature matched, that at some moment of the call the nonce was unconsumed and not past its expiry, that the caller consumed its nonce while it was free and answered exactly once, that the user owns a row of the address, and that the row returned is one of the address; WalletAlreadyLinked means that another user has a row of the address; an error answers nothing, and it spent the nonce only if it is Internal and the owner lookup of this call found a row of that user, after which only the second read of the row can fail. |
| AuthService.Service.LinkAgain | backend/auth/src/lib.rs:743-752 | Linking an address the user owns: Ok comes after the consumption and returns a row of the address; an error answers nothing and spent the nonce only if it is Internal, because the row could not be read again. |
| AuthService.Service.RotateTokens | backend/auth/src/lib.rs:617-690 | The locked transaction revokes the live session of the token and inserts its successor, or changes nothing; unless it fails to begin, insert or commit, it refuses the token as invalid exactly when no session of it is live. |
| AuthService.Service.RefreshSession | backend/auth/src/lib.rs:617-730 | Among any steps of others: Ok means that the token's session is revoked, that a session new since the start carries the new token for its user and wallet, and that the newest access token has, for that wallet's address, the role in the answer, which was seen during the call in a fresh cache row or on the chain; an invalid token rotates nothing, and no refresh spends a nonce or answers a login. |
| AuthService.Service.NoncesHonoured | backend/auth/src/lib.rs:550-591 | The nonce theorem holds of the tables this class leaves behind. |
| AuthService.Service.SessionsHonoured | backend/auth/src/lib.rs:617-690 | So do one live session per lineage, unique hashes and single use of refresh tokens. |
| AuthService.Service.LineagesHonoured | backend/auth/src/lib.rs:550-591 | So does one delivery per lineage. |
| AuthService.Service.RolesHonoured | backend/auth/src/lib.rs:234-282 | So does, with a role contract, the provenance of every cached role and token. |
| Siwe.Parse | backend/auth/src/lib.rs:831-924 | The line-consuming parser computes the functional parse of the message's lines, whose acceptance and values `AcceptsExactly` gives. |
| SiweAccepts.AcceptsExactly | backend/auth/src/lib.rs:831-924 | Over all lines the parser returns a message exactly when they read as it: the fixed header ending, an address, a blank or absent third line, the visible lines up to the next blank one as the statement, and then, each from the last line that sets it, URI, version 1, a 64-bit chain id, nonce and time. Everything else is refused. |
| SiweAccepts.FieldMapExactly | backend/auth/src/lib.rs:876-888 | A key has a value exactly when the last line with that key before its first colon has that value after it, both trimmed. |
| SiweAccepts.TrimCuts | backend/auth/src/lib.rs:835-841 | Trimming cuts white space off both ends and leaves none there. |
| Text.LinesExactly | backend/auth/src/lib.rs:831-834 | The lines of any text: what stands before a line feed less one carriage return, then the lines of the rest; a last line without one counts unless it is empty. |
| Text.ParseU64Exactly | backend/auth/src/lib.rs:894-898 | A text reads as the number n exactly when it is its decimal numeral with zeros and one plus sign allowed in front, and n is below 2^64. |
| SiweAccepts.LoginPageFields | frontend/app/login/page.tsx:92-96 | The field lines of the login page, as text. |
| Siwe.ReadStatement | backend/auth/src/lib.rs:849-874 | Reading stops at the first blank line and yields the statement, or none if it is blank. |
| Siwe.ReadFields | backend/auth/src/lib.rs:876-888 | Each line with a colon sets its trimmed key; later lines win and blank lines are skipped. |
| Siwe.PrintedLines | frontend/app/login/page.tsx:87-96 | The printed text splits into exactly the header, address, statement and field lines. |
| Siwe.ArrangedLookup | backend/auth/src/lib.rs:876-888 | For any order of the field lines, with other lines among them, each known key finds its own value, though values contain colons. |
| Siwe.ParsePrint | backend/auth/src/lib.rs:831-924 | Parsing a printed message gives back every field, with an absent, one-line or many-line statement, whatever the order of its field lines. |
| Siwe.LoginPageMessage | frontend/app/login/page.tsx:87-96 | The message of the login page reads back as what was put into it. |
| Text.LinesOfJoin | backend/auth/src/lib.rs:831-834 | Splitting lines that were joined by line feeds gives the lines back. |
| Text.U64RoundTrip | backend/auth/src/lib.rs:894-898 | A 64-bit number written in decimal reads back as itself. |
| Indexer.NoGapNoDuplicate | backend/api/src/services/portfolio.rs:684-812 | Over every interleaving of runs, failures and lost cursor writes, once the cursor is positive every log of a configured token from or to the wallet, from the highest bootstrap start up to the cursor, is in the table exactly once, every row is on the chain, and no two rows share hash and index. |
| Indexer.StepKeepsInv | backend/api/src/services/portfolio.rs:684-812 | Every step of every run keeps that invariant and only adds rows. |
| Indexer.ReachableInv | backend/api/src/services/portfolio.rs:684-812 | Every reachable state satisfies the invariant. |
| Indexer.InsertAllFacts | backend/api/src/repositories/transaction_repository.rs:36-67 | The conflict-ignoring insert keeps old rows first, adds only given logs, leaves no given key out and never duplicates a key. |
| Indexer.FetchLogsExact | backend/api/src/services/portfolio.rs:814-841 | The query answers with exactly the tracked logs of its block range that name the wallet on the asked side. |
| Indexer.InsertCovers | backend/api/src/services/portfolio.rs:760-805 | Inserting the answers to both queries covers every matching log of their blocks. |
| Indexer.BootstrapSettles | backend/api/src/services/portfolio.rs:690-702 | Once the cursor is positive it stays so, and the lower end of the covered range never moves again. |
| Indexer.ExecuteGrows | backend/api/src/repositories/transaction_repository.rs:36-67 | Along any run rows are never lost and the bootstrap start never falls. |
| Indexer.CursorMovesBack | backend/api/src/repositories/transaction_repository.rs:77-92 | From an empty table, for any tokens and any two heads, a run of two overlapping syncs that leaves the cursor at the higher and then at the lower head. |
| Indexer.ReadCursorExactly | backend/api/src/services/portfolio.rs:690-716 | A run that finds no cursor row, one at its head or beyond, or no configured token asks for nothing; at a positive cursor v it asks from v + 1, and at a row without progress from 500 blocks below its head. |
| Indexer.RunStores | backend/api/src/services/portfolio.rs:684-812 | In every interleaving a run that got from its cursor read to its cursor write has every matching log from that first block up to its head in the table. |
| IndexerService.Service.SyncTransactions | backend/api/src/services/portfolio.rs:684-812 | One run, failing anywhere, among any steps of other runs and new blocks, keeps the invariant. Success means that everything from the bootstrap start up to its head is in the table, and by itself: after reading a row without progress every matching log of the last 500 blocks below its head and of the head, after reading a positive cursor every one after it; a run that read no row, or one at its head, asked for nothing. |
| IndexerService.Service.Others | backend/api/src/services/portfolio.rs:560-589 | Any number of steps of other runs and of the chain leave the tables a reachable state and the run where it was. |
| IndexerService.Service.Store | backend/api/src/services/portfolio.rs:757-806 | The rows of the found logs are inserted as the protocol's insert, or the run ends and nothing changes. |
| IndexerService.Service.Finish | backend/api/src/services/portfolio.rs:806-811 | When a run writes its cursor, everything from the bootstrap start up to its head is in the table, even if the write is lost. |
| IndexerService.Service.InsertTransactions | backend/api/src/repositories/transaction_repository.rs:36-67 | The transaction inserts all new rows in order or none. |
| IndexerService.Service.BuildRows | backend/api/src/services/portfolio.rs:760-805 | Each log becomes one row with its own hash, index, block, token, amount, sender and receiver, incoming exactly when it names the wallet as receiver. |
| IndexerService.Service.UpdateLastTxBlock | backend/api/src/repositories/transaction_repository.rs:77-92 | The cursor is overwritten, or the write is lost and nothing changes. |
| IndexerService.Service.UpdateLastDailySnapshot | backend/api/src/repositories/transaction_repository.rs:94-114 | The daily marker creates the cursor row with block 0 when it is missing and never moves an existing cursor. |
| IndexerService.Service.ChooseStart | backend/api/src/services/portfolio.rs:690-702 | Without a cursor row the start lies after the head, at a positive cursor after it, at a row without progress 500 blocks below the head or at 0; queries follow exactly if the start is not above the head and tokens are configured. |
| IndexerService.Service.FetchOutgoing | backend/api/src/services/portfolio.rs:723-733 | The query answers with exactly the configured tokens' logs from the start block to the head that name the wallet as sender. |
| Ledger.LedgerReconciles | contracts/contracts/MockERC20.sol:14-29 | For any run of the token contract and of the indexer, incoming minus outgoing rows of covered blocks equal the change of balanceOf plus what the wallet sent to itself, and equal the change alone exactly when that is zero. |
| LedgerExample.LedgerDiffers | contracts/contracts/MockERC20.sol:23-29 | A run of the token and the indexer with a transfer of 5 to itself: over its block the ledger says 5 and balanceOf is 10 before and after. |
| Ledger.RowsAreChainRows | backend/api/src/services/portfolio.rs:760-810 | The rows of a covered range have the same net as the rows the chain calls for. |
| Ledger.NetIgnoresOrder | backend/api/src/services/portfolio.rs:760-810 | Duplicate-free lists of the same rows have the same net, in whatever order they were ingested. |
| Ledger.ChainNet | contracts/contracts/MockERC20.sol:23-29 | The net of the chain's rows is received minus spent plus self-sent over the range. |
| Token.TransferConserves | contracts/contracts/MockERC20.sol:23-29 | One call keeps the sum of all balances, self-transfers included, and its credit never overflows. |
| Token.SupplyConserved | contracts/contracts/MockERC20.sol:14-29 | After any calls all balances add up to the total supply. |
| Token.RefusedOnlyForBalance | contracts/contracts/MockERC20.sol:24-27 | After any run a transfer is refused exactly when the sender's balance is too small. |
| Token.BalanceFromLog | contracts/contracts/MockERC20.sol:20-27 | Each balance is what the event log says was received minus what was spent. |
| Token.Contract.DoTransfer | contracts/contracts/MockERC20.sol:23-29 | A transfer succeeds exactly when the balance covers it and the credit fits; then it moves the amount, changes nothing for a transfer to oneself and nobody else's balance, and logs it; a revert changes nothing. |
| Token.Contract.constructor | contracts/contracts/MockERC20.sol:14-21 | The deployer starts with the whole supply and one mint event. |
| RoleManager.Provenance | contracts/contracts/RoleManager.sol:17-57 | Every Admin and every non-zero owner is linked to the deployer by a finite chain of grants, each made by someone with authority at that time. |
| RoleManager.ZeroHasNoRole | contracts/contracts/RoleManager.sol:37-57 | The zero address never holds a role. |
| RoleManager.LogRebuildsState | contracts/contracts/RoleManager.sol:14-57 | Folding the emitted events rebuilds the owner and every role. |
| RoleManager.LastCallDecides | contracts/contracts/RoleManager.sol:37-57 | After any calls an account has the role given by the last successful call that names it, or the deployment's if there is none. |
| RoleManager.LastTransferDecides | contracts/contracts/RoleManager.sol:37-50 | The owner is the one installed by the last successful transfer or renunciation, or the deployer. |
| RoleManager.PreviousRoleTold | contracts/contracts/RoleManager.sol:37-57 | A call's events name true previous roles exactly unless it transfers ownership to someone who had a role. |
| RoleManager.PreviousRoleWrong | contracts/contracts/RoleManager.sol:43 | A run whose event names a wrong previous role. |
| RoleManager.RenouncedForever | contracts/contracts/RoleManager.sol:46-50 | After ownership is renounced the owner is zero for ever. |
| RoleManager.FrozenForever | contracts/contracts/RoleManager.sol:24-57 | If no account but the zero address is owner or Admin, no call ever changes anything. |
| RoleManager.NotFrozen | contracts/contracts/RoleManager.sol:29-57 | While some other account is owner or Admin, it can change the state. |
| RoleManager.FrozenExactly | contracts/contracts/RoleManager.sol:24-57 | A state never changes again exactly when no account but the zero address is owner or Admin. |
| RoleManager.RenouncedThenFrozen | contracts/contracts/RoleManager.sol:46-57 | After any run that ends with a renounced ownership, someone is still in charge exactly when an Admin remains. |
| RoleManager.Contract.DoTransferOwnership | contracts/contracts/RoleManager.sol:37-44 | The call succeeds exactly for the owner and a non-zero successor, who then is owner and Admin while everyone else keeps their role, with both events; otherwise nothing changes. |
| RoleManager.Contract.DoRenounceOwnership | contracts/contracts/RoleManager.sol:46-50 | The call succeeds exactly for the owner, clears the owner and keeps every role, with its event; otherwise nothing changes. |
| RoleManager.Contract.DoSetRole | contracts/contracts/RoleManager.sol:52-57 | The call succeeds exactly for an owner or Admin and a non-zero user; then the user has that role, everyone else and the owner stay as they were, and the event tells the old and the new role; otherwise nothing changes. |
| RoleManager.Contract.constructor | contracts/contracts/RoleManager.sol:17-22 | The deployer starts as owner and Admin, with both events. |
| Spacing.RateBound | backend/api/src/nonce_limiter.rs:49-61 | Events at least a gap apart number at most floor(L / gap) + 1 in any interval of length L; used by all three throttles. |
| Spacing.WithinSpaced | backend/api/src/nonce_limiter.rs:49-61 | The events counted by the bound are exactly those in the closed interval, and they keep their spacing. |
| NonceLimiter.Limiter.TryAccept | backend/api/src/nonce_limiter.rs:49-61 | A check passes exactly when no accepted check of the address lies within the window, and only then leaves its time. |
| NonceLimiter.AcceptedSpaced | backend/api/src/nonce_limiter.rs:49-61 | Over any run the accepted checks of an address are at least a window apart, and the table holds exactly their last times. |
| NonceLimiter.AcceptedApart | backend/api/src/nonce_limiter.rs:49-61 | Any two accepted checks of an address are a window or more apart. |
| NonceLimiter.AcceptedRate | backend/api/src/nonce_limiter.rs:49-61 | An address passes at most floor(L / window) + 1 times in any interval of length L. |
| NonceLimiter.RejectedChecksDoNotMatter | backend/api/src/nonce_limiter.rs:49-61 | Without its rejected checks a run decides the same. |
| NonceLimiter.RejectedOnlyByAccepted | backend/api/src/nonce_limiter.rs:49-61 | A check passes exactly when every accepted check of its address is a window or more ago. |
| Alerts.LastIsNewest | backend/api/src/repositories/alert_repository.rs:165-184 | With times in order the newest trigger of a rule and wallet is the last one inserted. |
| Alerts.LastBounds | backend/api/src/repositories/alert_repository.rs:165-184 | The newest time belongs to a trigger of the rule and wallet, and none of theirs is later. |
| Alerts.SpacingKept | backend/api/src/services/alert.rs:182-201 | A trigger inserted after the cooldown keeps all triggers of every rule and wallet spaced. |
| Alerts.DemandsExactly | backend/api/src/services/alert.rs:78-166 | When a rule asks for an alert, without percentages: it is enabled, the wallet has two snapshots, and on the compared pair 100 times the drop, the last position of some symbol or the outflow reaches the threshold times the whole, the approvals reach it, or the total is at most it. |
| Alerts.Evaluator.TriggersApart | backend/api/src/services/alert.rs:182-201 | Whatever the passes, two triggers of a rule on a wallet are in time order and at least the rule's cooldown apart. |
| Alerts.Evaluator.TriggerRate | backend/api/src/services/alert.rs:182-201 | Whatever passes the evaluator has run, a rule with a cooldown triggers on a wallet at most floor(L / cooldown) + 1 times in any interval of length L. |
| Alerts.Evaluator.InsertTrigger | backend/api/src/repositories/alert_repository.rs:122-134 | A row with the current time is appended, or the statement fails and nothing changes. |
| Alerts.Evaluator.Fire | backend/api/src/services/alert.rs:182-201 | At most one trigger is added, never inside the cooldown, and success means that the rule was raised for the wallet or still cools down. |
| Alerts.Evaluator.FireExposure | backend/api/src/services/alert.rs:123-132 | The symbol loop keeps the spacing however many symbols exceed the threshold, and adds nothing when none does. |
| Alerts.Evaluator.EvaluateRule | backend/api/src/services/alert.rs:111-166 | A trigger is added only if the rule's condition holds, and success with the condition means that it was raised. |
| Alerts.Evaluator.RunOnce | backend/api/src/services/alert.rs:78-170 | Every trigger of a pass was demanded by some rule on some wallet, a successful pass raised every demand, and spacing holds throughout. |
| Alerts.ComputeExposure | backend/api/src/services/alert.rs:230-243 | A symbol has a share exactly when some position has it and the total is positive, and it is the share of its last position. |
| Oracle.Stack.PriceUsd | backend/api/src/services/portfolio.rs:475-499 | Among any other callers, an Ok price is positive, really comes from a quote, an old quote after an error status or the fixed table after a failed lookup, and its origin was good at most the slack and the cache time before the caller asked; an error needs a failed lookup and a non-positive fixed price. |
| Oracle.Stack.ServePrice | backend/api/src/services/portfolio.rs:475-499 | A cache row that can be read, is positive and expires after the time of asking is served as it is and nothing is looked up; any other Ok price is stored with its expiry unless that store fails. |
| Oracle.Stack.OnlyErrorStatusMakesStale | backend/api/src/services/portfolio.rs:215-250 | Without an error status for the cache time and slack, a served price is a quote less than ttl + max(ttl, 10) + slack old, or the fixed price. |
| Oracle.Stack.NoRecentFailureMeansRecentQuote | backend/api/src/services/portfolio.rs:194-250 | If in that time every lookup also gave a positive price, a served price is such a recent quote. |
| Oracle.Stack.CacheHoldsQuotes | backend/api/src/repositories/price_cache_repository.rs:42-66 | Cached rows are positive, and without failures they are quotes that expire in time. |
| Oracle.Stack.CoingeckoPrice | backend/api/src/services/portfolio.rs:215-250 | A fresh memory entry is served without a request; a request's price is stored and served; an error status serves the old entry if there is one and is put on record; any other reply is an error. |
| Oracle.Stack.FallbackPrice | backend/api/src/services/portfolio.rs:321-382 | A positive primary price is passed on; otherwise the fixed price is served if it is positive, and an error means that the lookup failed and the fixed price is not positive. |
| Oracle.Stack.RecordedPrice | backend/api/src/services/portfolio.rs:416-449 | After the recording an Ok price may still be stored: positive, with its origin, and obtained at most the slack ago. |
| Oracle.Stack.UpsertPrice | backend/api/src/repositories/price_cache_repository.rs:42-66 | Only positive prices with their origin are stored, expiring after the cache time. |
| Oracle.FixedPricesPositive | backend/api/src/services/portfolio.rs:64-95 | A configured price is kept; else the fixed price is 3000 for ETH, 600 for BNB and 1 for all others; so with positive configured prices no lookup of the stack ends in an error. |
| SyncDriver.Driver.SyncWallet | backend/api/src/services/portfolio.rs:862-1063 | One attempt stores at most one snapshot, stamped during the attempt and never within the minimum interval; an error stores none, a skip means that a recent one exists, and unless the daily upsert failed the day's row has the stored value. |
| SyncDriver.Driver.SyncWalletWithRetry | backend/api/src/services/portfolio.rs:644-662 | At most max(1, retries) attempts, all but the last of them errors, with the last one's answer; pauses of backoff*k*(k-1)/2 in total after k of them, at most one snapshot, and an error only after the last attempt and without a snapshot. |
| SyncDriver.Driver.InsertSnapshot | backend/api/src/repositories/portfolio_repository.rs:50-63 | Storing a due snapshot keeps every wallet's snapshots spaced. |
| SyncDriver.Driver.UpsertDaily | backend/api/src/repositories/portfolio_repository.rs:175-198 | The daily row takes the value of that day's last snapshot, and no other row changes. |
| SyncDriver.Driver.DailyIsLast | backend/api/src/services/portfolio.rs:1030-1040 | If the last daily upsert of a wallet and day arrived, the row equals the snapshot stored last on that day. |
| SyncDriver.Driver.SnapshotRate | backend/api/src/services/portfolio.rs:869-880 | A wallet has at most floor(L / interval) + 1 snapshots in any interval of length L. |
| SyncDriver.Driver.SnapshotsApart | backend/api/src/services/portfolio.rs:869-880 | Any two snapshots of a wallet are in time order and at least the minimum interval apart. |
| SyncDriver.LatestIsLast | backend/api/src/repositories/portfolio_repository.rs:65-87 | The newest snapshot by time is the one stored last while they are spaced. |
| SnapshotRace.LatestIsNewest | backend/api/src/repositories/portfolio_repository.rs:65-87 | In any table the snapshot read as the newest is one of the wallet, and none of the wallet is later. |
| SyncDriver.InsertKeeps | backend/api/src/services/portfolio.rs:869-880 | Inserting a due snapshot keeps the spacing of its wallet and the tables of all others. |
| SnapshotRace.ReadIsSafeExactly | backend/api/src/services/portfolio.rs:869-880 | Whatever other syncs of the wallet are under way, a read is safe exactly when nothing that can follow it, with safe reads only, puts two snapshots of the wallet closer than the interval; safe means that every other sync that has read and not yet stored has a timestamp an interval old. |
| SnapshotRace.SafeRunsStayApart | backend/api/src/services/portfolio.rs:869-880 | For any number of tasks per wallet, runs of safe reads keep all snapshots of a wallet the interval apart. |
| SnapshotRace.AloneRunsStaySpaced | backend/api/src/services/portfolio.rs:869-880 | Runs in which no task of a wallet reads between the read and the insert of another keep its snapshots in order and spaced. |
| SnapshotRace.StepKeepsInv | backend/api/src/services/portfolio.rs:869-1030 | Every step with a safe read keeps stored and pending snapshots apart and every open task aware of what it may have missed. |
| SnapshotRace.TwoOpenTasksBreak | backend/api/src/services/portfolio.rs:869-1030 | From any state with two tasks of a wallet past their reads, for any positive interval, a continuation stores two snapshots too close. |
| SnapshotRace.OverlapBreaksSpacing | backend/api/src/services/portfolio.rs:560-589 | A run from the empty table, for any positive interval, in which two overlapping syncs store snapshots too close. |
| DailyRows.DailyRightExactly | backend/api/src/services/portfolio.rs:1030-1040 | In every run of safe reads every settled daily row holds the newest snapshot of its wallet and day, if and only if the minimum interval is at least a day. |
| DailyRows.WriteIsRightExactly | backend/api/src/repositories/portfolio_repository.rs:175-198 | A daily upsert that is the last one pending for its row leaves the day's newest snapshot there exactly when the row it writes over is not newer than its own snapshot. |
| DailyRows.OrderlyRunsKeepRows | backend/api/src/services/portfolio.rs:1030-1040 | For any interval every settled row is right in runs of safe reads in which no row is written over a newer one. |
| DailyRows.SoloRunsKeepRows | backend/api/src/services/portfolio.rs:869-1040 | For any interval every settled row is right in runs in which a sync reads only while every other sync of its wallet has yet to read. |
| DailyRows.OlderOverwrites | backend/api/src/services/portfolio.rs:1030-1040 | For every interval shorter than a day a run of safe reads, from the empty table, that leaves an older snapshot in a settled daily row. |
| DailyRows.StepKeepsDaily | backend/api/src/services/portfolio.rs:1030-1040 | Every step that writes no row over a newer one keeps each row a stored snapshot of its day, at least as new as every snapshot whose own write is done. |
| WorkerPool.AtMostMaxPerCall | backend/api/src/services/portfolio.rs:604-616 | At any time one call runs at most max syncs, and the service at most max for each call with a task running, hence at most max while one call is busy. |
| WorkerPool.TwoCallsExceedMax | backend/api/src/services/portfolio.rs:560-589 | For any max and any two wallet lists, two calls have a run above max exactly when min(max, |v|) + min(max, |w|) exceeds max. |
| WorkerPool.ExceedsMaxExactly | backend/api/src/services/portfolio.rs:591-616 | For any number of calls, some run exceeds max exactly when what their lists can run at once adds up to more. |
| WorkerPool.BusiestRun | backend/api/src/services/portfolio.rs:607-616 | There is a run in which every call has all the tasks it can hold running at once. |
| WorkerPool.TwoCallsShareWallet | backend/api/src/services/portfolio.rs:560-589 | Two calls have a run in which both sync one wallet at the same time. |
| WorkerPool.StepKeepsInv | backend/api/src/services/portfolio.rs:604-642 | Every step conserves permits, and each spawned task runs or has one result. |
| WorkerPool.FinishedLogsAll | backend/api/src/services/portfolio.rs:617-641 | A finished call has logged every wallet once, in order, with the outcome of its own task, and has all its permits back. |
| WorkerPool.NeverStuck | backend/api/src/services/portfolio.rs:555-642 | With at least one permit an unfinished call can always go on. |

## Left out

- Floating-point rounding and NaN propagation, and what needs `sqrt`, `sin` or `powf`: volatility, Sharpe ratio, annualised growth, `backtest_volatility`, simulated assets. The square root in the correlation is a parameter.
- MovingAverage.RunMovingAverage: leaves out price lists on which an iteration divides by 0, where the program goes on with infinities or NaN.
- Backtest.BacktestMa: leaves out the same price lists.
- Cryptography, JWT encoding and leeway, hash functions, hexadecimal and time texts: signatures are a flag of the request, hashing is injective. A token that cannot be signed is a failing step.
- AuthService.Service.ResolveRole: promises no bound on the age of a cached role, because `login` and `refresh_session` stamp it again without asking the chain.
- AuthService.Service.Login: says nothing of sessions left by callers that lose the race for a nonce; the program stores the session before it consumes the nonce, and only delivered answers are counted.
- AuthService.Service.RefreshSession: an error after the transaction leaves the rotated session in place, as the program does; the client then holds neither token.
- AuthService.Service.LinkWalletToUser: promises the address of the row returned and not its user, because the second read takes any row of the address (auth/src/lib.rs lines 748-750); the statement that fills an empty `primary_wallet` is not modelled.
- Statements that report an error are taken to have left their rows as they were.
- Deletion of wallets (backend/api/src/repositories/wallet_repository.rs line 94), with the sessions, rows and cursors the schema removes along with them: in the model wallets and sessions are never removed.
- The `users` table, `validate_siwe_context`, and forced role refreshes in method form (they are protocol steps).
- Siwe.ParsePrint: an absent statement is printed without a line, as the ABNF of EIP-4361 has it, which leaves two blank lines.
- Indexer.NoGapNoDuplicate: assumes an append-only chain, heads that are at least 1 and already mined, a fixed token set, and one hash and index per log. Chain reorganisations are not modelled.
- IndexerService.Service.SyncTransactions: block timestamps, US dollar values and row ids are not modelled, and failures to look them up are ignored there as in the program; a failing decimal conversion is a run that ends early.
- IndexerService.Service.BuildRows: takes logs of configured tokens, which is what the query returns; the skip of other tokens is kept in the loop.
- Ledger.LedgerReconciles: raw integer amounts only; the decimal text of an amount is not modelled.
- Alerts.Evaluator.Fire: leaves out failures of `last_trigger_at`, which the program ignores, test triggers, notifications and several evaluators; each of these bypasses the cooldown.
- Alerts.Evaluator.RunOnce: reads each wallet's history, outflow and approvals as given values.
- NonceLimiter.Limiter.TryAccept: the in-memory backend only; the Redis backend is not modelled.
- Oracle.Stack.PriceUsd: symbols are upper-case, the age bound counts `slack`, the longest time a call spends between getting a price and storing it, and price history rows are not modelled.
- SyncDriver.Driver.SyncWallet: balances, positions and their prices are one arbitrary value; a failed insert leaves no row; the transaction sync at its end is the `Indexer` module, whose failure is ignored there too.
- SyncDriver.Driver.InsertSnapshot: other syncs of the same wallet do not run here; `SnapshotRace` has them.
- WorkerPool.FinishedLogsAll: tasks end with a result; panicking tasks and failed log writes, which the program skips, are not modelled.
- HTTP routes, cookies, configuration, telemetry, the rest of the frontend, the remaining repositories and price-history caching.
