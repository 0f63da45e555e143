# Verified model of the stacked-DRAM thermal simulator

The repository extends a multicore simulator with a stacked DRAM cache whose banks heat up, are switched off,
paired with cooler banks and brought back, with the HotSpot thermal solver that produces the temperatures, and with
the cache controllers in front of it. This project models its hardest parts in Dafny and proves what they
keep over every input, every run and every reachable state.

| module | part of the system |
|---|---|
| `Remapping`, `ThermalSafety`, `Pairing`, `RemapManager` | the remapping manager: values, temperature laws, pairing laws, object |
| `Geometry`, `Bits` | set numbers, banks, rows; the bit operations they are made of |
| `DramCache`, `PageTable` | pages and sets of the Unison cache; first-touch translation |
| `ThermalCache`, `CacheController` | manager and cache together, over runs of events; the controller object |
| `MisraGries` | the frequent-row table of a bank |
| `Lup`, `LuSolve`, `Inverse`, `RungeKutta` (on `Sums`, `Matrices`) | dense linear algebra of HotSpot: on values and in place |
| `DirectoryWaiters` | the directory-waiter protocol as interleaved atomic steps |
| `BackInvalidation`, `CacheTree` | recursive back-invalidation over a tree of caches: values, objects |
| `SwapTable` | vault and bank swap tables |
| `RowBuffer` | row-buffer command sequencing of banks and vaults |
| `Options` | the value that may be absent, shared by the others |

Code that mutates is modelled by methods and classes whose postconditions equate the new state with a function of
the old one; the theorems are lemmas about those functions. `double` is `real`, counters are unbounded naturals,
set numbers wrap at 32 bits. Temperatures, requests, callback slopes and thread schedules are arbitrary inputs.

## What the proofs found out about the code

- One iteration of `runMechanism` decides its own bank by temperature alone and changes no other bank's usability,
  although it rewrites other banks' flags. So a whole pass is one law per bank (`ThermalSafety.PassLaw`), for every
  relation of the two thresholds. Safety and recovery follow from it.
- Which banks are paired is a second law (`Pairing.PairingLaw`, `Pairing.PassPairs`): a hot bank that is on and alone
  moves in with the first coolest candidate of its window, and is switched off only if there is none or it is itself
  the first coolest one, which needs a recovery threshold above the high one. The window without inter-vault
  remapping is bank / banks to bank / banks + banks, not the vault's own banks.
- `tryRemapping` tests the flag that a request's flush sweep clears. A request that comes between the temperature
  reading and `tryRemapping` makes the pass vanish (`ThermalCache.RequestSwallowsPass`); without such a request it
  runs (`ThermalCache.FlagIsPending` is the exact condition). `ThermalCache.SafeExactly` says when the manager is safe
  after `tryRemapping`: if and only if the pass ran or every usable bank was below the high threshold anyway.
- `lupdcmp` announces a singular matrix, but `eq` compares up to 1e-6 (`misc/HotSpot/util.cc`), so it also rejects
  invertible matrices (`Inverse.AbortOnInvertible`). The exact condition is `Lup.Accepts`: it succeeds if and only if,
  for every k < n - 1, column k of the matrix after k rounds has an entry of at least 1e-6 at or below the diagonal,
  the rounds exchanging in the first largest entry of the column. An invertible matrix is inverted if and only if it
  is accepted (`Inverse.Matinv`). What a rejection certifies is a vector with an entry 1 that the matrix maps below
  1e-6 everywhere, so a matrix without such a vector is always inverted. The last pivot is never compared with
  anything; it is zero exactly for the singular matrices that get this far.
- `balanceBanks` reads the temperature of the bank being balanced for every candidate, so it never compares banks and
  takes the first unchanged one (`SwapTable.BankTargetIsFirst`).
- `swap` destroys the permutation exactly when it is asked to join a pair that is already joined
  (`SwapTable.SwapExactly`); the guard in both callers rules that out.
- A unit whose number is 100 is taken for "no target" by both balancers (`SwapTable.BalanceVaultLaw`).
- The replacement counters of the cache never leave zero, so way 0 is always the victim (`DramCache.VictimIsFirst`).
- Splitting a set number and reassembling it is right for every geometry; the other direction needs the two low-order
  sizes to be powers of two, and only those (`Geometry.RoundTripExactly`).

## Model

| member | source | states |
|---|---|---|
| Lup.Lupdcmp | misc/HotSpot/RCutil.cc:74-105 | for every n and matrix: it succeeds if and only if every column k < n - 1 has, after k rounds, an entry of at least 1e-6 at or below the diagonal; then p is a permutation, P a_old = L U with L unit lower and U upper stored in place, every multiplier has absolute value at most 1 and every pivot but the last at least 1e-6 |
| Lup.Round | misc/HotSpot/RCutil.cc:82-103 | one column: it goes on if and only if the column has an entry of at least 1e-6; then matrix and permutation are those of one round on values, otherwise nothing changes |
| Lup.FindPivot | misc/HotSpot/RCutil.cc:83-89 | returns the largest absolute value of the column and the first row that attains it, unless the column is zero |
| Lup.PivotTo | misc/HotSpot/RCutil.cc:83-89 | the value is an upper bound of the column, the row attains it, and every earlier row is strictly smaller |
| Lup.AdvanceKeeps | misc/HotSpot/RCutil.cc:82-103 | a round that finds a pivot keeps the permutation, the partial factorization and the pivot and multiplier bounds |
| Lup.StageFactors | misc/HotSpot/RCutil.cc:82-103 | as long as every column had its pivot, the matrix after k rounds is a partial factorization of the input with bounded multipliers |
| Lup.ExchangeRows | misc/HotSpot/RCutil.cc:95-96 | the two rows are exchanged and nothing else changes |
| Lup.Eliminate | misc/HotSpot/RCutil.cc:98-102 | every entry holds the multiplier, the updated remainder or its old value, by position |
| Lup.EliminateRow | misc/HotSpot/RCutil.cc:99-101 | one row holds its multiplier and the updated remainder, all other rows are unchanged |
| Lup.SwapKeepsPartial | misc/HotSpot/RCutil.cc:93-96 | exchanging two unfinished rows together with their permutation entries keeps finished factors plus remainder equal to P a |
| Lup.EliminationKeepsPartial | misc/HotSpot/RCutil.cc:98-102 | elimination moves one outer product from the remainder into the factors and keeps their sum equal to P a |
| Lup.EliminationKeepsPivoted | misc/HotSpot/RCutil.cc:98-99 | dividing by the largest entry keeps all multipliers at most 1 in absolute value |
| Lup.PartialIsFactors | misc/HotSpot/RCutil.cc:32-38 | with all columns but the last done, the partial form is P a = L U |
| LuSolve.Forward | misc/HotSpot/RCutil.cc:166-171 | y solves L y = P b |
| LuSolve.Backward | misc/HotSpot/RCutil.cc:173-178 | x solves U x = y |
| LuSolve.Lusolve | misc/HotSpot/RCutil.cc:161-182 | with a decomposition of a0 whose diagonal has no zero, x solves a0 x = b for every b, also when x is the array b |
| LuSolve.SubstitutionSolves | misc/HotSpot/RCutil.cc:166-178 | the two triangular solutions compose to a solution of the original system |
| LuSolve.TrivialKernel | misc/HotSpot/RCutil.cc:115-121 | a matrix with a decomposition without zero on the diagonal maps only zero to zero |
| LuSolve.SolutionUnique | misc/HotSpot/RCutil.cc:115-121 | the system it solves has no other solution |
| Inverse.Matinv | misc/HotSpot/RCutil.cc:557-570 | the three outcomes are determined: not accepted gives the fatal exit, accepted and singular a zero last pivot, accepted and not singular an inv that is a right and a left inverse of the old m; an invertible matrix is inverted if and only if it is accepted, and always when no vector with an entry 1 is mapped below 1e-6 |
| Inverse.FillColumns | misc/HotSpot/RCutil.cc:562-567 | solving for the unit vectors column by column gives a_old inv = I |
| Inverse.ColumnsInvert | misc/HotSpot/RCutil.cc:562-567 | columns that solve for the unit vectors are a right inverse |
| Inverse.RightInverseIsLeft | misc/HotSpot/RCutil.cc:471-475 | the right inverse is also a left inverse |
| Inverse.LeftInverseExcludesKernel | misc/HotSpot/RCutil.cc:557-570 | a matrix with a left inverse maps no vector with an entry 1 to zero |
| Inverse.AbortCertifies | misc/HotSpot/RCutil.cc:90-91 | a matrix that is not accepted has a vector with an entry 1 that it maps below 1e-6 in every row |
| Inverse.AbortOnInvertible | misc/HotSpot/util.cc:15-18 | a concrete matrix with a two-sided inverse that is not accepted, so that lupdcmp gives up on it |
| Inverse.LastPivotDecides | misc/HotSpot/RCutil.cc:82-91 | after a successful decomposition the last pivot is zero if and only if the matrix is singular |
| RungeKutta.Rk4Core | misc/HotSpot/RCutil.cc:193-284 | yout is the weighted four-stage step of the old y and k1, for every dimension and also when yout is y or k1 |
| RungeKutta.StepIsTaylor | misc/HotSpot/RCutil.cc:202-278 | for an affine slope with linear part M the step is y plus the sum over j = 1..4 of h^j/j! M^(j-1) f(y), exactly |
| RungeKutta.StepIsSimpson | misc/HotSpot/RCutil.cc:193-262 | when the slopes depend on time alone the step is Simpson's rule |
| Remapping.ResetKeepsMatching | performance_model/remapping.cc:156-189 | resetting any bank keeps the matching and never prints the "not combined with current bank" error |
| Remapping.CombineKeepsMatching | performance_model/remapping.cc:52-70 | combining two single enabled banks keeps the matching and prints neither error |
| Remapping.SwitchOffKeepsMatching | performance_model/remapping.cc:357-392 | switching off a hot bank, with its guest if it hosts one, keeps the matching and equal disabled flags in a pair |
| Remapping.WindowInTable | performance_model/remapping.cc:314-324 | the search window, though not the vault's own range, never leaves the table |
| Remapping.Coolest | performance_model/remapping.cc:324-335 | the target is eligible and no eligible bank of the window below 1000 degrees is cooler |
| Remapping.StepKeepsInv | performance_model/remapping.cc:270-397 | every iteration under every policy keeps: perfect partial matching, physical id equal to bank id, no migrated rows, nobody combined unless the policy is 1 |
| ThermalSafety.StepLaw | performance_model/remapping.cc:270-397 | an iteration applies the temperature law to its own bank and changes no other bank's usability |
| ThermalSafety.PassLaw | performance_model/remapping.cc:265-401 | after a pass under policy 0 or 1 a bank is usable if and only if it is below the high threshold and was usable before or is below the recovery threshold |
| ThermalSafety.PassIsSafe | performance_model/remapping.cc:265-401 | after every pass, under any temperatures and thresholds, the logical bank of every enabled bank is enabled, its own logical bank and below the high threshold |
| ThermalSafety.PassRecovers | performance_model/remapping.cc:276-307 | a bank below the recovery threshold is back after the pass if and only if it is below the high threshold |
| ThermalSafety.SecondPassAgrees | performance_model/remapping.cc:265-401 | with unchanged temperatures a second pass leaves every bank's usability as the first did |
| ThermalSafety.OtherPolicies | performance_model/remapping.cc:393-396 | under the other policies a pass is safe if and only if every usable bank is cool anyway |
| ThermalSafety.PassIsQuiet | performance_model/remapping.cc:61-64 | under policies 0 to 2 a pass prints no error line |
| Pairing.TurnLaw | performance_model/remapping.cc:296-391 | one iteration under policy 1, for every bank and every field: who is paired with whom, who is off, whose contents are invalid, told from the tables before it |
| Pairing.PairingLaw | performance_model/remapping.cc:308-349 | a hot bank that is on and alone: if a candidate exists (in the window, single, on, below the recovery threshold and 1000 degrees) and the first coolest is another bank, the two become a pair, the bank stays on and nobody is switched off; otherwise it is switched off and stays alone, and nobody else changes |
| Pairing.PassPairs | performance_model/remapping.cc:268-397 | over a whole pass and for any thresholds: a pair formed in it is there at its end, and is on if and only if its host is below the high threshold; a bank that found no partner ends the pass off and alone |
| Pairing.PairingExample | performance_model/remapping.cc:308-349 | with two banks at 90 and 60 degrees the hot one is paired with the other and stays on |
| Pairing.TargetIsPartner | performance_model/remapping.cc:314-336 | the search returns the first coolest candidate, or the bank itself when there is none |
| Pairing.TurnKeepsPair | performance_model/remapping.cc:296-391 | the turns of other banks keep a pair, and only the turn of its hot host switches it off |
| Pairing.PassFlags | performance_model/remapping.cc:285-391 | a pass clears exactly the valid flags of the hot banks that were usable or below the recovery threshold; so every bank it takes away is flagged |
| Pairing.PassIdempotent | performance_model/remapping.cc:268-397 | a second pass with the same temperatures changes nothing at all, if no bank is both hot and below the recovery threshold |
| ThermalSafety.LogicalIsUsable | performance_model/remapping.cc:52-70 | an enabled bank's logical bank is enabled and stands for itself |
| RemapManager.StatsLaw | performance_model/remapping.cc:191-205 | resetStats(true) brings back exactly the banks below the high threshold, resetStats(false) none, and marks exactly the banks it has reached valid |
| RemapManager.PlainStats | performance_model/remapping.cc:191-205 | resetStats(false) marks every bank valid, clears its migrated rows and changes nothing else |
| RemapManager.RemappingManager.RunMechanism | performance_model/remapping.cc:265-401 | the loop computes the pass the laws are about and keeps the invariant |
| RemapManager.RemappingManager.Policy1 | performance_model/remapping.cc:296-392 | the three conditional blocks, with the ids read before the recovery, compute recovery, pairing or switching off |
| RemapManager.RecoverKeepsIds | performance_model/remapping.cc:271-303 | the logical id read before the recovery is still that of a bank that is combined after it |
| RemapManager.RemappingManager.SeekPartner | performance_model/remapping.cc:308-349 | a partner is found if and only if the bank is hot, single and on and the search names another bank; then the two are combined |
| RemapManager.RemappingManager.SwitchOff | performance_model/remapping.cc:359-391 | a bank that is on is switched off, with its guest if it hosts one, and a guest is left alone |
| RemapManager.RemappingManager.SearchTarget | performance_model/remapping.cc:314-335 | the search loop returns the coolest eligible bank |
| RemapManager.RemappingManager.ResetBank | performance_model/remapping.cc:156-189 | the new tables are those of the reset, errors counted |
| RemapManager.RemappingManager.CombineWith | performance_model/remapping.cc:52-70 | the new tables are those of the combination, errors counted |
| RemapManager.RemappingManager.ResetStats | performance_model/remapping.cc:191-205 | the loop computes the clean-up and keeps the invariant |
| Geometry.GetSplit | performance_model/stacked_dram_cntlr.cc:185-191 | for each address map and every 32-bit set number, getSetNum after splitSetNum is the identity, so the error check never fires |
| Geometry.PlaceRoundTrip | performance_model/stacked_dram_cntlr.cc:219-273 | splitSetNum after getSetNum is the identity on in-range places, and the number is below the number of sets |
| Geometry.SetRoundTrip | performance_model/stacked_dram_cntlr.cc:219-273 | every set number is the number of exactly one in-range place |
| Geometry.RoundTripExactly | performance_model/stacked_dram_cntlr.cc:219-273 | all in-range places survive the round trip if and only if the two low-order sizes are 2^i and 2^j for some i and j |
| Geometry.SetNumLayout | performance_model/stacked_dram_cntlr.cc:248-273 | under the three address maps the set number is (vault, bank, row), (bank, vault, row) or (row, bank, vault) read as a mixed-radix number |
| Geometry.SetIsManagerIndex | performance_model/remapping.cc:403-417 | under the first address map the set number is the bank * rows + row the remapping manager splits |
| Geometry.SplitIdOf | performance_model/remapping.cc:403-417 | splitId and getBankId are inverse on bank * rows + row |
| Geometry.RemapSetPlace | performance_model/stacked_dram_cntlr.cc:182-202 | the routed set is in range, in the same row and in the logical bank |
| Geometry.RemapSetIdempotent | performance_model/stacked_dram_cntlr.cc:182-202 | routing twice is routing once |
| Geometry.RemapSetPreimage | performance_model/stacked_dram_cntlr.cc:182-202 | a routed set comes from the same row of its own bank or of the one bank its remap id names |
| Geometry.RemapSetTwoToOne | performance_model/stacked_dram_cntlr.cc:182-202 | at most two sets are routed to the same set |
| Geometry.RemapSetIdentity | performance_model/stacked_dram_cntlr.cc:196-200 | under every policy but 1 routing is the identity, so the error check never fires |
| PageTable.TouchKeepsDense | performance_model/dram_perf_model_normal.cc:790-805 | translation stays injective on pages and uses exactly the physical pages below the counter |
| PageTable.PhysicalStable | performance_model/dram_perf_model_normal.cc:797-804 | a translation once given never changes |
| PageTable.RunSeparates | performance_model/dram_perf_model_normal.cc:790-818 | over every run two accesses get the same tag and offset if and only if they use the same address |
| PageTable.LocateLaw | performance_model/dram_perf_model_normal.cc:807-818 | the translated address is tag * 1984 + offset with offset below 1984, and the set is the tag modulo the number of sets (its largest power of two) |
| PageTable.RunShares | performance_model/dram_perf_model_normal.cc:807-818 | over every run two accesses share a set if and only if their tags are congruent modulo the number of sets |
| PageTable.EverySetReached | performance_model/dram_perf_model_normal.cc:790-818 | every set number is reached by some access of some run |
| PageTable.PhysicalLaw | performance_model/dram_perf_model_normal.cc:790-805 | the physical address is the page number times 4096 plus the offset in the page |
| PageTable.AnswerLaw | performance_model/dram_perf_model_normal.cc:797-804 | over every run a page gets the number of different pages used before its first use |
| PageTable.LocateInRange | performance_model/dram_perf_model_normal.cc:807-818 | the set number is in range and the block number below 31 |
| DramCache.AccessConserves | performance_model/dram_perf_model_normal.cc:528-572 | blocks written back plus blocks still dirty grow by one if the access writes to a clean block of a page in the set, and by nothing otherwise |
| DramCache.AccessInstalls | performance_model/dram_perf_model_normal.cc:222-289 | after an access the page is in its set and at most one way is different |
| DramCache.AccessServes | performance_model/dram_perf_model_normal.cc:222-289 | a page that was in the set has its earlier dirty bits plus that of the written block; a page that was not is in way 0, clean, and the dirty blocks of way 0 are written back; no page is ever in a set twice |
| DramCache.MarkBit | performance_model/dram_perf_model_normal.cc:93-96 | a write sets the dirty bit of its block and no other |
| DramCache.PopCountOr | performance_model/dram_perf_model_normal.cc:44-49 | setting a bit raises the bit count exactly when the bit was clear |
| DramCache.VictimIsFirst | performance_model/dram_perf_model_normal.cc:154-167 | with counters at zero the victim is way 0 |
| DramCache.AccessKeepsUnused | performance_model/dram_perf_model_normal.cc:239-264 | an access leaves all replacement counters at zero |
| DramCache.CountBits | performance_model/dram_perf_model_normal.cc:44-49 | the shifting loop counts the set bits |
| DramCache.DirtyBlocks | performance_model/dram_perf_model_normal.cc:181-196 | the sum of the dirty bits of all ways |
| DramCache.InvalidateContent | performance_model/dram_perf_model_normal.cc:169-179 | every way is emptied and all dirty blocks are reported |
| DramCache.ReplacementIndex | performance_model/dram_perf_model_normal.cc:154-167 | the first way with the largest counter |
| ThermalCache.NextKeeps | performance_model/dram_perf_model_normal.cc:456-528 | every temperature reading, tryRemapping and request keeps the system invariant |
| ThermalCache.NoPageInAwayBank | performance_model/dram_perf_model_normal.cc:637-763 | after any run, when a request reaches the cache and after it, no set of a disabled or remapped-away bank holds a page |
| ThermalCache.RequestLaw | performance_model/dram_perf_model_normal.cc:456-572 | a request whose bank is off changes nothing after the sweep; any other leaves its page in the routed set, with exactly its block marked if it writes to a page already there, and leaves all other sets alone |
| ThermalCache.PreparedLaw | performance_model/dram_perf_model_normal.cc:637-763 | the sweep empties exactly the sets of flagged banks, keeps the map of banks and the sum of written-back and dirty blocks |
| ThermalCache.LocatedLaw | performance_model/dram_perf_model_normal.cc:790-818 | the tag and offset of a request come from its first-touch page number, its set is the tag modulo the number of sets |
| ThermalCache.WriteBackConserved | performance_model/dram_perf_model_normal.cc:565-566 | over every run from the start, written-back blocks plus dirty bits still set equal the number of events that are writes the cache takes, to a page it holds, at a clean block |
| ThermalCache.RunBalances | performance_model/dram_perf_model_normal.cc:565-566 | the same from any state of the invariant |
| ThermalCache.HotBankRequests | performance_model/remapping.cc:308-391 | after a pass that ran and until the next reading, the requests of a hot bank that found a partner are taken and go to the same row of the partner, those of one that found none are refused |
| ThermalCache.TemperatureIsReading | performance_model/stacked_dram_cntlr.cc:596-606 | over every run the temperature of a bank is its last reading |
| ThermalCache.SweepConserves | performance_model/dram_perf_model_normal.cc:696-754 | the sweep adds to the write-backs exactly the dirty blocks it removes |
| ThermalCache.ServedRequestsAreCool | performance_model/stacked_dram_cntlr.cc:451-462 | after a pass that ran and until the next reading, every request the cache takes is routed to a bank whose last reading is below the high threshold |
| ThermalCache.FlagIsPending | performance_model/stacked_dram_cntlr.cc:603-606 | the flag tryRemapping tests is set if and only if no request came after the last reading |
| ThermalCache.RequestSwallowsPass | performance_model/dram_perf_model_normal.cc:759-760 | reading, request, tryRemapping leaves a usable bank that has just become hot usable |
| ThermalCache.SafeExactly | performance_model/stacked_dram_cntlr.cc:603-606 | after any run and tryRemapping, under policies 0 and 1, every routed-to bank is below the high threshold if and only if the pass ran (enabled and no request after the last reading) or every usable bank already was |
| ThermalCache.RunIsQuiet | performance_model/remapping.cc:156-189 | no run under policies 0 to 2 prints an error line of the manager |
| ThermalCache.RoutedToUsable | performance_model/dram_perf_model_normal.cc:495-518 | a request that passes checkSetDisabled is routed to a bank that is on and stands for itself |
| CacheController.SweptPlace | performance_model/dram_perf_model_normal.cc:683-714 | the sweep meets each set for the first time at its place and flushes it exactly when its bank is invalid |
| CacheController.StackDramCacheCntlr.Sweep | performance_model/dram_perf_model_normal.cc:683-743 | the triple loop flushes exactly the sets of invalid banks and sums their dirty blocks; the migrated branch is unreachable |
| CacheController.StackDramCacheCntlr.CheckRemapping | performance_model/dram_perf_model_normal.cc:637-763 | the new state is that of one sweep, once after each reading |
| CacheController.StackDramCacheCntlr.ProcessRequest | performance_model/dram_perf_model_normal.cc:421-528 | translation, sweep, refusal, routing and access in the order of the source give the request step, and keep the invariant |
| CacheController.StackDramCacheCntlr.TranslateAddress | performance_model/dram_perf_model_normal.cc:790-805 | the page is in the table afterwards and the physical address is its page plus the offset |
| CacheController.StackDramCacheCntlr.AccessAttempt | performance_model/dram_perf_model_normal.cc:266-289 | finds the first way with the tag and marks the block, or changes nothing |
| CacheController.StackDramCacheCntlr.ReplacePage | performance_model/dram_perf_model_normal.cc:546-572 | the victim's dirty blocks are written back and the new page takes its way, clean |
| MisraGries.FrequentRowsTracked | performance_model/remapping.cc:15-36 | for every run of n accesses and table size k: at most k rows, counts at least 1 and never above the true frequency, short of it by at most n/(k+1), so every row above n/(k+1) is in the table |
| MisraGries.Accounting | performance_model/remapping.cc:15-36 | the counts plus k+1 per full-table miss add up to the number of accesses |
| MisraGries.CountBounds | performance_model/remapping.cc:15-36 | a count never overstates and falls short by at most one per miss |
| MisraGries.BankStat.AccessRow | performance_model/remapping.cc:15-36 | the branches and the two loops compute the Misra-Gries step |
| DirectoryWaiters.RunKeepsInv | cache_cntlr.cc:1181-1216 | in every interleaving, at every address, a waiting line has exactly one of send pending, request outstanding, reply being handled, and an idle line none |
| DirectoryWaiters.ServedInOrder | cache_cntlr.cc:1843-1902 | the front is never read from an empty queue, waiters are woken in arrival order, each once, and all of them when the queue is empty |
| DirectoryWaiters.HistoryLaw | cache_cntlr.cc:1181-1216 | from the list of events alone: the arrivals in order; the waiters woken are, in order, those of the decisions that are not exclusive on a SHARED line; the requests sent are the sends plus the upgrades |
| DirectoryWaiters.PhaseLaw | cache_cntlr.cc:1795-1907 | from the list of events alone: how many handlers have a reply, insert its line, or wake a given waiter |
| DirectoryWaiters.ExclusiveWokenUnshared | cache_cntlr.cc:1853-1863 | over every interleaving an exclusive waiter is woken only by a decision that did not find the line SHARED |
| DirectoryWaiters.UpgradeKeepsWaiting | cache_cntlr.cc:1853-1863 | a decision that finds the line SHARED leaves an exclusive waiter asleep at the front with exactly one request under way |
| DirectoryWaiters.StepKeepsInv | cache_cntlr.cc:1795-1907 | every atomic step between lock acquisitions keeps the protocol invariant |
| DirectoryWaiters.Progress | cache_cntlr.cc:1190-1216 | whenever somebody waits some party can act |
| DirectoryWaiters.StepLowersRank | cache_cntlr.cc:1847-1899 | every step but an arrival or an upgrade request brings the line closer to empty |
| DirectoryWaiters.DrainBounded | cache_cntlr.cc:1847-1899 | a schedule without arrivals is bounded by the rank plus four steps per upgrade |
| DirectoryWaiters.DrainComplete | cache_cntlr.cc:1847-1902 | a schedule that cannot be extended has woken every waiter |
| BackInvalidation.UpdateEmpties | cache_cntlr.cc:1588-1597 | back-invalidation leaves no copy anywhere in the tree |
| BackInvalidation.AssertionsHold | cache_cntlr.cc:1754-1757 | the assertions of writeCacheBlock hold in the whole tree if and only if every MODIFIED copy lies under a MODIFIED copy |
| BackInvalidation.DeepestData | cache_cntlr.cc:1651-1678 | a MODIFIED cache passes on the data at the end of the chain of last MODIFIED children |
| BackInvalidation.PathExists | cache_cntlr.cc:1588-1597 | every tree has such a chain, so the data laws apply to every tree |
| BackInvalidation.OnlyPathIsLast | cache_cntlr.cc:1588-1597 | with at most one MODIFIED child per cache it is the only chain of MODIFIED copies that cannot be continued |
| BackInvalidation.EvictionKeepsData | cache_cntlr.cc:1468-1482 | an eviction leaves no copy in any previous level, violates no assertion, and the evict buffer ends with the data at the end of the chain of last MODIFIED children |
| BackInvalidation.CleanEvictionLosesNothing | cache_cntlr.cc:1541-1557 | if the evicted copy was not MODIFIED there was no MODIFIED copy above and the buffer is unchanged |
| CacheTree.CacheCntlr.UpdateCacheBlock | cache_cntlr.cc:1575-1738 | the recursive calls leave the tree the value model gives and write to the next level or its evict buffer exactly what it gives |
| CacheTree.CacheCntlr.WriteCacheBlock | cache_cntlr.cc:1740-1758 | the data goes to the evict buffer during an eviction and otherwise into the MODIFIED line |
| CacheTree.CacheCntlr.InvalidateCacheBlock | cache_cntlr.cc:1377-1390 | the line is gone; both assertions are met at every call |
| CacheTree.CacheCntlr.Evict | cache_cntlr.cc:1468-1482 | the loop over the previous levels leaves trees and buffer as in the value model, with no assertion violated |
| SwapTable.SwapDestinations | performance_model/vault_remap.cc:136-159 | after a swap the pair points at each other, former partners at themselves, all others as before |
| SwapTable.SwapExactly | performance_model/vault_remap.cc:136-159 | a swap keeps the involution and the orig bits if and only if it does not join a joined pair |
| SwapTable.SwapCost | performance_model/vault_remap.cc:161-172 | copy_times grows by one plus the number of entries changed |
| SwapTable.SwapInvalidates | performance_model/vault_remap.cc:39-52 | an entry stays valid only if its destination did not change |
| SwapTable.ApplyLaw | performance_model/vault_remap.cc:250-298 | every balancing call keeps the involution and pays for what it moves, whatever target its search finds |
| SwapTable.BalanceVaultLaw | performance_model/vault_remap.cc:250-298 | the vault is joined with the destination of the first least accessed vault that fits, every entry and the charge of 3, 4 or 5 told by position, unless it points there already; if none fits, or that destination is the sentinel 100, all changed flags are cleared |
| SwapTable.BalanceBankLaw | performance_model/bank_remap.cc:188-226 | the same with the first unchanged bank; nothing happens if all are changed, that destination is 100 or the bank itself is at 999 degrees or more |
| SwapTable.RunCounts | performance_model/vault_remap.cc:66-80 | between two calls of a balancer the table counts exactly the accesses |
| SwapTable.RunIsPermutation | performance_model/bank_remap.cc:101-137 | over every run from the identity the table is an involution, hence a permutation, with orig exactly at the fixed entries |
| SwapTable.BankTargetIsFirst | performance_model/bank_remap.cc:198-217 | the bank search returns the first unchanged entry whatever the temperatures of the candidates |
| SwapTable.VaultTarget | performance_model/vault_remap.cc:261-287 | the target is a fitting vault (unchanged, less than 5 degrees hotter) with its access count, and no fitting vault counted below the initial minimum was accessed less often |
| SwapTable.RemappingStructure.SwapUnits | performance_model/bank_remap.cc:101-137 | the statements in source order compute the swap and its charge |
| SwapTable.RemappingStructure.BalanceVaults | performance_model/vault_remap.cc:250-298 | search, guard and fallback compute the balancing step and keep the involution |
| SwapTable.RemappingStructure.BalanceBanks | performance_model/bank_remap.cc:188-226 | search and guard compute the balancing step and keep the involution |
| RowBuffer.ServeLaw | performance_model/dram_vault.cc:25-60 | one request: no illegal command pair, the requested row alone is open (or none with auto_ref), counters and latency told by the previous request |
| RowBuffer.RunLaw | performance_model/dram_bank.cc:63-123 | for every request sequence and either auto_ref: at most one open row, cur_open_row agrees with the scan, row_hits counts exactly the requests that repeat the previous row, the latency is the sum of the busy times, and each of tACT, tPRE, tRD and tWR is told by the requests alone |
| RowBuffer.LegalPairs | performance_model/dram_bank.cc:125-150 | the five command pairs that occur are in the timing table with 14, 14, 28, 14 and 12 ns |
| RowBuffer.BankPerfModel.TransitionLatency | performance_model/dram_bank.cc:42-61 | the scan returns the latency of the first matching entry, or zero and one more error |
| RowBuffer.BankPerfModel.ProcessCommand | performance_model/dram_bank.cc:63-123 | row states, open row, last command, counters and latency after one command |
| RowBuffer.BankPerfModel.OpennedRow | performance_model/dram_bank.cc:161-170 | the first open row, or none |
| RowBuffer.VaultPerfModel.ProcessRequest | performance_model/dram_vault.cc:25-60 | a request leaves every bank where its own requests have brought it and takes the time its bank's history says |

## Left out

- LuSolve.Lusolve: requires a diagonal without zero, because dividing by zero gives an infinity in floating point that real numbers do not have; `Inverse.Matinv` reports that case as its own outcome.
- Rounding of `double` arithmetic, and the vendor BLAS and LAPACK branches with the `spd` flag they read.
- The adaptive step control of `rk4`: it depends on `pow`, and its retry loop has no evident measure.
- Valid bits, footprints and the footprint history table of a page: they decide load statistics and whether a present page counts as a block miss, never what is cached or written back.
- DramCache.AccessKeepsUnused: the counter increments of `updateUsedInfo` for a page whose counter is not zero are not modelled, because no such page exists in any reachable state.
- Geometry.PlaceRoundTrip: assumes at most 2^32 sets and that the two low-order sizes are powers of two, as the bit masks of the source do; `Geometry.RoundTripExactly` shows the latter is necessary.
- `getPhysicalIndex`: it hands a bank id to a function that expects bank * rows + row, and its result only selects a latency.
- The bank tables nested inside vault entries, and the access-rate test `isTooHot`, whose trigger is constantly false.
- Wrap-around of counters and of the first-touch page counter.
- Write-through and non-coherent caches, and that the coherence protocol leaves at most one MODIFIED child per cache; the data laws do not need it.
- The directory itself, its network and the stack locks: `DirectoryWaiters` assumes one reply per request and takes the state of the line at each decision as an arbitrary input.
- Latency, bandwidth, prefetching and statistics of the cache controllers; the latency of the stacked DRAM, which comes from an external simulator.
- The Alloy cache, the DVFS manager, the power formulas and all scripts: easy bounds, tables or input and output.
