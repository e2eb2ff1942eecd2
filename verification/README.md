# Verified model of the Jay Network's export and testnet commands

This project models, in Dafny 4.11, the three places of the Jay Network application that transform
stored state step by step, and proves what they leave behind.

- **Zero-height export** (`app/export.go`). `Export.App` holds the staking and slashing stores and
  a `DistrKeeper.Keeper` with the fee-distribution records. Its passes withdraw commissions and
  rewards, wipe the history, donate what is left, rebuild every validator and delegation at height
  zero, reset heights and jail by allow-list. Amounts have many denominations; decimals are
  integers scaled by 10^18, so truncation and dust are exact.
- **Multi-node testnet** (`cmd/jaynd/cmd/testnet_multi_node.go`). `TestnetFiles.Testnet` writes the
  node directories, delivers every transaction file to every node and collects one genesis for all.
  Paths are component sequences; creating a file truncates it before anything is copied into it.
- **In-place testnet** (`cmd/jaynd/cmd/testnet.go`). `Takeover.TestnetApp` deletes from an ordered
  byte-key store under live iterators, installs one validator and funds accounts.

## How it is built

The keeper operations called by the export belong to the x/distribution module of Cosmos SDK
v0.53.6 (`go.mod:34`), which is not part of this model's repository; `FeeDistribution` gives them as
functions from state to state that follow that module's F1 fee distribution. A step is done, failed
(what it had written stays written) or panicked. `DistrKeeper.Keeper` performs the same operations
on mutable fields and is proved equal to those functions. `ZeroHeight` folds them in the order of
`prepForZeroHeightGenesis`; `Export.App` runs the loops and is proved equal to the folds.

A store iterator is a cursor that looks up the next live key each time it moves, so it sees writes
and deletions made while it is open. `Bytes` fixes the key order and the range of a prefix.

A start state is `Restart.Ready` when it satisfies what x/distribution itself maintains: every
reference count equals the delegations, slash events and last period that refer to the record;
cumulative ratios never decrease; commission and the open period's rewards are outstanding; slashed
stakes are within the module's own margin; and there are no records of unknown validators or
delegations. Fresh records are `Ready` at every height (`CleanRestart.FreshIsWellFormed`), and so are
the records after any history of blocks, fees, allocations, withdrawals and slashes on the restarted
chain. `Dues` measures what a delegation has earned without truncation, slash events included;
`Overdraft` keeps what a validator owes within what it has outstanding, and derives the stake margin
from the fraction burnt being rounded up; `Lifetime` runs histories of such events from one export to
the next. A world that keeps all this is `Lifetime.Solid`. Conserving a sum does not say who gets it, so `Amounts` fixes what each operation does to the
stored numbers from both sides, and `Payouts` counts the coins that leave the module against what every
delegation has earned.

## Where the code does not do what one would expect

- A commission is written off before the bank is asked to pay it, and the export ignores the bank's
  refusal. The books are then off by the refused coins: `Solvency.ConservationIsExact` proves that
  the balance against pool and outstanding rewards is conserved if and only if no whole coin of
  commission belongs to a refused account, and `Solvency.RefusedCommissionLeaks` gives a well-formed,
  solvent start that loses a coin this way. A withdraw address is compared with the blocked accounts
  only when it is set, so one imported at genesis, or blocked by a later version, is refused.
- The validator loop is commented as going by descending power (`app/export.go:200`); it goes in
  reverse key order, and that is what is modelled.
- Leaving `--accounts-to-fund` empty does not fund nobody: the split of the empty string is one empty
  account, which does not decode, so the command exits with an error (`Takeover.EmptyFlagFails`).
- Nothing empties a gentx directory. It ends with what lay there before and the n transactions over
  it, so with exactly the n transactions if and only if it held no file under another name
  (`TestnetFiles.DeliveredExactly`). Two nodes generate the same app state, whatever generates it, if
  and only if they held the same such files (`TestnetFiles.StatesAgree`), and the same holds of the runs
  that succeed (`TestnetFiles.SuccessfulRunsAgree`). If state generation accepts a stale file that only
  one node has, the command does not notice and overrides that node's state with the first one's
  (`TestnetFiles.OverriddenExactly`). If generation rejects every JSON file that is not a transaction of
  this run, the command fails instead, and every run that succeeds is in agreement
  (`TestnetFiles.StrictRunsAgree`). Keys are new in every run, so a transaction that an earlier run left
  behind is of an account that this run's genesis does not list; whether generation rejects it is
  decided in the SDK.
- A file whose name begins with two dots is not recognised as lying inside its own directory
  (`Paths.DottedNameIsMissed`); transaction names never do.
- When the validator iterator fails to close, the error is logged and the preparation returns as if it
  had finished, with the signing infos not reset (`app/export.go:227-230`).
- The in-place testnet overwrites the distribution records of an operator that has some already; its
  old outstanding rewards are then in the module account, owed to nobody (`Takeover.OverwritingStrands`).

## Model

| member | source | states |
|---|---|---|
| Restart.PreparationCompletes | app/export.go:54-163 | From every well-formed state the distribution passes complete exactly when each delegation's validator exists, otherwise they panic; no reference-count, ratio or stake guard ever fires; the result is the fresh state |
| Restart.PreparationBooks | app/export.go:73-140 | At the end nothing is outstanding, the pool holds the whole balance up to the starting difference, and that difference has grown only by commissions written off and refused |
| Payouts.PreparationPays | app/export.go:73-104 | From every solid and solvent start the balance falls by the whole coins of every unrefused commission and by one amount for each delegation: nothing for one that is refused, has no info or started in this block, and otherwise what it is due once its validator's period is closed, less than a coin short and less than 10^-18 for each stretch between slash events |
| Payouts.PaysAfterAnyHistory | app/export.go:73-104 | The same after every history from one export to the next in which no more was promised than came in |
| Payouts.WithdrawalPays | app/export.go:103 | One withdrawal takes from the balance what its delegation is due, within the same bounds, or nothing |
| Payouts.WithdrawalSameDue | app/export.go:92-104 | A withdrawal, paid or refused, changes what no other delegation is due |
| Payouts.FirstRewardsArePaid | app/export.go:145-163 | After an export, rewards shared with a validator are paid to a delegation that withdraws in a later block in the proportion of its shares, from both sides |
| Solvency.ConservationIsExact | app/export.go:73-140 | Balance against pool and outstanding rewards is the same at the end as at the start, in every denomination, if and only if no whole coin of commission belongs to a refused account; the difference in closed form |
| Solvency.RefusedCommissionLeaks | app/export.go:73-81 | A concrete well-formed, solvent start with a refused validator account: afterwards the module holds one coin that nobody is owed |
| Conservation.WithdrawConserves | app/export.go:92-104 | A reward withdrawal conserves every denomination, dust included, whether it pays, is refused after closing the period, or finds nothing |
| Conservation.CommissionConserves | app/export.go:79 | A commission withdrawal conserves every denomination except for the whole coins that the bank refuses after they were written off |
| Conservation.ReinitConserves | app/export.go:122-138 | Donating the outstanding rewards and initialising the validator conserves every denomination |
| Conservation.CommissionKeepsWellFormed | app/export.go:74-81 | Withdrawing a covered commission never panics, keeps the invariant, refused or not, and touches no other validator |
| FeeInvariant.WithdrawKeepsWellFormed | app/export.go:103 | Withdrawing rewards keeps the reference-count invariant through slash events and refusals, and never panics |
| FeeInvariant.IncrementKeepsOk | app/export.go:156 | Incrementing a period finds its references, keeps the counts exact and the ratios growing |
| Amounts.PeriodDistributes | app/export.go:156 | Closing a period raises the ratio by the largest amount that does not overpay the tokens; without tokens the rewards leave what is outstanding for the pool |
| Amounts.PeriodReachesDelegators | app/export.go:103 | When the delegations hold all shares, a closed period leaves them due all its rewards but for 10^-18 for each token and one unit of ratio for each delegation |
| Amounts.StartTracks | app/export.go:160 | A started delegation tracks, from the period just ended and the given height, the largest stake its shares are worth |
| Amounts.FreshTracks | app/export.go:145-163 | After the rebuild so does every delegation, at height zero |
| Amounts.RestartedEarns | app/export.go:160 | A delegation that started at the last period earns, when the next is closed, the part of its rewards that its shares are of all shares, from both sides |
| Amounts.CappedByOwned | app/export.go:103 | A reward is computed on the smaller of the tracked and the owned stake, and not at all when the tracked one is larger by more than three units |
| Amounts.RoundedIsNearest | app/export.go:103 | The owned stake of that check is the nearest to the worth of the shares |
| Amounts.SlashTakes | app/export.go:103 | A slash event takes its fraction of a tracked stake and less than one unit more |
| Amounts.SlashLeaves | app/export.go:103 | A tracked stake keeps its part of the tokens that are left, up to one unit and a 10^18th of itself |
| FeeInvariant.StartKeepsOk | app/export.go:160 | Starting a delegation at a last period with at most two references completes, keeps the invariant, and tracks a stake that no later check rejects |
| FeeInvariant.RestartStages | app/export.go:103 | After a payout the old reference is found and released, and starting the delegation again stays within the reference limit |
| FeeInvariant.AccrueDefined | app/export.go:103 | With growing ratios over live records and a tracked stake within the margin, the reward computation across any slash events hits none of its panics; that stakes are within the margin is derived by Dues.SoundFromTracked |
| Dues.AccrueAtMostEarned | app/export.go:103 | Whatever slash events lie between, the rewards computed never exceed what the stake left in each stretch has earned |
| Dues.AccrueAtLeastEarned | app/export.go:103 | Nor do they fall short of it by as much as the smallest unit for each stretch |
| Overdraft.PaidAtLeastDue | app/export.go:103 | A delegation that did not start in this very block has a defined reward, short of its due by less than the smallest unit in each stretch |
| Dues.SoundFromTracked | app/export.go:103 | A stake left that is worth at most its shares passes the stake check of the reward computation at every later height |
| Dues.SlashedWithin | app/export.go:103 | Burning tokens with the fraction rounded up leaves a tracked stake within what its shares are still worth, truncations included |
| Overdraft.SlashSolid | app/export.go:103-106 | A slash completes, keeps the reference counts exact with its event counted, and leaves no delegator owed more than is outstanding |
| Rebuild.RebuildPass | app/export.go:145-163 | After the pass a validator with k delegations has live periods exactly 1 to k, counted once but twice for the last, and current period k+1 (or period 0 alone); the i-th delegation's info names the rank it has at its validator; a missing validator panics |
| Rebuild.RebuildRebuilt | app/export.go:156-162 | The two hooks on a rebuilt validator with k delegations give one with k+1, and neither reference guard fires |
| Rebuild.ReinitPass | app/export.go:117-140 | After the validators pass each validator has period 0 alone, nothing outstanding and no commission, and no other history exists |
| CleanRestart.FreshReferenceTotal | app/export.go:106-163 | All references together are one per validator and one per delegation |
| CleanRestart.RebuiltInfoRefs | app/export.go:146-163 | For any interleaving of delegations each period from 1 to a validator's count is tracked by exactly one of its delegations |
| CleanRestart.FreshOwesNoRewards | app/export.go:112-166 | Each delegation's info has height zero, points at a live record of its own validator, and earns zero up to the last period at every height |
| CleanRestart.FreshIsWellFormed | app/export.go:106-163 | The fresh state satisfies the whole start condition again, whatever the height of the chain that continues from it |
| Idempotence.PreparationIsIdempotent | app/export.go:54-163 | Preparing a fresh state again, at any height and with any refused accounts, completes and changes nothing at all |
| Idempotence.WithdrawQuiet | app/export.go:103 | In the second preparation a withdrawal moves no coin and adds nothing to any ratio |
| Idempotence.FreshIsUnique | app/export.go:106-163 | The rebuilt records are determined by validators and delegations alone |
| Lifetime.ExportAfterAnyHistory | app/export.go:54-163 | A chain restarted from an export can be exported again: after any history of blocks, fees, allocations, reward and commission withdrawals and slashes, with any accounts refused at any time, the preparation completes and gives fresh records once more |
| Lifetime.AfterSolid | app/export.go:73-104 | Over every such history, what each validator owes its delegators, its commission and the open period never exceeds what it has outstanding, the reference counts stay exact and every tracked stake stays within its shares |
| Lifetime.HistoryNeverPanics | app/export.go:79-103 | No guard of a reward withdrawal, commission withdrawal or slash fires at any point of such a history |
| Lifetime.GapAfterHistory | app/export.go:73-104 | Over every history the balance against pool and outstanding rewards changes by fees less what was promised, and by the commissions written off and refused, and by nothing else |
| Lifetime.BooksFromExportToExport | app/export.go:73-140 | When no more was promised than came in, the second export starts solvent, and the books are known in closed form from the first export to the end of the second |
| Overdraft.RewardsAreOutstanding | app/export.go:103 | The reward of a delegation is defined and outstanding in full, so no withdrawal is cut |
| Overdraft.IncrementNotOverdrawn | app/export.go:156 | Closing a period turns its rewards into dues of the delegators without owing more than is outstanding, truncation included |
| Export.SecondPreparation | app/export.go:54-250 | The whole preparation done twice with the same allow-list equals it done once: distribution records, validators, redelegation and unbonding entries, signing infos |
| Export.App.PrepForZeroHeight | app/export.go:54-250 | Completes exactly when the allow-list decodes and the distribution passes do; then the distribution state is the specified one, every validator, redelegation, unbonding and signing info is reset exactly, field by field, every record stays under its own key, and the indexes are unchanged |
| Export.App.JailPass | app/export.go:200-225 | Writing under the open reverse iterator visits each validator once, in reverse key order; field by field, a validator ends jailed if and only if it was jailed or the non-empty allow-list lacks its rendered address, at unbonding height zero, with every other field as before |
| Export.App.ResetRedelegationsPass | app/export.go:171-183 | Every entry of every redelegation has creation height zero; number, order and every other field of the entries, the keys and the index are unchanged |
| Export.App.ResetUnbondingsPass | app/export.go:186-198 | The same for unbonding delegations |
| Export.App.ResetSigningInfosPass | app/export.go:240-247 | Every signing info has start height zero and is otherwise unchanged |
| Export.App.ExportHeight | app/export.go:27-31 | The export is at height zero with the whole preparation done, every store at its reset value, or at the last height plus one with nothing changed |
| Export.App.ReinitValidatorsPass | app/export.go:117-143 | The loop over the live iterator donates and initialises exactly the listed validators in key order |
| Export.App.RebuildDelegationsPass | app/export.go:146-163 | The loop over the snapshot rebuilds every delegation in order or panics |
| DistrKeeper.Keeper.WithdrawDelegationRewards | app/export.go:103 | The stepwise withdrawal, with its early exits, computes the specified step |
| DistrKeeper.Keeper.CalculateDelegationRewards | app/export.go:103 | The loop over slash events computes the recursive reward |
| StakingReset.ResetKeepsStakes | app/export.go:205-225 | Jailing leaves tokens, shares, keys and iteration order alone |
| StakingReset.OrderListsValidators | app/export.go:74-81 | The forward iteration meets every validator exactly once |
| StakingReset.CursorAdvances | app/export.go:205-225 | Overwriting the entry under an open cursor neither skips nor repeats a key, in either direction |
| Bytes.PrefixRangeIsExact | cmd/jaynd/cmd/testnet.go:128-139 | The range from a prefix to its end bound holds exactly the keys that start with the prefix, through the carry over 255 and the unbounded end |
| Bytes.VisitsOnceInOrder | app/export.go:203-205 | An iterator meets every key once and in order |
| Takeover.SweepAdvances | cmd/jaynd/cmd/testnet.go:113-139 | Deleting the key under the cursor and moving on loses no key and skips none |
| Takeover.TestnetApp.DeleteUnder | cmd/jaynd/cmd/testnet.go:113-139 | A delete loop removes every key under its prefix and no other |
| Takeover.IndexesAgree | cmd/jaynd/cmd/testnet.go:107-145 | From any store the validators, power and last-power ranges each end with one entry, all of the new operator, the queue is empty, and outside them only the new consensus-address entry may differ |
| Takeover.EntriesOfTakeover | cmd/jaynd/cmd/testnet.go:85-145 | Under which bytes the new validator, its consensus address and its last power lie: bonded, unjailed, with 900000000000000 tokens and ten million shares, and last power zero |
| Takeover.PowerKeysOrder | cmd/jaynd/cmd/testnet.go:144 | Power-index keys order validators by power, equal powers by operator address in reverse |
| Takeover.TestnetApp.InitAppForTestnet | cmd/jaynd/cmd/testnet.go:76-180 | It succeeds exactly when the operator address decodes and every account decodes and may receive; with an undecodable operator nothing changes; otherwise the staking store, distribution records, slashing's public key and signing info, and after success the books |
| Takeover.TestnetApp.FundAccounts | cmd/jaynd/cmd/testnet.go:170-177 | The funding loop computes the specified books and stops at the first account that fails |
| Takeover.FlagNamesAccounts | cmd/jaynd/cmd/testnet.go:208-209 | The comma-separated flag names each of its accounts, in order |
| Takeover.OverwritingStrands | cmd/jaynd/cmd/testnet.go:146-152 | Setting the operator's records anew puts the distribution books off by exactly its old outstanding rewards; they stay in balance if and only if it had none |
| Takeover.EmptyFlagFails | cmd/jaynd/cmd/testnet.go:208-209 | Without accounts the command fails |
| Takeover.MinterUnchanged | cmd/jaynd/cmd/testnet.go:170-177 | The mint module, being blocked as a recipient, keeps its balance |
| Bank.FundingIsExact | cmd/jaynd/cmd/testnet.go:167-177 | Every account gains 1000000000 for each time it is listed, duplicates included, nothing else changes, and the supply grows by that times the list's length |
| Bank.FundingKeepsBooksBalanced | cmd/jaynd/cmd/testnet.go:167-177 | The supply stays the sum of all balances |
| Paths.IsSubDirExact | cmd/jaynd/cmd/testnet_multi_node.go:485-502 | For all paths, relative or not, the test holds exactly when the directory is a component prefix of the file and the next component does not begin with two dots |
| Paths.RelRoundTrip | cmd/jaynd/cmd/testnet_multi_node.go:495 | Following the relative path from the directory gives the file back |
| Paths.DottedNameIsMissed | cmd/jaynd/cmd/testnet_multi_node.go:500 | A concrete file inside a directory that the test denies |
| TestnetLayout.SkipsExactlyOwn | cmd/jaynd/cmd/testnet_multi_node.go:317-320 | Delivery skips a file exactly for the node that wrote it |
| TestnetLayout.GentxPathsDiffer | cmd/jaynd/cmd/testnet_multi_node.go:190-192 | Delivered files coincide only for the same node and transaction |
| TestnetFiles.FileSystem.CopyFile | cmd/jaynd/cmd/testnet_multi_node.go:456-483 | Copies the contents, except that a file copied onto itself is emptied |
| TestnetFiles.Testnet.Deliver | cmd/jaynd/cmd/testnet_multi_node.go:311-326 | The nested loop always completes, every node has every transaction with its contents, and nothing else changes |
| TestnetFiles.DeliveredExactly | cmd/jaynd/cmd/testnet_multi_node.go:311-326 | A gentx directory then holds exactly the n transactions if and only if it held no stale file |
| TestnetFiles.DeliveredListing | cmd/jaynd/cmd/testnet_multi_node.go:311-326 | From any start a gentx directory ends with what lay there before and every transaction over it |
| TestnetFiles.StatesAgree | cmd/jaynd/cmd/testnet_multi_node.go:413-445 | Whatever generates app states, node i generates the one that node 0 does if and only if both held the same files, with the same contents, under names that delivery does not write |
| TestnetFiles.SuccessfulRunsAgree | cmd/jaynd/cmd/testnet_multi_node.go:424-445 | In every run that succeeds, whatever generates app states, node i generates node 0's state if and only if both held the same files under names that delivery does not write |
| TestnetFiles.OverriddenExactly | cmd/jaynd/cmd/testnet_multi_node.go:442-450 | Exactly when those files differ can a run succeed and leave node i with a genesis of node 0's state although its own files generate another |
| TestnetFiles.StaleFileSplitsStates | cmd/jaynd/cmd/testnet_multi_node.go:442-450 | A start with one stale file at the second node from which a run succeeds and overrides that node's state |
| TestnetFiles.StrictRunsAgree | cmd/jaynd/cmd/testnet_multi_node.go:431-445 | When generation reads JSON files alone and accepts only this run's transactions, the command succeeds exactly when no node held another JSON file and the transactions are accepted, and then every state is that of the transactions alone |
| TestnetFiles.CollectedKeepsState | cmd/jaynd/cmd/testnet_multi_node.go:424-450 | Rewriting earlier nodes changes neither the genesis nor the gentx directory that a later node reads |
| TestnetFiles.Testnet.CollectGenFiles | cmd/jaynd/cmd/testnet_multi_node.go:398-454 | Succeeds exactly when every node's own files generate a state, and then all genesis files get the first one; otherwise it stops at the first node that generates none, and what was collected before stays |
| TestnetFiles.Testnet.InitTestnetFiles | cmd/jaynd/cmd/testnet_multi_node.go:158-340 | From any start it succeeds exactly when every node's own listing generates a state; then every node has its old files and all transactions, the genesis of node 0's state, and a configuration with its own ports and the common peers. In literal terms: every node has its own RPC, P2P, proxy and Prometheus address, its gRPC and API address and every transaction under its file name, and every peer entry in any node's configuration reads as the ID and host of a node and the port that this node's own configuration listens on |
| TestnetFiles.CollectedAt | cmd/jaynd/cmd/testnet_multi_node.go:435-450 | What is found at each collected node, despite the shared configuration object |
| TestnetFiles.Testnet.InitGenFiles | cmd/jaynd/cmd/testnet_multi_node.go:352-396 | The same document for every node, its supply that of the unsorted balances |
| TestnetFiles.BalanceAt | cmd/jaynd/cmd/testnet_multi_node.go:248-255 | The i-th genesis balance is the i-th account's, with 1000000000 testtoken and 500000000 ujay |
| GenesisSupply.SupplyIsSum | cmd/jaynd/cmd/testnet_multi_node.go:374-376 | The accumulated supply is sorted, free of duplicates and zeros, and equals the sum of the balances in every denomination |
| GenesisSupply.SupplyIgnoresOrder | cmd/jaynd/cmd/testnet_multi_node.go:373-376 | It does not depend on how sanitising permutes the balances |
| GenesisSupply.SupplyOfAccounts | cmd/jaynd/cmd/testnet_multi_node.go:248-256 | For n accounts it is exactly n times the account's coins |
| GenesisSupply.CanonicalIsUnique | cmd/jaynd/cmd/testnet_multi_node.go:375 | A sorted list without duplicates and zeros is determined by its amounts |
| TestnetLayout.PeersRoundTrip | cmd/jaynd/cmd/testnet_multi_node.go:210-216 | Splitting the peer string gives one entry per node, each reading back as its ID, the given host and its P2P port; that the node listens there is InitTestnetFiles's last clause |
| TestnetFiles.Testnet.WriteNodes | cmd/jaynd/cmd/testnet_multi_node.go:189-305 | The per-node loop writes exactly the files of its nodes, and its accumulated peers, file list and balances are the specified ones |
| TestnetLayout.ConsensusPortsDiffer | cmd/jaynd/cmd/testnet_multi_node.go:437-439 | RPC, P2P and proxy ports never clash, for any number of nodes |
| TestnetLayout.PortsUsableExactly | cmd/jaynd/cmd/testnet_multi_node.go:302-303 | All six ports of n nodes are valid and pairwise different exactly up to 1317 nodes |
| TestnetLayout.DefaultPorts | cmd/jaynd/cmd/testnet_multi_node.go:114-121 | The default list has exactly the RPC ports of the nodes |
| Text.SplitJoin | cmd/jaynd/cmd/testnet_multi_node.go:212-216 | Splitting undoes joining when no part contains the separator |

## Left out

- PrepForZeroHeight: does not model `ApplyAndReturnValidatorSetUpdates` (`app/export.go:232`), whose body is in the SDK; staking properties hold just before it, and nothing is said about the power index.
- WithdrawRewards, WithdrawCommission: the recipients' own balances are not modelled, only what leaves the module; a refused account is one whose withdraw address the bank rejects.
- IncrementPeriod: periods and reference counts are unbounded here, 64-bit and 32-bit in the SDK; overflow is not modelled.
- ExportAfterAnyHistory: delegations and the set of validators stay the same throughout a history, because delegating and unbonding are staking operations outside the modelled files; a rolled back withdrawal is one left out of the history.
- LengthPrefixed: the length byte of an address over 255 bytes wraps here; the SDK panics on such an address.
- Slashed: the model of a slash is the part that distribution sees, the fraction and the tokens burnt; slashed unbonding entries and the reasons for slashing are not modelled.
- InitAppForTestnet: old consensus-address entries, old delegations and pool balances are not cleaned by the code and nothing is said about them; the new validator's commission rates and description are not modelled.
- StateOf: app-state generation is an arbitrary function of a node's genesis and the files of its gentx directory; the intermediate genesis and configuration that the SDK writes while generating are overwritten in the same turn and are not modelled.
- InitTestnetFiles: transactions, addresses and node IDs are parameters; the output directory is given as its absolute path; key files, keyring, seeds and random chain IDs are not modelled, nor is removing the output directory after an I/O error.
- AllDecode: address codecs are an arbitrary pair of functions; an allow-list string counts only in its rendered form, as in the code.
- JSON, TOML and protobuf encodings, signatures, clocks and I/O errors other than missing files and directories.
- Application wiring (`app/app.go`, `app/ibc.go`, `app/wasm.go`, `app/app_config.go`) and command plumbing (`root.go`, `commands.go`, `config.go`): no behaviour of their own to prove.
