# The Commit-Reveal² beacon, modelled and proved

A consumer pays a coordinator contract for a random number. Every active operator backs the
request with its deposit, commits to a secret by a chain of two hashes (secret → COS → CVS),
and reveals COS and secret in turn. A leader collects the CVS values off chain and submits
their Merkle root; the contract draws the number from the revealed secrets after checking them
against the root and the operators' signatures, and pays the operators.

This project models four parts of that system in Dafny and proves what they keep.

## Parts

| file | what it holds |
|---|---|
| Words, Sorting | 32-byte words and hashes; sorting known by its specification |
| Merkle | the two-cursor root construction in both languages: queue reduction, heap layout, balance, binding |
| Operators | the operator array with its index map, deposits, and the two loops over a round's operators |
| Contract, ContractRuns | every external call as a function of the storage (`Apply`), then whole runs: ledger law, solvency, frozen rounds |
| DoubleSettlement | a run that settles a request twice and ends with less than it owes |
| Coordinator | the contract as an object that is updated in place and refines `Apply` |
| LeaderStore, Leader, LeaderSafety | the leader's records; its threads as a step function (`Move`) over shared memory and files; what every schedule keeps |
| LeaderNode, LeaderTraces | the leader's maps as an object, with its loops and handlers; that each is what one thread does step by step |
| LeaderHandlers | each handler run without interruption, written out on records and keys |
| OrdinaryRun | a run of the leader from empty files to a marked root and a stored order |
| LeaderSources, NodesToLeader | where the leader's values come from, joined with the nodes' own runs; where secrets are lost |
| SecondStart | a run of the leader that starts the requests of a round twice |
| RevealOrder, RevealChain | the reveal order, and the requests that follow it |
| Monitor, EndToEnd | collection of the secrets, and the way from the leader's leaves to the contract's checks |
| Commitments, RegularNode | a node's commitment and encodings, and its polling loop |
| KeyStore | the flat `round+eoa` file keys as a two-level map |

## How it is modelled

- **Calls are atomic.** Every external call of the contract is `nonReentrant` and a revert undoes
  it, so `Apply` returns a new storage or nothing. The methods of `Coordinator` save what they
  change and put it back where the chain would revert. `View()` gives the storage of the object.
- **Unknown functions are parameters.** keccak256, signature recovery over the EIP-712 digest, the
  two sort routines, and text conversions are arguments of the functions that use them; results
  hold for all of them. `Sorter` is the type of functions that return a sorting permutation, with
  ties in any order; the two routines are two members of it.
- **Collisions.** No hash into 32 bytes is injective, so binding lemmas do not assume that one is:
  they ask that the hash is collision free on the finite set of strings that the two trees at hand
  hash.
- **Outcomes of the outside world are inputs**: whether a file write, transaction, stream or
  callback succeeds, the request price, the clock, the operator list that a query returns.
- **Interleavings.** A thread of the leader is a program counter. A step is one lock region
  between two file or network operations, one decoding of a file, one write of a file, or one
  transaction. A schedule names the thread and the outcome of each step, so lemmas over all
  schedules are lemmas over all interleavings. Handlers that take no lock (the secret handler
  and the monitor) write back whole decoded files, however old.
- **Messages.** The leader accepts any message in any state. Where a result needs that messages are the
  nodes' own, it says so (`SentBy` in `NodesToLeader`): the signatures on requests are not modelled.
- **Reveal requests race.** The status that the reveal handlers share has no lock. `RevealChain` takes
  each event whole first, and then lets handlers interleave at every look at the status and every append.
- **A request is a number.** The bookkeeping of `ContractRuns` numbers requests without bound,
  while `s_nextRound` wraps modulo 2^256 as in the unchecked increment. Results that need
  one request per round say so by a bound on the number of requests.
- **Memory maps are flat**, keyed by round and operator; `KeyStore` proves that this is the same as
  the file's `round+eoa` keys for every round text.

## Where the code differs from what one may expect

- The contract has no guard against settling a round twice. Solvency holds on every run that settles
  no request twice (`Solvent`). After any one settlement it holds exactly when the contract held
  enough beyond the deposits before the call (`SettlementSolvency`). A second settlement goes through
  unless a credit overflows or the registry is full (`SecondSettlement`), and
  `DepositsOutgrowBalance` gives a run after which the contract holds less than the deposits.
- A Merkle root alone does not fix the number of leaves (`RootForgetsLength`). It does when
  leaves are hashes of 32-byte words, as CVS values are (`EqualRootsEqualOpenings`).
- `depositAndActivate` admits an operator that is flagged as force-deactivated and leaves the flag. Such an
  operator is active, and deactivate refuses it (`FlaggedAndActive`, `FlaggedAndActiveReachable`).
- A stored secret can be lost: no record in memory carries one, so each later commit, COS or mark save of
  its key removes it from the file (`SavesDropSecrets`, `SecretLost`).
- The log line of the leader speaks of all COS being received where the code tests for all CVS; the
  model follows the code, and the order is refused later if a COS is missing.
- A node can be asked for its secret twice. A second start is enough, since a start does not read the
  status (`SecondStartRepeats`), and the leader reaches one when a COS handler that waited in
  generateMerkleRoot finds the order stored (`RequestsStartTwice`). Events taken whole, it happens exactly
  when a start is sent after something else was (`AskedTwiceExactly`). Races do it too
  (`RacingAsksTwice`), exactly when an append finds its node in the status (`RacingRepeatsExactly`).

## Model

Main results come first, then the lemmas and operations they rest on, then small helpers.

| member | source | states |
|---|---|---|
| ContractRuns.LedgerLaw | contract/Commit2RevealDRB/Commit2RevealDRB.sol:53-402 | Exact ledger law: after any sequence of calls from deployment, reverted ones included, balance minus the sum of deposits equals the sum over requests of (N+1)·cost − k·N·(cost + cost/N), with N the debited operators and k the settlements of that request; the invariant of the storage holds too. |
| ContractRuns.Solvent | contract/Commit2RevealDRB/Commit2RevealDRB.sol:394-402 | On runs that settle no request twice the contract holds all deposits plus what is held for open requests plus remainders, and a withdrawal by a willing receiver succeeds exactly when it is within the deposit. |
| ContractRuns.SettlementSolvency | contract/Commit2RevealDRB/Commit2RevealDRB.sol:251-273 | The exact condition for every state: after an accepted generateRandomNumber the balance covers the deposits if and only if, before it, balance minus deposits is at least N times the credited amount. |
| ContractRuns.SecondSettlement | contract/Commit2RevealDRB/Commit2RevealDRB.sol:163-275 | An accepted generateRandomNumber goes through a second time if and only if no credit overflows and the returning operators fit, judged on the state it left. |
| DoubleSettlement.DepositsOutgrowBalance | contract/Commit2RevealDRB/Commit2RevealDRB.sol:163-275 | The failing side is reached: for any hash, any price up to the payment, any callback limit, and any recovery that gives operators 1 and 2 on the two leaves, a run of six calls from deployment settles its one request twice and ends with 12 wei less than the deposits. |
| ContractRuns.ReachableRegistry | contract/Commit2RevealDRB/Commit2RevealDRB.sol:404-428 | In every reachable state slot 0 holds address(0), slots are distinct, a positive index and its slot invert each other for every address, the active count is within the limit, and every active operator's deposit covers the threshold. |
| ContractRuns.RequestedRoundsAreFrozen | contract/Commit2RevealDRB/Commit2RevealDRB.sol:71-99 | Over any run in which the round counter has not wrapped, a requested round's operator snapshot, index map and request info never change. |
| ContractRuns.RunKeepsInverse | contract/Commit2RevealDRB/Commit2RevealDRB.sol:71-99 | Over any run, until the counter wraps, each requested round's index map and snapshot are mutually inverse. |
| ContractRuns.AcceptedSignersAreOperators | contract/Commit2RevealDRB/Commit2RevealDRB.sol:206-231 | In every reachable state each signature of an accepted call recovers, over the double hash of its secret, to a nonzero address; until the round counter wraps, to an operator of the round's snapshot. |
| ContractRuns.OnlyOperatorsSubmitRoots | contract/Commit2RevealDRB/Commit2RevealDRB.sol:152-161 | In every reachable state before the counter wraps, a root is accepted if and only if the sender is in the round's operator snapshot; only that round's root changes. |
| Contract.RequestEffect | contract/Commit2RevealDRB/Commit2RevealDRB.sol:53-101 | requestRandomNumber succeeds if and only if the gas limit, the price and the count of two operators are met and every active operator can pay; then exactly the active operators pay once, and exactly those still covering the threshold stay active, although the loop removes while iterating a copy. |
| Contract.SettleSucceeds | contract/Commit2RevealDRB/Commit2RevealDRB.sol:252-273 | A settlement goes through if and only if the round was requested, no credit overflows, and the active operators plus those coming back fit the limit. |
| Contract.SettleEffect | contract/Commit2RevealDRB/Commit2RevealDRB.sol:252-273 | Each snapshot operator, and no one else, is credited once; the active set gains exactly the snapshot operators that now cover the threshold and are not force-deactivated; operators already active keep their index; nothing else in the storage changes. |
| Contract.GenerateEffect | contract/Commit2RevealDRB/Commit2RevealDRB.sol:163-275 | generateRandomNumber succeeds if and only if verification passes, the callback can be attempted and the settlement succeeds; it keeps the round's root and every other round, and activates exactly the returning operators. |
| Contract.SettlementExactly | contract/Commit2RevealDRB/Commit2RevealDRB.sol:251-331 | Per address, in terms of the round's tables: each of the N snapshot operators is credited cost + cost/N and is active afterwards if it was before, or if it then covers the threshold without being flagged; indices of active operators stay. |
| Contract.VerifiedExactly | contract/Commit2RevealDRB/Commit2RevealDRB.sol:172-231 | The checks pass if and only if the root of the double hashes is the round's root and each of them has a signature with s at most half the curve order that recovers to someone with a place in the round. |
| Contract.RandomNumberHashesAll | contract/Commit2RevealDRB/Commit2RevealDRB.sol:172-240 | The number stored hashes all secrets, in an order that sorts them by the distance of their double hash from the hash of all single hashes. |
| Contract.RandomNumberUnique | contract/Commit2RevealDRB/Commit2RevealDRB.sol:172-240 | When these distances are distinct there is one such order: any sorted order, whatever the sort routine, gives the number stored. |
| Coordinators.Coordinator.RequestRandomNumber | contract/Commit2RevealDRB/Commit2RevealDRB.sol:53-101 | The method, with its loop over a copy while storage shrinks, is the specified call; when one operator cannot pay, nothing remains of the earlier debits and removals. |
| Coordinators.Coordinator.GenerateRandomNumber | contract/Commit2RevealDRB/Commit2RevealDRB.sol:163-275 | Hashing, ordering, root check, signature checks, callback and settlement together are the specified call; a failing settlement takes back the random number. |
| Merkle.GrowEndsInReduce | commit-reveal2/merkleTree.go:36-58 | The array of leaves and hashes refines the queue: its last hash is what remains of popping two and pushing their hash. |
| Merkle.ClosedForm | commit-reveal2/merkleTree.go:36-58 | With A = leaves followed by hashes, hash i is the hash of A[2i] and A[2i+1] — a heap read backwards — and the root is the last node. |
| Merkle.RootDetermined | commit-reveal2/merkleTree.go:36-58 | Any list that begins with the leaves and goes on with the hash of its entries 2i and then 2i + 1 ends in the root: the recurrence fixes root and operand order. |
| Merkle.Balanced | commit-reveal2/merkleTree.go:36-58 | Every leaf depth lies between ⌊log2 n⌋ and ⌈log2 n⌉, and the height ⌈log2 n⌉ is reached. |
| Merkle.HashPairs | commit-reveal2/merkleTree.go:30-58 | The two-cursor loop reads only slots already written, and its reads are positions 0, 1, 2, … in turn: every leaf and every hash but the root is consumed exactly once. |
| Merkle.CreateMerkleTree | commit-reveal2/merkleTree.go:12-64 | The leader's version: fails exactly for fewer than two leaves; otherwise the root of the queue reduction of the padded leaves, which it leaves padded in the caller's array. |
| Merkle.CreateMerkleRoot | contract/Commit2RevealDRB/Commit2RevealDRB.sol:298-316 | The contract's version: the same root, and no result exactly for fewer than two leaves. |
| Merkle.EqualRootsEqualLeaves | contract/Commit2RevealDRB/Commit2RevealDRB.sol:298-316 | Binding: equal roots of leaf lists of equal length force equal lists. |
| Merkle.EqualRootsEqualOpenings | contract/Commit2RevealDRB/Commit2RevealDRB.sol:298-316 | Binding without a length: if leaves are hashes of 32-byte words, equal roots force equal lists of words. |
| Merkle.RootForgetsLength | contract/Commit2RevealDRB/Commit2RevealDRB.sol:298-316 | Why the length or the origin of leaves matters: for any hash, three leaves and two leaves can share a root. |
| EndToEnd.ProtocolCompletes | nodes/leaderNode.go:315-383 | After any interleaving of the leader's threads, a root it handed over and an operator of the round put on chain lets the monitor's data through, so that the settlement alone decides the outcome of generateRandomNumber. |
| NodesToLeader.ProtocolCompletesForNodes | nodes/leaderNode.go:116-383 | After any interleaving in which the messages are the nodes' own, a root handed over and put on chain lets the monitor's data through as soon as each operator's secret and a signature over its CVS are stored. |
| NodesToLeader.StoredSecretIsHonest | nodes/leaderNode.go:134-207 | If messages are the nodes' own, then under every interleaving the CVS that memory holds is the double hash of the secret that the file holds for the key. |
| EndToEnd.CollectedDataVerifies | contract/Commit2RevealDRB/Commit2RevealDRB.sol:163-231 | The collected secrets and signatures pass the contract's root check and every signature check. |
| EndToEnd.AcceptedSecretsOpenLeaves | contract/Commit2RevealDRB/Commit2RevealDRB.sol:175-198 | If the contract accepts secrets against a root over n hashed COS values, there are n of them and secret i opens COS i and leaf i. |
| EndToEnd.AcceptedSecretsOpenEqualLeaves | contract/Commit2RevealDRB/Commit2RevealDRB.sol:175-198 | For leaves of unknown origin and no more accepted secrets than leaves, there are as many of both and secret i opens leaf i by double hashing. |
| LeaderSafety.RunKept | nodes/leaderNode.go:116-554 | Every schedule keeps the invariant; memory moves forward, stored orders stay, submitted roots are only added. |
| LeaderSafety.StoredCosOpensCvs | nodes/leaderNode.go:182-207 | Under every interleaving, with stale whole-file writes by handlers, the secret handler and the monitor, each record in memory or file with a COS holds the CVS that this COS hashes to. |
| LeaderSafety.MemoryMovesForward | nodes/leaderNode.go:288-312 | In memory a nonzero CVS or COS never changes and the submitted mark never resets, between any two moments of any run. |
| LeaderSafety.OneRootPerRound | nodes/leaderNode.go:315-383 | All roots handed to the contract for a round and operator list in one run are the same value, even when several threads pass the already-submitted check. |
| LeaderSafety.RevealOrderWrittenOnce | commit-reveal2/reveal_order.go:95-163 | A round's reveal order never changes once stored, whatever other rounds do; one stored during the run comes from exactly one opened nonzero COS per operator. |
| LeaderSafety.StoredOrderIsByCos | commit-reveal2/reveal_order.go:121-158 | In terms of the records it was made from: rv is the hash of their COS values, each nonzero and hashing to the CVS beside it, and the nodes are their operators by distance of these values from rv. |
| LeaderSafety.OrderListsEveryOperator | commit-reveal2/reveal_order.go:121-158 | When it is stored, the order lists every operator then known for the round exactly once, and no one else. |
| LeaderHandlers.CosHandled | nodes/leaderNode.go:182-228 | A COS that opens the CVS held is stored in memory and file; then, with every CVS there, a root is sought if none is marked, and the order is determined under the same lock if one is. |
| LeaderHandlers.CosAfterRoot | nodes/leaderNode.go:179-228 | With the root marked, every CVS received and every COS then in the file, the handler of the last COS stores the order, by the COS values of the file, and starts the requests, in any order of going through the operators. |
| LeaderHandlers.RootHandedOver | nodes/leaderNode.go:315-383 | With no root marked, at least two operators and a CVS for each, exactly one root is handed over: that of the CVS values in the order of the list without address(0). |
| LeaderHandlers.SecretHandled | nodes/leaderNode_helper/secret_value_handler.go:38-55 | A secret joins the record in the file; its CVS, COS, signature and marks stay, and so does every other record. |
| OrdinaryRun.OrdinaryPath | nodes/leaderNode.go:116-472 | For every round of two operators some schedule from empty files hands one root over, the hash of the first CVS followed by the second, marks it, and after the two COS messages stores the order by the COS values and starts the requests once. |
| LeaderSources.ValuesComeFromSource | nodes/leaderNode.go:116-229 | If every message brings its part of one commitment per key, then under every interleaving each CVS, COS and secret in memory and file is zero or that commitment's. |
| LeaderSources.MemoryHoldsNoSecret | nodes/leaderNode.go:116-229 | Under every interleaving no record in memory, and none that a commit, COS or mark save carries, holds a secret. |
| RevealOrder.RevealListsEachOnce | commit-reveal2/reveal_order.go:121-149 | For any enumeration of the operators, ordered_nodes lists each exactly once, each aligned with its own COS, by nondecreasing distance. |
| RevealOrder.RevealUnique | commit-reveal2/reveal_order.go:30-56 | If no two distances are equal, any two sorting routines, stable or not, give the same stored order. |
| Monitor.CollectSecrets | nodes/leaderNode_helper/monitor_commits.go:60-113 | The collection is ready if and only if every operator can be passed; then the four arrays are index-aligned with the operators that have a secret; otherwise it names one operator at which it stopped and why. |
| Monitor.ReadyCoversEveryone | nodes/leaderNode_helper/monitor_commits.go:70-113 | When every operator has a usable record or is registered, readiness means that all secrets and signatures are there, and the arrays are aligned with the whole list. |
| RevealChain.AskedIsPrefix | nodes/leaderNode_helper/reveal_requests.go:46-149 | Over any mix of starts, responses and failed sends, each taken whole, the asked nodes are the first k registered nodes of the order, and k never falls. |
| RevealChain.AskedTwiceExactly | nodes/leaderNode_helper/reveal_requests.go:46-149 | Events taken whole, from an empty status: no node is asked twice if and only if no start is sent after an event that was sent; and then, and only then, the status is a prefix of the order restricted to registered nodes, node for node. |
| RevealChain.RacingHandlersKeepPrefix | nodes/leaderNode_helper/reveal_requests.go:46-149 | When handlers interleave without a lock, each look at the status and each append a step of its own, the asked nodes are still the first k registered nodes of the order, and k never falls. |
| RevealChain.RacingRepeatsExactly | nodes/leaderNode_helper/reveal_requests.go:46-149 | Handlers racing: no node is asked twice if and only if none was before and each append finds its node not yet in the status, which a second look under a lock would test. |
| RevealChain.FreshRacesFollowOrder | nodes/leaderNode_helper/reveal_requests.go:46-149 | As long as appends find their nodes fresh, the status is a prefix of the order restricted to registered nodes, node for node. |
| SecondStart.RequestsStartTwice | nodes/leaderNode.go:210-228 | For every round of two operators some schedule of the leader, from empty files, starts its requests twice: two COS handlers wait in generateMerkleRoot, the first stores the order, the second finds it stored. |
| RevealChain.OneStartGivesPrefix | nodes/leaderNode_helper/reveal_requests.go:46-149 | With one start, then responses, and successful sends, the status is exactly the prefix of length 1 + responses of the order restricted to registered nodes. |
| RevealChain.StepAsksNext | nodes/leaderNode_helper/reveal_requests.go:103-150 | A response whose send succeeds adds exactly the next registered node until all are asked, so the number of unasked nodes falls by one; no other event but the first start changes the set of asked nodes. |
| RegularNodes.OneCommitmentPerRound | nodes/regularNode.go:171-256 | Over any run a round's stored commitment is the first one made; all that is sent for the round is its CVS, COS or secret; a CVS is sent at most once per round; every stored commitment is a hash chain. |
| RegularNodes.PollCommits | nodes/regularNode.go:205-233 | A poll of a round without root, number and entry stores one commitment, whose secret hashes round, address and time, and sends its CVS with the signature; without a signature it sends nothing. |
| RegularNodes.SentMessagesChain | nodes/regularNode.go:264-292 | Messages of one round fit together across a run: what is received as CVS is the hash of any COS and the double hash of any secret received for the round. |
| RegularNodes.CosOnlyAfterRoot | nodes/regularNode.go:219-256 | The very event of a run at which a COS goes out is a poll that shows the round's Merkle root on chain, and no number yet. |
| RegularNodes.CosSentOnce | nodes/regularNode.go:219-256 | If writing the sent flag succeeds, each round's COS is sent at most once over any run. |
| Commitments.SecretInputInjective | commit-reveal2/commit.go:28-31 | Packing is unambiguous: rounds, operators and times below 2^256 that give the same hashed string are the same. |
| KeyStore.ParseInverts | nodes/leaderNode_helper/monitor_commits.go:338-350 | Parsing inverts key construction for every round string when the EOA has no '+'. |
| KeyStore.WriteOnePair | utils/leaderNodeData.go:91-103 | The flat store simulates a two-level map: a write at one pair is read back there and changes no other pair. |
| KeyStore.GetEOAsForRounds | nodes/leaderNode_helper/monitor_commits.go:316-335 | Every round's group holds exactly the addresses its keys name, each once, for any order of the keys. |
| ContractRuns.StepKeepsGood | contract/Commit2RevealDRB/Commit2RevealDRB.sol:53-402 | One call of any kind keeps the storage invariant, the ledger law, and the match between round tables and bookkeeping. |
| ContractRuns.ContributionValues | contract/Commit2RevealDRB/Commit2RevealDRB.sol:251-273 | What a request leaves in the contract: (N+1)·cost before settlement, exactly cost mod N < N after one, and with N ≥ 2 a deficit if and only if it was settled twice or more at a nonzero cost. |
| ContractRuns.HeldIsContributions | contract/Commit2RevealDRB/Commit2RevealDRB.sol:251-273 | If no request was settled twice, the ledger law's right-hand side is what is held for open requests plus remainders. |
| ContractRuns.OneRequestSolvency | contract/Commit2RevealDRB/Commit2RevealDRB.sol:251-273 | In terms of the history, for one request: the balance covers the deposits if and only if it was settled at most once or cost nothing. |
| ContractRuns.SettlementLeavesVerification | contract/Commit2RevealDRB/Commit2RevealDRB.sol:172-231 | Secrets and signatures that were accepted once pass the root and signature checks again. |
| ContractRuns.OnlyItsRequestRewrites | contract/Commit2RevealDRB/Commit2RevealDRB.sol:71-99 | In every sound state, with no bound, the only call that changes a requested round's tables is a request that takes its number again, and it replaces them by its own. |
| ContractRuns.StepKeepsRound | contract/Commit2RevealDRB/Commit2RevealDRB.sol:71-99 | One call of any kind, a new request included, changes nothing of a requested round's operator snapshot, index map and request info before the counter wraps. |
| Contract.ApplySound | contract/Commit2RevealDRB/Commit2RevealDRB.sol:53-402 | Every successful call keeps the storage invariant: registry and index map inverse, active operators above the threshold, every round recorded with a roster of at least two operators. |
| Contract.RequestTables | contract/Commit2RevealDRB/Commit2RevealDRB.sol:71-92 | A request takes the next round number modulo 2^256, writes the tables of that round only, and records each snapshot operator at its own position. |
| Contract.WithdrawEffect | contract/Commit2RevealDRB/Commit2RevealDRB.sol:394-402 | withdraw succeeds if and only if deposit and balance cover the amount and the sender accepts it; only the sender's deposit falls, and the sender leaves the active set exactly when the rest is below the threshold. |
| Contract.DeactivationEffect | contract/Commit2RevealDRB/Commit2RevealDRB.sol:383-392 | deactivate succeeds if and only if the sender is active and not flagged; it removes exactly the sender and sets its flag. |
| Contract.ActivationEffect | contract/Commit2RevealDRB/Commit2RevealDRB.sol:365-373 | activate succeeds if and only if the sender is covered and inactive and there is room; it adds exactly the sender and clears its flag. |
| Contract.DepositAndActivateEffect | contract/Commit2RevealDRB/Commit2RevealDRB.sol:375-381 | depositAndActivate counts the payment first, adds exactly the sender, and, unlike activate, leaves the force-deactivated flag as it was. |
| Contract.FlaggedAndActive | contract/Commit2RevealDRB/Commit2RevealDRB.sol:375-392 | A flagged sender that depositAndActivate admits is active and still flagged; deactivate and activate are then both refused. |
| ContractRuns.FlaggedAndActiveReachable | contract/Commit2RevealDRB/Commit2RevealDRB.sol:375-392 | Three calls from deployment make any operator active and flagged, whatever the threshold. |
| Contract.DepositEffect | contract/Commit2RevealDRB/Commit2RevealDRB.sol:361-363 | deposit fails only on overflow; it adds to the sender's deposit, to the sum and to the balance, and changes nothing else. |
| Contract.DeployedSound | contract/Commit2RevealDRB/Commit2RevealDRB.sol:18-30 | A deployed contract satisfies the invariant and owes nothing. |
| Operators.ValidMeaning | contract/Commit2RevealDRB/Commit2RevealDRB.sol:404-428 | From the registry invariant: a positive index means membership, slots are pairwise distinct, address(0) is never active, and the active count is one less than the array length. |
| Operators.ActivateEffect | contract/Commit2RevealDRB/Commit2RevealDRB.sol:404-414 | _activate succeeds if and only if the operator is inactive and there is room; it adds exactly that operator and moves no index. |
| Operators.DeactivateEffect | contract/Commit2RevealDRB/Commit2RevealDRB.sol:416-428 | The swap-and-pop removal keeps array and index map inverse and removes exactly the operator, the last one included. |
| Operators.DebitOneEffect | contract/Commit2RevealDRB/Commit2RevealDRB.sol:90-99 | One pass of the debit loop: the index read is nonzero and current, the pass fails if and only if the deposit is short, and the operators not yet visited stay active. |
| Operators.DebitAllSucceeds | contract/Commit2RevealDRB/Commit2RevealDRB.sol:90-99 | The debit loop succeeds if and only if every operator from the current position on can pay, whatever was removed meanwhile. |
| Operators.DebitAllEffect | contract/Commit2RevealDRB/Commit2RevealDRB.sol:90-99 | The whole debit loop, from any position: who pays, who stays active, the positions recorded, and the sum of deposits. |
| Operators.CreditOneEffect | contract/Commit2RevealDRB/Commit2RevealDRB.sol:266-272 | One pass of the credit loop succeeds if and only if the credit does not overflow and a returning operator finds room; it credits one operator and activates it exactly when it is due to return. |
| Operators.CreditAllSucceeds | contract/Commit2RevealDRB/Commit2RevealDRB.sol:261-273 | The credit loop succeeds if and only if no credit overflows and all returning operators fit, judged on the state before the loop. |
| Operators.CreditAllEffect | contract/Commit2RevealDRB/Commit2RevealDRB.sol:261-273 | The whole credit loop: who is credited, who becomes active, which indices stay, and the sum of deposits. |
| Operators.TotalUpdate | contract/Commit2RevealDRB/Commit2RevealDRB.sol:94 | Writing one deposit changes the sum over all addresses by the difference. |
| Coordinators.Coordinator.Deposit | contract/Commit2RevealDRB/Commit2RevealDRB.sol:361-363 | Adds the value to the sender's deposit and to the balance; an overflow reverts and leaves no trace. |
| Coordinators.Coordinator.Activate | contract/Commit2RevealDRB/Commit2RevealDRB.sol:365-373 | All or nothing: the flag cleared before a failing _activate is restored. |
| Coordinators.Coordinator.DepositAndActivate | contract/Commit2RevealDRB/Commit2RevealDRB.sol:375-381 | All or nothing: a payment before a failing _activate is undone. |
| Coordinators.Coordinator.Deactivate | contract/Commit2RevealDRB/Commit2RevealDRB.sol:383-392 | Removal by swap-and-pop in the stored arrays is the specified call. |
| Coordinators.Coordinator.Withdraw | contract/Commit2RevealDRB/Commit2RevealDRB.sol:394-402 | The in-place update is the specified call; debit and removal come before the transfer, and a refused or uncovered transfer takes both back. |
| Coordinators.Coordinator.DebitSender | contract/Commit2RevealDRB/Commit2RevealDRB.sol:395-400 | Debit and removal together are the specified update. |
| Coordinators.Coordinator.RemoveOperator | contract/Commit2RevealDRB/Commit2RevealDRB.sol:416-428 | The five in-place writes make the specified swap-and-pop. |
| Coordinators.Coordinator.ChargeOperators | contract/Commit2RevealDRB/Commit2RevealDRB.sol:90-99 | Debits every operator, or no one. |
| Coordinators.Coordinator.DebitOperators | contract/Commit2RevealDRB/Commit2RevealDRB.sol:90-99 | The loop computes the specified debits for all remaining operators. |
| Coordinators.Coordinator.DebitOperator | contract/Commit2RevealDRB/Commit2RevealDRB.sol:91-95 | One pass reads the operator's current index, debits and removes as specified, and keeps the operators not yet visited active. |
| Coordinators.Coordinator.SubmitMerkleRoot | contract/Commit2RevealDRB/Commit2RevealDRB.sol:152-161 | Only an operator of the round succeeds, and only that round's root changes. |
| Coordinators.Coordinator.VerifySecrets | contract/Commit2RevealDRB/Commit2RevealDRB.sol:172-231 | True if and only if root and signatures verify; the order sorts the secrets by distance of their leaves. |
| Coordinators.Coordinator.CheckAndActivateIfNotForceDeactivated | contract/Commit2RevealDRB/Commit2RevealDRB.sol:318-331 | Activates exactly a returning operator; fails only when the registry is full. |
| Coordinators.Coordinator.HashSecrets | contract/Commit2RevealDRB/Commit2RevealDRB.sol:172-178 | The loop gives the single and double hashes of the secrets, index by index. |
| Coordinators.Coordinator.RevealOrder | contract/Commit2RevealDRB/Commit2RevealDRB.sol:179-188 | The order sorts the secrets by distance between the hash of all COS values and the CVS, as a permutation. |
| Coordinators.Coordinator.CheckSignatures | contract/Commit2RevealDRB/Commit2RevealDRB.sol:206-231 | True if and only if every leaf has a low-s signature of an operator of the round. |
| Coordinators.Coordinator.SettleRound | contract/Commit2RevealDRB/Commit2RevealDRB.sol:252-273 | Settles the round or leaves no trace. |
| Coordinators.Coordinator.CreditOperators | contract/Commit2RevealDRB/Commit2RevealDRB.sol:261-273 | The loop computes the specified credits and activations. |
| Merkle.TwoLeaves | commit-reveal2/merkleTree.go:69-74 | The root of two leaves is the hash of the first followed by the second. |
| Merkle.VersionsAgree | commit-reveal2/merkleTree.go:20-28 | On 32-byte leaves the Go and the Solidity root are equal. |
| Merkle.DepthIsLog | commit-reveal2/merkleTree.go:36-58 | Depth of a node by its position: 2^d ≤ 2n − 1 − p < 2^(d+1). |
| Merkle.InnerNode | commit-reveal2/merkleTree.go:36-58 | Counted from the root, node r hashes nodes 2r + 2 and 2r + 1, whatever the number of leaves. |
| Merkle.EqualRootsAgree | commit-reveal2/merkleTree.go:36-58 | Equal roots of two trees, of equal sizes or not, force equal nodes down to the leaves of the smaller, if the hash is collision free on the strings the trees hash. |
| Merkle.LeafIsNotInner | contract/Commit2RevealDRB/Commit2RevealDRB.sol:298-316 | A tree over hashes of 32-byte words never has the root of a longer tree, whatever the leaves of that one. |
| EndToEnd.SameLeaves | nodes/leaderNode_helper/monitor_commits.go:70-113 | If every stored CVS is the double hash of its stored secret, the secrets the monitor collects hash twice to exactly the leaves the leader hashed, in order. |
| NodesToLeader.SentIsDelivered | nodes/regularNode.go:171-292 | Whatever a node sends under a key is the part of the one commitment that it keeps for the round. |
| LeaderSources.SavesDropSecrets | nodes/leaderNode.go:145-207 | So in every reachable state such a save, when it goes through, leaves no secret under its key in the file. |
| LeaderSources.SecretLost | nodes/leaderNode_helper/secret_value_handler.go:38-55 | A run that loses a stored secret: a commitment of the same key is saved after it. |
| LeaderSafety.MoveKept | nodes/leaderNode.go:116-472 | Every step of a thread keeps the invariant of shared state and its own, and disturbs no other thread: memory only moves forward, and only the lock holder moves it. |
| LeaderSafety.OthersKept | nodes/leaderNode.go:134-158 | What one thread holds between its steps stays right whatever another thread does, without the lock too. |
| LeaderSafety.RootsEqualExactly | nodes/leaderNode.go:315-383 | Any two roots handed over in a run, over equally many operators and a hash collision free on what the trees hash, are equal if and only if the CVS lists are. |
| LeaderSafety.OnlyOrderStoreAddsOrders | commit-reveal2/reveal_order.go:152-158 | No step but the last one of DetermineRevealOrder adds a round to the stored orders, and only its own round. |
| LeaderStore.LeavesStay | nodes/leaderNode.go:346-367 | Leaves read under the lock remain the leaves of every later memory, although the lock is released before they are hashed. |
| LeaderTraces.UpdateIsThread | nodes/leaderNode.go:453-472 | What the update loop computes, for any choice of failing writes, is what one thread does step by step from an accepted root to its return. |
| LeaderHandlers.CommitHandled | nodes/leaderNode.go:134-158 | A commit message keeps the first CVS and signature of its key, in memory and file; a root is sought exactly when no record of the round is marked and every operator has a CVS. |
| LeaderHandlers.CommitNotSaved | nodes/leaderNode.go:137-148 | When the record cannot be saved, at most an empty record is made and nothing follows. |
| LeaderHandlers.CosRejected | nodes/leaderNode.go:182-197 | Without a CVS, with another hash, or with a COS already stored, a COS changes no record. |
| LeaderHandlers.CosNotSaved | nodes/leaderNode.go:203-206 | A COS that cannot be saved leaves memory and file as they were. |
| LeaderHandlers.OrderInWords | commit-reveal2/reveal_order.go:121-158 | What a thread stores for an enumeration of operators: rv hashes their COS values in the file, nodes are the operators by distance of their own, one start is added, all else stays. |
| LeaderHandlers.SecretWithoutRecord | nodes/leaderNode_helper/secret_value_handler.go:38-55 | Without a record that can be read, the file gains one with the secret and nothing else. |
| LeaderHandlers.NoRootHandedOver | nodes/leaderNode.go:315-383 | With a marked root or a CVS missing none is. |
| LeaderHandlers.RoundMarked | nodes/leaderNode.go:453-472 | After an accepted root exactly the round's records whose write succeeds are marked, in memory and file. |
| LeaderHandlers.RoundHandled | nodes/leaderNode.go:516-554 | A polled round's operators join those known; a pending round with every CVS has its root sought. |
| LeaderHandlers.MonitorWrites | nodes/leaderNode_helper/monitor_commits.go:291-303 | The monitor writes back the copy it decoded, with exactly the round's records completed. |
| LeaderTraces.OrderIsThread | commit-reveal2/reveal_order.go:95-163 | What DetermineRevealOrder stores for any enumeration of the operators is what a thread stores that picks them in that order. |
| LeaderTraces.StoredOrderIsThread | commit-reveal2/reveal_order.go:106-110 | A stored round is left alone, returns no error, and has its requests started again. |
| LeaderTraces.NoOrderIsThread | commit-reveal2/reveal_order.go:112-137 | What the method fails on, a thread fails on: no operators, or an operator without a COS in the file. |
| LeaderTraces.FailedOrderIsThread | commit-reveal2/reveal_order.go:95-163 | A file error ends a thread before or during the loading, with nothing stored and nothing started. |
| LeaderNodes.LeaderNode.IsMerkleRootSubmitted | nodes/leaderNode.go:231-245 | True if and only if some record of the round carries the mark. |
| LeaderNodes.LeaderNode.AllCommitsReceived | nodes/leaderNode.go:266-284 | True if and only if the round has operators and each has a record with a CVS. |
| LeaderNodes.LeaderNode.CollectLeaves | nodes/leaderNode.go:346-367 | Leaves exist if and only if every operator but address(0) has a CVS, and then are those CVS values in list order. |
| LeaderNodes.LeaderNode.AddActivated | nodes/leaderNode.go:524-537 | The round gains exactly the nonzero operators of the poll; other rounds are untouched. |
| LeaderNodes.LeaderNode.UpdateCommitDataAfterSubmit | nodes/leaderNode.go:453-472 | Exactly the round's records whose save succeeds are marked, in memory and file alike; no other record changes in either. |
| LeaderNodes.LeaderNode.DetermineRevealOrder | commit-reveal2/reveal_order.go:95-163 | An existing round is left alone; otherwise it succeeds if and only if the files can be read and written and every operator's stored record has a COS; rv then hashes exactly these COS values, and the nodes are the operators, each once, by distance of their own from rv. |
| LeaderNodes.LeaderNode.CollectCos | commit-reveal2/reveal_order.go:121-139 | The loop gives the operators, each once, with the COS that the file holds for each, or fails exactly when one is missing or unreadable. |
| LeaderNodes.LeaderNode.AcceptSecretValue | nodes/leaderNode_helper/secret_value_handler.go:38-58 | The method is the composition of one thread's steps; the secret joins the file's record, whose CVS, COS, signature and marks stay, or a new one when none can be read. |
| LeaderNodes.LeaderNode.HandleCommitRequest | nodes/leaderNode.go:116-159 | The method is the composition of one thread's steps; a saved record keeps its first CVS and signature, in memory and file alike, and a root is sought exactly when none is marked and every CVS is there. |
| LeaderNodes.LeaderNode.HandleCOSRequest | nodes/leaderNode.go:161-229 | The method is the composition of one thread's steps; a COS is stored if and only if a CVS is held, the COS hashes to it and none was stored; with every CVS there it goes on to the root if none is marked, and to the order otherwise. |
| LeaderStore.NonZeroKeeps | nodes/leaderNode_helper/monitor_commits.go:155-163 | Filtering keeps exactly the nonzero entries, and changes nothing when there is no address(0). |
| LeaderStore.NonZeroOfBoth | nodes/leaderNode_helper/monitor_commits.go:155-163 | And it keeps their order: the filtered parts of a list follow one another. |
| RevealOrder.DetermineOrder | commit-reveal2/reveal_order.go:30-56 | The order is a permutation of all indices by nondecreasing distance. |
| RevealOrder.OrderedAddresses | commit-reveal2/reveal_order.go:141-149 | The index-assigned arrays are the operators and COS values in that order. |
| Sorting.UniqueOrder | commit-reveal2/reveal_order.go:45-48 | A sorting permutation of pairwise distinct keys is unique. |
| Sorting.InsertionSorts | commit-reveal2/reveal_order.go:45-48 | The specification of sorting that the model relies on can be met: insertion gives a sorted permutation for all keys. |
| Monitor.NobodySkipped | nodes/leaderNode_helper/monitor_commits.go:82-86 | No operator is left out of the arrays when all have a secret. |
| RevealChain.RevealRequests.StartSecretValueRequests | nodes/leaderNode_helper/reveal_requests.go:17-62 | The loop asks the first registered node of the order, at most one. |
| RevealChain.RevealRequests.HandleSecretValueResponse | nodes/leaderNode_helper/reveal_requests.go:103-150 | The loop asks the first registered node not asked before, at most one. |
| RevealChain.NextIsFirstUnasked | nodes/leaderNode_helper/reveal_requests.go:133-149 | When the first k registered nodes of the order have been asked, the search finds node k, or none at the end. |
| RevealChain.RepeatsExactly | nodes/leaderNode_helper/reveal_requests.go:46-149 | From any prefix as status: no node is asked twice if and only if no start is sent once something has been sent. |
| RevealChain.SecondStartRepeats | nodes/leaderNode_helper/reveal_requests.go:50-61 | For every order with a registered node a second start repeats the first one, with no race: a start does not read the status. |
| SecondStart.WaitingStartsAgain | nodes/leaderNode.go:210-228 | In every state with a stored order and all CVS received, a COS handler that returns from generateMerkleRoot starts the requests of its round again. |
| RevealChain.RacingAsksTwice | nodes/leaderNode_helper/reveal_requests.go:46-149 | For every order whose first node is registered a race repeats that node: a response looks at the status before the append of the start. |
| RevealChain.AloneIsEvent | nodes/leaderNode_helper/reveal_requests.go:46-149 | A handler that runs without interruption does what the whole event does. |
| Commitments.GenerateCommit | commit-reveal2/commit.go:15-50 | Fails exactly when the round is not a number; otherwise COS is the hash of the secret, CVS the hash of COS, and the secret the hash of 84 bytes: 32 that read as the round, the operator's 20, 32 that read as the time. |
| Commitments.EqualSecrets | commit-reveal2/commit.go:28-31 | With a hash that does not collide on the two strings, secrets are equal if and only if round, operator and time are. |
| Commitments.SecretHashesParts | commit-reveal2/commit.go:28-31 | The string hashed into a secret, read back part by part. |
| Commitments.IntToBytesValue | commit-reveal2/commit.go:78-80 | A number below 2^256 becomes 32 bytes that read back as the number. |
| Commitments.AbiEncodeWord | commit-reveal2/commit.go:33-39 | A 32-byte word encodes to itself, so the node and the contract hash the same string. |
| RegularNodes.RegularNode.ProcessRound | nodes/regularNode.go:171-256 | The branches of the polling loop are the specified step. |
| RegularNodes.RegularNode.SendCommitToLeader | nodes/regularNode.go:455-514 | The CVS goes out only after the signed entry was stored. |
| RegularNodes.RegularNode.HandleSecretValueRequest | nodes/regularNode_helper/secretValueHandler.go:17-74 | The stored secret goes out only for a valid request and a nonzero secret; the store does not change. |
| RegularNodes.StepKeeps | nodes/regularNode.go:171-256 | One poll or secret request keeps the stored commitments, only adds messages, and each message carries a part of the commitment stored for its round. |
| RegularNodes.PollReveals | nodes/regularNode.go:235-252 | A poll that shows a root and no number sends the stored COS and then notes that it did, if the note can be written. |
| RegularNodes.PollRests | nodes/regularNode.go:171-256 | In every other case a poll changes and sends nothing. |
| RegularNodes.SecretAnswers | nodes/regularNode_helper/secretValueHandler.go:17-74 | A valid request is answered with the stored nonzero secret; nothing else is sent and the store stays. |
| RegularNodes.CosRepeatsExactly | nodes/regularNode.go:236-252 | Over any run no round's COS is sent twice if and only if each poll that reveals finds the COS not sent before. |
| RegularNodes.CosSentTwice | nodes/regularNode.go:236-252 | Two revealing polls whose flag writes fail send the same COS twice, for every node and round. |
| KeyStore.ParseLeaderCommitKey | nodes/leaderNode_helper/monitor_commits.go:338-350 | The backward scan splits at the last '+', or gives two empty strings. |
| KeyStore.ComposeInverts | nodes/leaderNode_helper/monitor_commits.go:338-350 | Key construction inverts parsing for every key with a '+'. |
| KeyStore.ComposeInjective | utils/leaderNodeData.go:49 | Different (round, EOA) pairs have different keys. |
| RegularNodes.RegularNode.SaveCommitData | utils/commit.go:73-106 | Exactly the round's entry is replaced, or nothing when the file cannot be written. |
| RevealChain.RevealRequests.Send | nodes/leaderNode_helper/reveal_requests.go:64-100 | Only a request that was sent is recorded, for its round only. |
| LeaderNodes.LeaderNode.SaveLeaderCommitData | utils/leaderNodeData.go:74-117 | Exactly one record of the file is replaced, its hex form following a nonzero CVS; a file error changes nothing. |
| LeaderNodes.LeaderNode.LoadLeaderCommitData | utils/leaderNodeData.go:29-70 | The record of the key, with the hex form overriding the bytes, or nothing when it is missing or cannot be decoded. |
| LeaderNodes.LeaderNode.GetOrCreateLeaderCommitData | nodes/leaderNode.go:288-301 | The record of the key exists afterwards, new only if it was missing. |
| Coordinators.Coordinator.PushOperator | contract/Commit2RevealDRB/Commit2RevealDRB.sol:404-414 | The stored array and index map become those of the specified activation, or stay. |
| RevealChain.Contains | nodes/leaderNode_helper/reveal_requests.go:169-176 | Membership. |
| KeyStore.AppendIfNotExists | nodes/leaderNode_helper/monitor_commits.go:353-360 | Adds the element unless it is there. |
| Commitments.AbiEncodeLoop | commit-reveal2/commit.go:60-66 | The append loop pads each element to 32 bytes. |
| Commitments.AbiEncodePacked | commit-reveal2/commit.go:69-75 | The append loop concatenates. |
| RevealOrder.CalculateRV | commit-reveal2/reveal_order.go:17-27 | The loop hashes the concatenation of all COS values. |
| Merkle.PadInPlace | commit-reveal2/merkleTree.go:20-28 | Leaves are padded or cut to 32 bytes in place. |
| LeaderNodes.FilterOperators | nodes/leaderNode_helper/monitor_commits.go:155-163 | The loop keeps the order and drops address(0). |
| LeaderNodes.MarkRoundCompleted | nodes/leaderNode_helper/monitor_commits.go:291-303 | Exactly the records of the round are marked in the monitor's copy. |
| Coordinators.Coordinator.constructor | contract/Commit2RevealDRB/Commit2RevealDRB.sol:18-30 | The deployed storage. |
| Commitments.UintSplit | commit-reveal2/commit.go:78-80 | Value of a concatenation of byte strings. |
| Commitments.MagnitudeValue | commit-reveal2/commit.go:78-80 | Big-endian digits read back as the number. |
| Merkle.GrowFacts | commit-reveal2/merkleTree.go:36-58 | The array grows without changing what is written, to 2n − 1 nodes. |
| Monitor.AlignedExtends | nodes/leaderNode_helper/monitor_commits.go:95-112 | Appending one operator's data keeps the four arrays aligned. |

## Left out

- ContractRuns.RequestedRoundsAreFrozen: until the round counter wraps; `OnlyItsRequestRewrites` has no bound and names the one call that ends it.
- ContractRuns.AcceptedSignersAreOperators: membership in the snapshot until the round counter wraps, since a reused round keeps positions of its former operators; that the signer is not address(0) has no such bound.
- RevealChain.RacingHandlersKeepPrefix: an append to the status is one step; two appends at the same instant are a data race in Go, whose outcome is left open.
- LeaderSafety.OneRootPerRound: for one operator list per round; the list is a query result, and `RootsEqualExactly` says when two answers give one root.
- EndToEnd.ProtocolCompletes: takes the stored secrets and signatures of the round's operators as given at the moment of collection; `SecretLost` shows a stored secret that is gone later.
- NodesToLeader.ProtocolCompletesForNodes: messages are the nodes' own, since request signatures are not modelled, and each operator's secret is still stored when the data is collected.
- EndToEnd.AcceptedSecretsOpenEqualLeaves: for no more secrets than leaves; `RootForgetsLength` shows how two leaves of unknown origin can be met by three secrets' hashes.
- RevealChain.OneStartGivesPrefix: with one start, sends that succeed and events taken whole; `AskedTwiceExactly` and `RacingRepeatsExactly` cover the rest.
- RegularNodes.CosSentOnce: when the flag is written; `CosRepeatsExactly` has the exact condition without that, and `CosSentTwice` a repeat.
- Equality of the leader's reveal order with the contract's: the first measures distance to COS, the second to CVS.
- Reveal order of requests sent by the monitor, which asks whoever it misses first.
- Ether sent to the contract outside its payable calls: the ledger law counts payments through the calls.
- Price formula, L1 fees, flat fee: the price is an input; OptimismL1Fees is not part of this model.
- Gas forwarding to the consumer: the callback is impossible, fails or succeeds; DRBConsumerBase is not part of this model.
- EIP-712 digests and ecrecover: one abstract recovery function of round, leaf and signature.
- Commit2RevealDRBStorage and the Sort library are not part of this model; the order is taken as ascending.
- Setters of the owner, events and view functions.
- JSON formats, partial writes, rewriting without truncation, and reading a file during its rewriting: a write replaces the file or fails.
- Registration, activation and deposit top-up transactions, peer and address files, GraphQL, streams and logging.
- Hexadecimal and checksum forms of addresses: an address is a number.
- Signature check of incoming requests: a message that fails it never becomes an arrival.
- Generated contract bindings.
