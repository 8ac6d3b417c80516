# Crowdfunding ledger

A Dafny model of the crowdfunding application's core, which is a Cartesi rollup back end written in TypeScript. It covers:

- the in-memory project registry;
- the advance handler, which decodes one of eight operations from an input, checks its guards and then updates the registry, emitting notices and vouchers, or rejects;
- the three inspect queries, which read the registry.

Each project record holds:

- a creator, a name, a goal, a deadline and a description;
- `totalFunds`;
- a map from contributor address to amount contributed;
- a list of rewards, each with an id, a threshold and the set of addresses that have claimed it;
- a status: `active`, `successful`, `failed` or `cancelled`.

The model is laid out in these modules:

- `Ledger`: the records, operations, notices, vouchers and outcomes (`ledger.dfy`).
- `Transitions`: each of the eight operations as a pure function from the registry to an outcome and a new registry. `Apply` is the handler that dispatches to them (`transitions.dfy`).
- `Handler.Registry`: the registry as a class with a `projects` map field. Each method checks its guards in the order the handler does and updates the stored record. Each method is proved to produce the outcome and new registry of the matching transition, and to keep the registry invariant (`registry.dfy`).
- `Invariants`: the registry invariant and a preservation lemma for each operation (`invariants.dfy`). The invariant has four parts:
  - project ids are exactly 1..size;
  - `totalFunds` equals the sum of the contributions, except after a withdrawal;
  - reward ids are 1..n in order;
  - every claim was made on a successful project by a contributor whose amount reaches the reward's threshold.
- `Sums` supports the invariant with the sum of a contribution map (`sums.dfy`).
- `Lifecycle`: properties over any sequence of inputs. A project leaves `active` at most once. Once it has left, its status and fields are fixed apart from reward claims, and a failed or cancelled project does not change at all. Withdrawals and claims stay rejected after any further inputs. A refund repeated immediately by the same sender is rejected, but a contributor can be refunded again once updateProject extends the deadline and they contribute again. Owner-only operations reject other senders (`lifecycle.dfy`).
- `Queries`: `project/:projectId`, `projects` and `contributions/:address`. The last one is a loop proved against a recursive specification (`queries.dfy`).
- `Scenarios`: concrete runs (`scenarios.dfy`).
- `JsKeys`: the id lookups as the handler writes them, under JavaScript equality (`js_keys.dfy`; see Findings).

Time is the input's `now: nat`, in the same unit as the deadline. An undecodable payload is an input whose `payload` is `None`.

## Model

| member | source | states |
|---|---|---|
| Handler.Registry.constructor | src/index.ts:29 | The registry starts empty and satisfies the registry invariant. |
| Handler.Registry.CreateProject | src/index.ts:55-74 | Produces the createProject transition's outcome and registry, and keeps the invariant. |
| Handler.Registry.Contribute | src/index.ts:76-96 | Produces the contribute transition's outcome and registry, and keeps the invariant. |
| Handler.Registry.WithdrawFunds | src/index.ts:98-127 | Produces the withdrawFunds transition's outcome and registry, and keeps the invariant. |
| Handler.Registry.Refund | src/index.ts:129-160 | Produces the refund transition's outcome and registry, and keeps the invariant. |
| Handler.Registry.UpdateProject | src/index.ts:162-180 | Produces the updateProject transition's outcome and registry, and keeps the invariant. |
| Handler.Registry.CancelProject | src/index.ts:182-195 | Produces the cancelProject transition's outcome and registry, and keeps the invariant. |
| Handler.Registry.AddReward | src/index.ts:197-218 | Produces the addReward transition's outcome and registry, and keeps the invariant. |
| Handler.Registry.ClaimReward | src/index.ts:220-244 | Produces the claimReward transition's outcome and registry, and keeps the invariant. |
| Handler.Registry.Advance | src/index.ts:38-249 | Dispatches a decoded input to its operation and rejects an undecodable one. The result equals `Transitions.Apply`, and the invariant is kept. |
| Transitions.CreateProject | src/index.ts:55-74 | Always accepts. Stores an active project under id size+1 with the sender as creator, zero funds, no contributors and no rewards. Other projects are untouched. The notice carries the new id. |
| Transitions.Contribute | src/index.ts:76-96 | Accepts iff the project exists, the deadline has not passed and the project is active. On accept, adds the amount to totalFunds and to the sender's entry, creating the entry if absent. Nothing else changes. On reject, the registry is unchanged. |
| Transitions.WithdrawFunds | src/index.ts:98-127 | Accepts iff the project exists, the sender is its creator, funds reach the goal, the deadline has passed, the project is active and totalFunds fits a `uint256`. A larger amount makes the voucher encoder throw, and the catch at lines 246-247 rejects. On accept, emits a voucher of the whole totalFunds to the creator and a notice, then sets totalFunds to 0 and the status to successful. On reject, the registry is unchanged. |
| Transitions.Refund | src/index.ts:129-160 | Accepts iff the project exists, funds are below the goal, the deadline has passed, the project is active, and the sender's amount is nonzero and fits a `uint256`. On accept, vouchers that amount back to the sender, removes the sender's entry and subtracts the amount from totalFunds. The status becomes failed exactly when totalFunds reaches 0. |
| Transitions.UpdateProject | src/index.ts:162-180 | Accepts iff the project exists, the sender is its creator and it is active. On accept, overwrites exactly name, goal, deadline and description. On reject, the registry is unchanged. |
| Transitions.CancelProject | src/index.ts:182-195 | Accepts iff the project exists, the sender is its creator and it is active. On accept, only the status changes, to cancelled. On reject, the registry is unchanged. |
| Transitions.AddReward | src/index.ts:197-218 | Accepts iff the project exists, the sender is its creator and it is active. On accept, appends an unclaimed reward with id equal to the old reward count plus one. Existing rewards are kept. |
| Transitions.FindReward | src/index.ts:226-230 | Returns the position of the first reward with the given id, or None exactly when no reward has that id. |
| Transitions.ClaimReward | src/index.ts:220-244 | Accepts iff the project exists and is successful, the reward exists, the sender's amount reaches its threshold and the sender has not already claimed it. On accept, only that reward's claimed set changes, gaining the sender. |
| Transitions.Apply | src/index.ts:38-54 | An undecodable payload is rejected. A rejection leaves the registry unchanged. No input removes a project. |
| Sums.SumRemove | src/index.ts:155-156 | Removing a contributor's entry takes exactly that entry's amount off the sum of contributions. |
| Sums.SumAdd | src/index.ts:85-90 | Adding an amount to one contributor's entry, or creating the entry, adds exactly that amount to the sum. |
| Invariants.EmptyValid | src/index.ts:29 | The empty registry satisfies the invariant. |
| Invariants.TotalFundsNonNegative | src/index.ts:155 | In a valid project totalFunds is never negative, so a refund cannot drive it below 0. |
| Invariants.UnsuccessfulUnclaimed | src/index.ts:225 | A valid project that is not successful has no claims on any reward. |
| Invariants.CreateProjectPreservesValid | src/index.ts:57-68 | The id size+1 is free, the registry grows by exactly one, existing projects are kept and the invariant holds. |
| Invariants.ContributePreservesValid | src/index.ts:85-90 | contribute keeps totalFunds equal to the sum of contributions, and keeps the rest of the invariant. |
| Invariants.WithdrawFundsPreservesValid | src/index.ts:125-126 | withdrawFunds keeps the invariant: totalFunds is 0 and the project is successful. |
| Invariants.RefundPreservesValid | src/index.ts:155-159 | refund keeps totalFunds equal to the sum of the remaining contributions. |
| Invariants.UpdateProjectPreservesValid | src/index.ts:171-174 | updateProject keeps the invariant. |
| Invariants.CancelProjectPreservesValid | src/index.ts:191 | cancelProject keeps the invariant. |
| Invariants.AddRewardPreservesValid | src/index.ts:206-212 | The new reward gets the next id in sequence, so reward ids stay 1..n. |
| Invariants.ClaimRewardPreservesValid | src/index.ts:231-238 | Every claim recorded is by a contributor whose amount reaches the threshold, on a successful project. |
| Invariants.ApplyPreservesValid | src/index.ts:38-249 | Every input, accepted or rejected, keeps the registry invariant. |
| Invariants.FindRewardSequential | src/index.ts:226-230 | In a valid project the reward with id k, for 1 ≤ k ≤ n, is found at position k-1. Any other id is not found. |
| Lifecycle.StatusMovesForward | src/index.ts:76-244 | One input keeps every project and its creator. Rewards are only appended or claimed. A project that has left active keeps its status and its fields apart from claims. A failed or cancelled project does not change. |
| Lifecycle.RunPreservesValid | src/index.ts:38-249 | After any sequence of inputs the registry invariant still holds. |
| Lifecycle.RunEvolves | src/index.ts:38-249 | Over any sequence of inputs no project disappears and each evolves only forward, as in StatusMovesForward. |
| Lifecycle.CancelledFundsStayLocked | src/index.ts:182-195 | A cancelled project's funds and contributions stay exactly as they are after any sequence of inputs. |
| Lifecycle.WithdrawFundsOnce | src/index.ts:106-127 | After an accepted withdrawal the project is successful, and an immediately repeated withdrawal of it, by anybody at any time, is rejected. |
| Lifecycle.WithdrawnStaysWithdrawn | src/index.ts:106-127 | After an accepted withdrawal and any sequence of further inputs, the project is still successful and a further withdrawal of it is rejected. |
| Lifecycle.RefundOnce | src/index.ts:139-160 | After an accepted refund the sender has no entry, and an immediately repeated refund by the same sender, at any time, is rejected. |
| Lifecycle.ClaimStaysRejected | src/index.ts:233-238 | After an accepted claim and any sequence of further inputs, the same sender's claim of the same reward is rejected. |
| Lifecycle.ClaimRewardOnce | src/index.ts:233-238 | After an accepted claim, the identical claim is rejected. |
| Lifecycle.OwnerOnlyRejectsOthers | src/index.ts:98-205 | withdrawFunds, updateProject, cancelProject and addReward reject, with no change, a sender who is not the project's creator. |
| Queries.GetProject | src/index.ts:253-276 | Not found exactly for an unknown id. Otherwise returns the project's fields, the number of contributor entries and, per reward, its id, description, threshold and number of claimers. |
| Queries.ListProjects | src/index.ts:278-289 | Lists every project exactly once, in insertion order (ascending id), with its summary. |
| Queries.ContributionsUpTo | src/index.ts:291-303 | Every entry is a project where the address's amount is nonzero, with that amount. Entries are in strictly increasing id order. |
| Queries.ContributionsComplete | src/index.ts:295-299 | Every project where the address has a nonzero amount is listed. |
| Queries.Contributions | src/index.ts:291-303 | The loop over the registry returns exactly the specified contributions list. |
| Scenarios.WithdrawAfterGoalReached | src/index.ts:76-127 | Contributions of 60 and 50 toward a goal of 100 lead to a withdrawal of 110 to the creator, leaving a successful project. |
| Scenarios.OverflowingWithdrawalRejected | src/index.ts:112-119 | Contributions of 2^256-1 and 1 make totalFunds too large for the voucher. The withdrawal is rejected with no change, and so is a refund, so the project stays active with its funds. |
| Scenarios.RefundUntilFailed | src/index.ts:129-160 | Refunding the lone contribution removes it, zeroes the funds and fails the project. |
| Scenarios.SecondRefundAfterExtension | src/index.ts:129-180 | Bob is refunded while the project stays active. Alice extends the deadline, Bob contributes again, and Bob's second refund of the same project is accepted. |
| Scenarios.LateContributionRejected | src/index.ts:80-84 | A contribution after the deadline is rejected with no change. |
| Scenarios.RewardClaimedOnce | src/index.ts:197-244 | A reward added, reached and claimed after withdrawal is claimed once. The second claim is rejected. |
| Ledger.DoesProjectExist | src/index.ts:32 | `doesProjectExist`: the project id is a key of the registry, with ids compared by value. |
| Ledger.IsOwner | src/index.ts:35-36 | `isOwner`: the sender is the stored project's creator. It is only asked about an existing project, because each guard checks existence first. |
| Ledger.AmountOf | src/index.ts:88 | `contributors.get(a)` defaulting to `0n` (also at lines 140 and 232): the recorded amount, or 0 for an address with no entry. |
| JsKeys.ProjectFoundAsWritten | src/index.ts:32 | `doesProjectExist` as written: some number key of the registry is SameValueZero-equal to the decoded bigint id. Its property is JsKeys.DecodedProjectIdNeverFound. |
| JsKeys.RewardFoundAsWritten | src/index.ts:226-229 | The reward `find` as written: some number reward id is `===` to the decoded bigint id. Its property is JsKeys.DecodedRewardIdNeverFound. |
| JsKeys.ApplyAsWritten | src/index.ts:38-249 | The handler with its id lookups as written. A rejection changes nothing, and whatever it accepts it does exactly as Transitions.Apply does. Its property is JsKeys.OnlyCreateProjectAcceptedAsWritten: only createProject is ever accepted. |
| JsKeys.DecodedProjectIdNeverFound | src/index.ts:32 | A bigint project id is never found among the registry's number keys. |
| JsKeys.DecodedRewardIdNeverFound | src/index.ts:226-229 | A bigint reward id never matches a number reward id under `===`. |
| JsKeys.OnlyCreateProjectAcceptedAsWritten | src/index.ts:38-249 | As written, every accepted input is a createProject. |
| JsKeys.ContributionRejectedAsWritten | src/index.ts:76-78 | A timely contribution to an existing active project is rejected as written, but accepted by the intended transition. |
| JsKeys.RewardClaimRejectedAsWritten | src/index.ts:220-230 | A valid claim on a successful project is rejected as written, but accepted by the intended transition. |

## Left out

- The rollup framework's wiring is not modelled: starting the app, the router and the `accept`/`reject` plumbing. The handler's outcome is `Accept(outputs)` or `Reject`.
- ABI decoding of the payload is not modelled. A payload that fails to decode is the input `None`, which the handler rejects through its catch block. Arguments are taken as already decoded naturals, and the `uint256` bound on decoded arguments is not modelled. The bound is modelled where it causes a rejection: encoding a voucher amount above 2^256-1.
- Notice texts are not modelled. The hex-encoded human-readable strings are replaced by structured `Event` values that carry the same fields.
- The voucher payload is not modelled. The ABI-encoded `transfer(address,uint256)` call is `Voucher(to, amount)`, where `to` is both the destination and the transfer recipient.
- The clock is not modelled. `Date.now()` is the input's `now`. The model does not capture the `Number(deadline)` conversion, which loses precision above 2^53: comparisons here are on exact integers.
- JSON serialisation in the queries, and the `toString` of amounts, are not modelled. The project query's `id` echoes the URL string. Here it is the numeric id that `Number(projectId)` looks up, and a URL string that is not a number is not modelled.
- Queries.GetProject and Queries.ListProjects return the projection the code evidently intends; as written, serialising it throws. `deadline` is stored as the decoder's bigint (src/index.ts:56, 163) and is passed to `JSON.stringify` unconverted (src/index.ts:263, 286), while every other bigint gets `toString`. `JSON.stringify` throws on a bigint, so as written `project/:projectId` fails for every existing project and `projects` fails for every non-empty registry.
- Records are mutated in place in the source. Because each record is referenced only from the registry, each update is modelled as storing the updated record back under its key.
- Queries.ListProjects and Queries.Contributions require the registry invariant's ids-are-1..size part. The source walks the map in insertion order; under that invariant (which every input preserves), insertion order is ascending id order.
- Queries.ContributionsUpTo states soundness and order. Completeness is the separate lemma Queries.ContributionsComplete.
- An exception inside an operation ends in the catch block's rejection, before any change to the registry. One kind is modelled as a rejection: a voucher amount too large for the `uint256` encoder, in withdrawFunds and refund. `isOwner` on a missing project cannot throw, because the `||` in each guard checks existence first.
- Validation is reproduced as absent, as in the source. createProject and updateProject accept any name, goal, deadline and description, including a deadline in the past or a zero goal.
- cancelProject returns no funds, and refund then rejects a cancelled project, so its contributions stay locked. This is reproduced as written and stated by Lifecycle.CancelledFundsStayLocked.
- After withdrawFunds, totalFunds is 0 while the contributor entries remain. The invariant is therefore stated as "totalFunds equals the sum of contributions unless successful", which is what the code keeps, rather than as an unconditional equality.
- Rejections carry no reason. The handler returns a bare `reject`.

## Findings

| source | as written | input that shows it | evidently intended | confidence | as-written member | corrected member |
|---|---|---|---|---|---|---|
| src/index.ts:32, 77-78, 99-104, 130-131, 163-168, 183-188, 198-203 | The project id is passed to `projectRegistry.has` as the decoder's bigint. The registry's keys are numbers (`size + 1`), and SameValueZero never equates a bigint with a number, so the lookup always misses. | On a fresh registry with Alice's project 1 (goal 100, deadline 10), Bob contributes 60 to project 1 at time 5. As written this is rejected, and so is every operation except createProject. | Ids compare by value, so the contribution is accepted. | high, not executed | JsKeys.ContributionRejectedAsWritten | Transitions.Contribute |
| src/index.ts:226-230 | claimReward converts the project id to a number, but compares the reward id, still a bigint, with `===` against the number reward ids, so no reward is ever found. | A successful project 1 has reward 1 with threshold 50, and Bob has 60 recorded. Bob claims reward 1 of project 1. As written this is rejected. | The reward whose id equals the requested id is found and the claim is accepted. | high, not executed | JsKeys.RewardClaimRejectedAsWritten | Transitions.ClaimReward |
