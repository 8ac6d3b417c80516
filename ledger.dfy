/** Data model of the crowdfunding ledger: projects, their contributions and
    rewards, the decoded operations of the advance handler and what an
    operation hands back (accept with notices and vouchers, or reject). */
module Ledger {

  /** A sender address as delivered by the rollup metadata (`msg_sender`). */
  type Address = string

  /** Project ids: the registry key, assigned sequentially from 1. */
  type ProjectId = nat

  datatype Option<+T> = None | Some(value: T)

  /** Lifecycle of a project: active -> successful | failed | cancelled. */
  datatype Status = Active | Successful | Failed | Cancelled

  /** A reward tier of a project. `claimed` holds the addresses that have
      claimed it; being a set, an address appears in it at most once. */
  datatype Reward = Reward(id: nat, description: string, threshold: nat, claimed: set<Address>)

  /** A project record as stored in the registry. `totalFunds` is a JavaScript
      bigint and so an unbounded signed integer; amounts, goals and deadlines
      are decoded uint256 values. */
  datatype Project = Project(
    creator: Address,
    name: string,
    goal: nat,
    deadline: nat,
    description: string,
    totalFunds: int,
    contributors: map<Address, nat>,
    rewards: seq<Reward>,
    status: Status)

  /** The registry contents: project records keyed by id. */
  type Store = map<ProjectId, Project>

  /** The content of a notice emitted by an accepted operation. */
  datatype Event =
    | ProjectCreated(projectId: ProjectId, name: string, goal: nat, deadline: nat)
    | ContributionRecorded(projectId: ProjectId, amount: int, from: Address)
    | FundsWithdrawn(projectId: ProjectId, amount: int, to: Address)
    | RefundProcessed(projectId: ProjectId, amount: int, to: Address)
    | ProjectUpdated(projectId: ProjectId, name: string, goal: nat, deadline: nat)
    | ProjectCancelled(projectId: ProjectId)
    | RewardAdded(projectId: ProjectId, rewardId: nat, threshold: nat)
    | RewardClaimed(projectId: ProjectId, rewardId: nat, claimer: Address)

  /** What an operation hands to the outside world, in order: a notice, or a
      voucher directing `amount` to be transferred to `to`. */
  datatype Output = Notice(event: Event) | Voucher(to: Address, amount: int)

  /** The handler's answer: "accept" with its outputs, or "reject". */
  datatype Outcome = Accept(outputs: seq<Output>) | Reject

  /** A successfully decoded advance payload: one of the eight operations
      with its ABI arguments. */
  datatype Op =
    | CreateProject(name: string, goal: nat, deadline: nat, description: string)
    | Contribute(projectId: ProjectId, amount: nat)
    | WithdrawFunds(projectId: ProjectId)
    | Refund(projectId: ProjectId)
    | UpdateProject(projectId: ProjectId, name: string, goal: nat, deadline: nat, description: string)
    | CancelProject(projectId: ProjectId)
    | AddReward(projectId: ProjectId, description: string, threshold: nat)
    | ClaimReward(projectId: ProjectId, rewardId: nat)

  /** One advance input: the sender, the current time and the payload, which
      is `None` when it does not decode against the contract ABI. */
  datatype Input = Input(sender: Address, now: nat, payload: Option<Op>)

  /** The outcome of one operation together with the registry after it. */
  datatype Step = Step(outcome: Outcome, store: Store)

  /** The largest amount the ABI encoder accepts for a `uint256` argument.
      A voucher's `transfer(address,uint256)` payload with a larger amount
      makes the encoder throw, and the handler's catch then rejects. */
  const MaxUint256: int := 0x1_0000_0000_0000_0000_0000_0000_0000_0000_0000_0000_0000_0000_0000_0000_0000_0000 - 1

  /** Whether `x` can be encoded as a `uint256` voucher amount. */
  predicate EncodableAmount(x: int)
  {
    0 <= x <= MaxUint256
  }

  /** `contributors.get(a) || 0n`: the amount recorded for `a`, 0 if absent. */
  function AmountOf(contributors: map<Address, nat>, a: Address): nat
  {
    if a in contributors then contributors[a] else 0
  }

  /** `doesProjectExist`. */
  predicate DoesProjectExist(store: Store, id: ProjectId)
  {
    id in store
  }

  /** `isOwner`; the handler only asks after checking that the project exists. */
  predicate IsOwner(store: Store, id: ProjectId, sender: Address)
    requires id in store
  {
    store[id].creator == sender
  }
}
