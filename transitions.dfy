/** The eight operations of the advance handler as transitions of the
    registry. Each one checks all of its guards on the unchanged registry and
    either rejects, leaving the registry as it was, or accepts with the new
    registry and the notices and vouchers it emits.

    In the handler, project ids and reward ids arrive from the ABI decoder as
    bigints while registry keys and reward ids are numbers; here every id is a
    `nat` compared by value (see module JsKeys for the code as written). */
module Transitions {
  import opened Ledger

  /** `after` differs from `before` at most in the record of project `id`. */
  ghost predicate OnlyProjectChanged(before: Store, after: Store, id: ProjectId)
  {
    && after.Keys == before.Keys
    && id in after
    && forall k :: k in before && k != id ==> after[k] == before[k]
  }

  /** The record createProject stores: no funds, no contributors, no rewards. */
  function NewProject(creator: Address, name: string, goal: nat, deadline: nat, description: string): Project
  {
    Project(creator, name, goal, deadline, description, 0, map[], [], Active)
  }

  /** createProject never rejects: it stores a fresh active project under the
      id `size + 1`, created by the sender, and leaves other keys alone. */
  function CreateProject(store: Store, sender: Address, name: string, goal: nat, deadline: nat, description: string): (s: Step)
    ensures s.outcome == Accept([Notice(ProjectCreated(|store| + 1, name, goal, deadline))])
    ensures s.store.Keys == store.Keys + {|store| + 1}
    ensures var p := s.store[|store| + 1];
      && p.creator == sender && p.status == Active && p.totalFunds == 0
      && p.contributors == map[] && p.rewards == []
      && p.name == name && p.goal == goal && p.deadline == deadline && p.description == description
    ensures forall k :: k in store && k != |store| + 1 ==> s.store[k] == store[k]
  {
    var projectId := |store| + 1;
    Step(Accept([Notice(ProjectCreated(projectId, name, goal, deadline))]),
         store[projectId := NewProject(sender, name, goal, deadline, description)])
  }

  /** contribute: rejects an unknown project, a deadline already passed and a
      project that is not active; otherwise adds `amount` both to totalFunds
      and to the sender's entry, creating the entry if absent. */
  function Contribute(store: Store, sender: Address, now: nat, id: ProjectId, amount: nat): (s: Step)
    ensures s.outcome.Accept? <==> id in store && now <= store[id].deadline && store[id].status == Active
    ensures s.outcome.Reject? ==> s.store == store
    ensures s.outcome.Accept? ==> OnlyProjectChanged(store, s.store, id)
    ensures s.outcome.Accept? ==>
      var p, q := store[id], s.store[id];
      && s.outcome.outputs == [Notice(ContributionRecorded(id, amount, sender))]
      && q == p.(totalFunds := q.totalFunds, contributors := q.contributors)
      && q.totalFunds == p.totalFunds + amount
      && q.contributors.Keys == p.contributors.Keys + {sender}
      && AmountOf(q.contributors, sender) == AmountOf(p.contributors, sender) + amount
      && forall a :: a != sender ==> AmountOf(q.contributors, a) == AmountOf(p.contributors, a)
  {
    if !DoesProjectExist(store, id) then Step(Reject, store)
    else
      var p := store[id];
      if now > p.deadline || p.status != Active then Step(Reject, store)
      else
        var q := p.(totalFunds := p.totalFunds + amount,
                    contributors := p.contributors[sender := AmountOf(p.contributors, sender) + amount]);
        Step(Accept([Notice(ContributionRecorded(id, amount, sender))]), store[id := q])
  }

  /** withdrawFunds: only the creator, once the goal is reached and the
      deadline has passed, while active, and only while totalFunds fits the
      voucher's `uint256` (a larger amount makes the encoder throw, which
      rejects). The whole of totalFunds goes to the creator; totalFunds
      becomes 0 and the project successful. */
  function WithdrawFunds(store: Store, sender: Address, now: nat, id: ProjectId): (s: Step)
    ensures s.outcome.Accept? <==>
      && id in store && store[id].creator == sender
      && store[id].totalFunds >= store[id].goal && now > store[id].deadline
      && store[id].status == Active
      && EncodableAmount(store[id].totalFunds)
    ensures s.outcome.Reject? ==> s.store == store
    ensures s.outcome.Accept? ==> OnlyProjectChanged(store, s.store, id)
    ensures s.outcome.Accept? ==>
      var p, q := store[id], s.store[id];
      && s.outcome.outputs == [Voucher(p.creator, p.totalFunds), Notice(FundsWithdrawn(id, p.totalFunds, p.creator))]
      && q == p.(totalFunds := 0, status := Successful)
  {
    if !DoesProjectExist(store, id) || !IsOwner(store, id, sender) then Step(Reject, store)
    else
      var p := store[id];
      if p.totalFunds < p.goal || now <= p.deadline || p.status != Active then Step(Reject, store)
      else if !EncodableAmount(p.totalFunds) then Step(Reject, store)
      else
        var outputs := [Voucher(p.creator, p.totalFunds), Notice(FundsWithdrawn(id, p.totalFunds, p.creator))];
        Step(Accept(outputs), store[id := p.(totalFunds := 0, status := Successful)])
  }

  /** refund: any contributor with a nonzero amount, once the deadline has
      passed without the goal being reached, while active, and only while the
      amount fits the voucher's `uint256`. The sender's whole
      amount goes back to the sender, the entry is removed and the amount is
      taken off totalFunds; the project fails exactly when that leaves 0. */
  function Refund(store: Store, sender: Address, now: nat, id: ProjectId): (s: Step)
    ensures s.outcome.Accept? <==>
      && id in store && store[id].totalFunds < store[id].goal
      && now > store[id].deadline && store[id].status == Active
      && AmountOf(store[id].contributors, sender) != 0
      && EncodableAmount(AmountOf(store[id].contributors, sender))
    ensures s.outcome.Reject? ==> s.store == store
    ensures s.outcome.Accept? ==> OnlyProjectChanged(store, s.store, id)
    ensures s.outcome.Accept? ==>
      var p, q := store[id], s.store[id];
      var refunded := AmountOf(p.contributors, sender);
      && sender in p.contributors
      && s.outcome.outputs == [Voucher(sender, refunded), Notice(RefundProcessed(id, refunded, sender))]
      && q == p.(totalFunds := q.totalFunds, contributors := q.contributors, status := q.status)
      && q.totalFunds == p.totalFunds - refunded
      && q.contributors == p.contributors - {sender}
      && (q.status == Failed <==> q.totalFunds == 0)
      && (q.status == Active <==> q.totalFunds != 0)
  {
    if !DoesProjectExist(store, id) then Step(Reject, store)
    else
      var p := store[id];
      if p.totalFunds >= p.goal || now <= p.deadline || p.status != Active then Step(Reject, store)
      else
        var contributionAmount := AmountOf(p.contributors, sender);
        if contributionAmount == 0 then Step(Reject, store)
        else if !EncodableAmount(contributionAmount) then Step(Reject, store)
        else
          var outputs := [Voucher(sender, contributionAmount), Notice(RefundProcessed(id, contributionAmount, sender))];
          var remaining := p.totalFunds - contributionAmount;
          var q := p.(totalFunds := remaining,
                      contributors := p.contributors - {sender},
                      status := if remaining == 0 then Failed else p.status);
          Step(Accept(outputs), store[id := q])
  }

  /** updateProject: only the creator, while active; overwrites exactly the
      name, goal, deadline and description, without further validation. */
  function UpdateProject(store: Store, sender: Address, id: ProjectId, name: string, goal: nat, deadline: nat, description: string): (s: Step)
    ensures s.outcome.Accept? <==> id in store && store[id].creator == sender && store[id].status == Active
    ensures s.outcome.Reject? ==> s.store == store
    ensures s.outcome.Accept? ==> OnlyProjectChanged(store, s.store, id)
    ensures s.outcome.Accept? ==>
      var p, q := store[id], s.store[id];
      && s.outcome.outputs == [Notice(ProjectUpdated(id, name, goal, deadline))]
      && q == p.(name := name, goal := goal, deadline := deadline, description := description)
  {
    if !DoesProjectExist(store, id) || !IsOwner(store, id, sender) then Step(Reject, store)
    else
      var p := store[id];
      if p.status != Active then Step(Reject, store)
      else
        Step(Accept([Notice(ProjectUpdated(id, name, goal, deadline))]),
             store[id := p.(name := name, goal := goal, deadline := deadline, description := description)])
  }

  /** cancelProject: only the creator, while active; changes the status to
      cancelled and nothing else (contributions are not returned). */
  function CancelProject(store: Store, sender: Address, id: ProjectId): (s: Step)
    ensures s.outcome.Accept? <==> id in store && store[id].creator == sender && store[id].status == Active
    ensures s.outcome.Reject? ==> s.store == store
    ensures s.outcome.Accept? ==> OnlyProjectChanged(store, s.store, id)
    ensures s.outcome.Accept? ==>
      && s.outcome.outputs == [Notice(ProjectCancelled(id))]
      && s.store[id] == store[id].(status := Cancelled)
  {
    if !DoesProjectExist(store, id) || !IsOwner(store, id, sender) then Step(Reject, store)
    else
      var p := store[id];
      if p.status != Active then Step(Reject, store)
      else Step(Accept([Notice(ProjectCancelled(id))]), store[id := p.(status := Cancelled)])
  }

  /** addReward: only the creator, while active; appends a reward whose id is
      one more than the number of rewards so far, with nobody having claimed it. */
  function AddReward(store: Store, sender: Address, id: ProjectId, description: string, threshold: nat): (s: Step)
    ensures s.outcome.Accept? <==> id in store && store[id].creator == sender && store[id].status == Active
    ensures s.outcome.Reject? ==> s.store == store
    ensures s.outcome.Accept? ==> OnlyProjectChanged(store, s.store, id)
    ensures s.outcome.Accept? ==>
      var p, q := store[id], s.store[id];
      var rewardId := |p.rewards| + 1;
      && s.outcome.outputs == [Notice(RewardAdded(id, rewardId, threshold))]
      && q == p.(rewards := q.rewards)
      && |q.rewards| == rewardId
      && q.rewards[..|p.rewards|] == p.rewards
      && q.rewards[|p.rewards|] == Reward(rewardId, description, threshold, {})
  {
    if !DoesProjectExist(store, id) || !IsOwner(store, id, sender) then Step(Reject, store)
    else
      var p := store[id];
      if p.status != Active then Step(Reject, store)
      else
        var newReward := Reward(|p.rewards| + 1, description, threshold, {});
        Step(Accept([Notice(RewardAdded(id, newReward.id, threshold))]),
             store[id := p.(rewards := p.rewards + [newReward])])
  }

  /** `rewards.find(r => r.id === rewardId)`: the position of the first reward
      carrying `rewardId`, or None when no reward does. */
  function FindReward(rewards: seq<Reward>, rewardId: nat): (r: Option<nat>)
    ensures r.Some? ==> r.value < |rewards| && rewards[r.value].id == rewardId
    ensures r.Some? ==> forall j :: 0 <= j < r.value ==> rewards[j].id != rewardId
    ensures r.None? <==> forall j :: 0 <= j < |rewards| ==> rewards[j].id != rewardId
  {
    if rewards == [] then None
    else if rewards[0].id == rewardId then Some(0)
    else
      match FindReward(rewards[1..], rewardId)
      case None => None
      case Some(i) => Some(i + 1)
  }

  /** claimReward: only on a successful project, for an existing reward, by a
      sender whose recorded amount reaches the threshold and who has not yet
      claimed that reward; adds the sender to the reward's claimed set. */
  function ClaimReward(store: Store, sender: Address, id: ProjectId, rewardId: nat): (s: Step)
    ensures s.outcome.Accept? <==>
      && id in store && store[id].status == Successful
      && FindReward(store[id].rewards, rewardId).Some?
      && var r := store[id].rewards[FindReward(store[id].rewards, rewardId).value];
         AmountOf(store[id].contributors, sender) >= r.threshold && sender !in r.claimed
    ensures s.outcome.Reject? ==> s.store == store
    ensures s.outcome.Accept? ==> OnlyProjectChanged(store, s.store, id)
    ensures s.outcome.Accept? ==>
      var p, q := store[id], s.store[id];
      var i := FindReward(p.rewards, rewardId).value;
      && s.outcome.outputs == [Notice(RewardClaimed(id, rewardId, sender))]
      && q == p.(rewards := q.rewards)
      && |q.rewards| == |p.rewards|
      && q.rewards[i] == p.rewards[i].(claimed := p.rewards[i].claimed + {sender})
      && forall j :: 0 <= j < |p.rewards| && j != i ==> q.rewards[j] == p.rewards[j]
  {
    if !DoesProjectExist(store, id) then Step(Reject, store)
    else
      var p := store[id];
      if p.status != Successful then Step(Reject, store)
      else
        match FindReward(p.rewards, rewardId)
        case None => Step(Reject, store)
        case Some(i) =>
          var reward := p.rewards[i];
          var contributorAmount := AmountOf(p.contributors, sender);
          if contributorAmount < reward.threshold || sender in reward.claimed then Step(Reject, store)
          else
            var claimedReward := reward.(claimed := reward.claimed + {sender});
            Step(Accept([Notice(RewardClaimed(id, rewardId, sender))]),
                 store[id := p.(rewards := p.rewards[i := claimedReward])])
  }

  /** The advance handler: a payload that does not decode is rejected, a
      decoded one is dispatched to its operation. A rejection never changes
      the registry and no operation removes a project. */
  function Apply(store: Store, input: Input): (s: Step)
    ensures input.payload.None? ==> s.outcome.Reject?
    ensures s.outcome.Reject? ==> s.store == store
    ensures store.Keys <= s.store.Keys
  {
    match input.payload
    case None => Step(Reject, store)
    case Some(op) =>
      var sender, now := input.sender, input.now;
      match op
      case CreateProject(name, goal, deadline, description) =>
        CreateProject(store, sender, name, goal, deadline, description)
      case Contribute(id, amount) => Contribute(store, sender, now, id, amount)
      case WithdrawFunds(id) => WithdrawFunds(store, sender, now, id)
      case Refund(id) => Refund(store, sender, now, id)
      case UpdateProject(id, name, goal, deadline, description) =>
        UpdateProject(store, sender, id, name, goal, deadline, description)
      case CancelProject(id) => CancelProject(store, sender, id)
      case AddReward(id, description, threshold) => AddReward(store, sender, id, description, threshold)
      case ClaimReward(id, rewardId) => ClaimReward(store, sender, id, rewardId)
  }
}
