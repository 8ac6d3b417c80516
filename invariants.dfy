/** The registry invariant and its preservation by every operation:
    ids are exactly 1..size, funds agree with contributions, reward ids are
    1..n in order and every claim was made on a successful project by a
    contributor who reached the threshold. */
module Invariants {
  import opened Ledger
  import opened Sums
  import Transitions

  /** The keys of the registry are exactly 1..size. */
  ghost predicate IdsContiguous(store: Store)
  {
    forall id :: id in store <==> 1 <= id <= |store|
  }

  /** totalFunds is the sum of the live contributions, except after a
      withdrawal, which zeroes totalFunds and leaves the contributions. */
  ghost predicate FundsConsistent(p: Project)
  {
    if p.status == Successful then p.totalFunds == 0 else p.totalFunds == Sum(p.contributors)
  }

  /** Reward ids are 1..n in order. */
  ghost predicate RewardIdsSequential(rewards: seq<Reward>)
  {
    forall i :: 0 <= i < |rewards| ==> rewards[i].id == i + 1
  }

  /** Claims exist only on a successful project, and each claimer's recorded
      amount reaches the threshold of the reward claimed. */
  ghost predicate ClaimsJustified(p: Project)
  {
    forall i :: 0 <= i < |p.rewards| ==>
      forall a :: a in p.rewards[i].claimed ==>
        p.status == Successful && AmountOf(p.contributors, a) >= p.rewards[i].threshold
  }

  ghost predicate ProjectValid(p: Project)
  {
    FundsConsistent(p) && RewardIdsSequential(p.rewards) && ClaimsJustified(p)
  }

  ghost predicate Valid(store: Store)
  {
    IdsContiguous(store) && forall id :: id in store ==> ProjectValid(store[id])
  }

  /** The registry starts empty and valid. */
  lemma EmptyValid()
    ensures Valid(map[])
  {
  }

  /** totalFunds is never negative in a valid project. */
  lemma TotalFundsNonNegative(p: Project)
    requires ProjectValid(p)
    ensures p.totalFunds >= 0
  {
  }

  /** No reward of the sequence has been claimed by anybody. */
  ghost predicate Unclaimed(rewards: seq<Reward>)
  {
    forall i :: 0 <= i < |rewards| ==> rewards[i].claimed == {}
  }

  /** A project that is not successful has no claims on its rewards. */
  lemma UnsuccessfulUnclaimed(p: Project)
    requires ClaimsJustified(p) && p.status != Successful
    ensures Unclaimed(p.rewards)
  {
    forall i | 0 <= i < |p.rewards| ensures p.rewards[i].claimed == {} {
      assert forall a :: a !in p.rewards[i].claimed;
    }
  }

  /** Without claims there is nothing to justify. */
  lemma UnclaimedJustified(p: Project)
    requires Unclaimed(p.rewards)
    ensures ClaimsJustified(p)
  {
  }

  /** createProject picks an id that is not yet taken, keeps every existing
      project and the keys stay exactly 1..size. */
  lemma CreateProjectPreservesValid(store: Store, sender: Address, name: string, goal: nat, deadline: nat, description: string)
    requires Valid(store)
    ensures var s := Transitions.CreateProject(store, sender, name, goal, deadline, description);
      && |store| + 1 !in store
      && |s.store| == |store| + 1
      && (forall id :: id in store ==> id in s.store && s.store[id] == store[id])
      && Valid(s.store)
  {
    var s := Transitions.CreateProject(store, sender, name, goal, deadline, description);
    var n := |store| + 1;
    assert n !in store;
    assert |s.store| == n by {
      assert s.store.Keys == store.Keys + {n};
      assert |s.store.Keys| == |store.Keys| + 1;
    }
    assert ProjectValid(s.store[n]);
  }

  lemma ContributePreservesValid(store: Store, sender: Address, now: nat, id: ProjectId, amount: nat)
    requires Valid(store)
    ensures Valid(Transitions.Contribute(store, sender, now, id, amount).store)
  {
    var s := Transitions.Contribute(store, sender, now, id, amount);
    if s.outcome.Accept? {
      var p, q := store[id], s.store[id];
      assert q.contributors == p.contributors[sender := AmountOf(p.contributors, sender) + amount];
      SumAdd(p.contributors, sender, amount);
      UnsuccessfulUnclaimed(p);
      UnclaimedJustified(q);
      assert ProjectValid(q);
    }
  }

  lemma WithdrawFundsPreservesValid(store: Store, sender: Address, now: nat, id: ProjectId)
    requires Valid(store)
    ensures Valid(Transitions.WithdrawFunds(store, sender, now, id).store)
  {
    var s := Transitions.WithdrawFunds(store, sender, now, id);
    if s.outcome.Accept? {
      UnsuccessfulUnclaimed(store[id]);
      UnclaimedJustified(s.store[id]);
      assert ProjectValid(s.store[id]);
    }
  }

  /** A refund leaves totalFunds equal to the remaining contributions, so it
      can only reach 0 when nothing remains to be refunded. */
  lemma RefundPreservesValid(store: Store, sender: Address, now: nat, id: ProjectId)
    requires Valid(store)
    ensures Valid(Transitions.Refund(store, sender, now, id).store)
  {
    var s := Transitions.Refund(store, sender, now, id);
    if s.outcome.Accept? {
      var p, q := store[id], s.store[id];
      SumRemove(p.contributors, sender);
      UnsuccessfulUnclaimed(p);
      UnclaimedJustified(q);
      assert ProjectValid(q);
    }
  }

  lemma UpdateProjectPreservesValid(store: Store, sender: Address, id: ProjectId, name: string, goal: nat, deadline: nat, description: string)
    requires Valid(store)
    ensures Valid(Transitions.UpdateProject(store, sender, id, name, goal, deadline, description).store)
  {
    var s := Transitions.UpdateProject(store, sender, id, name, goal, deadline, description);
    if s.outcome.Accept? {
      UnsuccessfulUnclaimed(store[id]);
      UnclaimedJustified(s.store[id]);
      assert ProjectValid(s.store[id]);
    }
  }

  lemma CancelProjectPreservesValid(store: Store, sender: Address, id: ProjectId)
    requires Valid(store)
    ensures Valid(Transitions.CancelProject(store, sender, id).store)
  {
    var s := Transitions.CancelProject(store, sender, id);
    if s.outcome.Accept? {
      UnsuccessfulUnclaimed(store[id]);
      UnclaimedJustified(s.store[id]);
      assert ProjectValid(s.store[id]);
    }
  }

  lemma AddRewardPreservesValid(store: Store, sender: Address, id: ProjectId, description: string, threshold: nat)
    requires Valid(store)
    ensures Valid(Transitions.AddReward(store, sender, id, description, threshold).store)
  {
    var s := Transitions.AddReward(store, sender, id, description, threshold);
    if s.outcome.Accept? {
      var p, q := store[id], s.store[id];
      assert forall i :: 0 <= i < |p.rewards| ==> q.rewards[i] == p.rewards[i] by {
        forall i | 0 <= i < |p.rewards| ensures q.rewards[i] == p.rewards[i] {
          assert q.rewards[..|p.rewards|][i] == q.rewards[i];
        }
      }
      UnsuccessfulUnclaimed(p);
      UnclaimedJustified(q);
      assert ProjectValid(q);
    }
  }

  lemma ClaimRewardPreservesValid(store: Store, sender: Address, id: ProjectId, rewardId: nat)
    requires Valid(store)
    ensures Valid(Transitions.ClaimReward(store, sender, id, rewardId).store)
  {
    var s := Transitions.ClaimReward(store, sender, id, rewardId);
    if s.outcome.Accept? {
      assert ProjectValid(s.store[id]);
    }
  }

  /** Every input, accepted or rejected, keeps the registry valid. */
  lemma ApplyPreservesValid(store: Store, input: Input)
    requires Valid(store)
    ensures Valid(Transitions.Apply(store, input).store)
  {
    match input.payload
    case None =>
    case Some(op) =>
      var sender, now := input.sender, input.now;
      match op
      case CreateProject(name, goal, deadline, description) =>
        CreateProjectPreservesValid(store, sender, name, goal, deadline, description);
      case Contribute(id, amount) => ContributePreservesValid(store, sender, now, id, amount);
      case WithdrawFunds(id) => WithdrawFundsPreservesValid(store, sender, now, id);
      case Refund(id) => RefundPreservesValid(store, sender, now, id);
      case UpdateProject(id, name, goal, deadline, description) =>
        UpdateProjectPreservesValid(store, sender, id, name, goal, deadline, description);
      case CancelProject(id) => CancelProjectPreservesValid(store, sender, id);
      case AddReward(id, description, threshold) => AddRewardPreservesValid(store, sender, id, description, threshold);
      case ClaimReward(id, rewardId) => ClaimRewardPreservesValid(store, sender, id, rewardId);
  }

  /** In a valid project the reward with id `k` sits at position `k - 1`. */
  lemma FindRewardSequential(rewards: seq<Reward>, rewardId: nat)
    requires RewardIdsSequential(rewards)
    ensures Transitions.FindReward(rewards, rewardId) == if 1 <= rewardId <= |rewards| then Some(rewardId - 1) else None
  {
    if 1 <= rewardId <= |rewards| {
      assert rewards[rewardId - 1].id == rewardId;
    }
  }
}
