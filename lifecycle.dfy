/** Properties of the status lifecycle and of repeated operations, for one
    input and for any sequence of inputs: a project leaves `active` at most
    once; once it has left, its status and fields are fixed apart from reward
    claims, and a failed or cancelled project does not change at all.
    Withdrawals and claims stay rejected after any further inputs. A refund
    repeated immediately is rejected, but a later one can be accepted once the
    deadline is extended and the sender contributes again. Owner-only
    operations reject everybody else. */
module Lifecycle {
  import opened Ledger
  import Transitions
  import Invariants

  /** `after` is `before` with possibly more addresses in each claimed set,
      and possibly more rewards appended. */
  ghost predicate RewardsExtend(before: seq<Reward>, after: seq<Reward>)
  {
    && |before| <= |after|
    && forall i :: 0 <= i < |before| ==>
         after[i] == before[i].(claimed := after[i].claimed) && before[i].claimed <= after[i].claimed
  }

  /** How a project record may change between two points in time: its
      creator never changes and rewards are only appended or claimed; once it
      has left `active` its status and everything but the claimed sets stay
      as they are, and a failed or cancelled project does not change at all. */
  ghost predicate Evolves(p: Project, q: Project)
  {
    && q.creator == p.creator
    && RewardsExtend(p.rewards, q.rewards)
    && (p.status != Active ==> q == p.(rewards := q.rewards) && |q.rewards| == |p.rewards|)
    && (p.status == Failed || p.status == Cancelled ==> q == p)
  }

  lemma EvolvesReflexive(p: Project)
    ensures Evolves(p, p)
  {
  }

  lemma EvolvesTransitive(p: Project, q: Project, r: Project)
    requires Evolves(p, q) && Evolves(q, r)
    ensures Evolves(p, r)
  {
    assert RewardsExtend(p.rewards, r.rewards) by {
      forall i | 0 <= i < |p.rewards|
        ensures r.rewards[i] == p.rewards[i].(claimed := r.rewards[i].claimed)
        ensures p.rewards[i].claimed <= r.rewards[i].claimed
      {
        assert q.rewards[i] == p.rewards[i].(claimed := q.rewards[i].claimed);
        assert r.rewards[i] == q.rewards[i].(claimed := r.rewards[i].claimed);
      }
    }
  }

  /** An accepted input that changed only project `id`, and that one as
      `Evolves` allows, keeps every project evolving as allowed. */
  lemma OneProjectEvolves(before: Store, after: Store, id: ProjectId)
    requires Transitions.OnlyProjectChanged(before, after, id)
    requires id in before && Evolves(before[id], after[id])
    ensures forall k :: k in before ==> k in after && Evolves(before[k], after[k])
  {
    forall k | k in before ensures k in after && Evolves(before[k], after[k]) {
      if k != id {
        EvolvesReflexive(before[k]);
      }
    }
  }

  /** A registry trivially evolves into itself. */
  lemma UnchangedEvolves(store: Store)
    ensures forall k :: k in store ==> Evolves(store[k], store[k])
  {
    forall k | k in store ensures Evolves(store[k], store[k]) {
      EvolvesReflexive(store[k]);
    }
  }

  /** Status moves forward only: every input keeps every project, and each
      project record evolves as `Evolves` allows. (The registry keys being
      1..size is what keeps createProject from overwriting a project.) */
  lemma StatusMovesForward(store: Store, input: Input)
    requires Invariants.IdsContiguous(store)
    ensures var after := Transitions.Apply(store, input).store;
      forall id :: id in store ==> id in after && Evolves(store[id], after[id])
  {
    var s := Transitions.Apply(store, input);
    if s.outcome.Reject? {
      UnchangedEvolves(store);
    } else {
      var op := input.payload.value;
      if op.CreateProject? {
        assert |store| + 1 !in store;
        UnchangedEvolves(store);
      } else {
        var id := op.projectId;
        var p, q := store[id], s.store[id];
        if op.AddReward? {
          forall i | 0 <= i < |p.rewards| ensures q.rewards[i] == p.rewards[i] {
            assert q.rewards[..|p.rewards|][i] == q.rewards[i];
          }
        }
        assert Evolves(p, q);
        OneProjectEvolves(store, s.store, id);
      }
    }
  }

  /** The registry after applying a whole sequence of inputs in order. */
  function Run(store: Store, inputs: seq<Input>): Store
    decreases |inputs|
  {
    if inputs == [] then store else Run(Transitions.Apply(store, inputs[0]).store, inputs[1..])
  }

  /** The registry invariant holds after any sequence of inputs. */
  lemma {:induction false} RunPreservesValid(store: Store, inputs: seq<Input>)
    requires Invariants.Valid(store)
    ensures Invariants.Valid(Run(store, inputs))
    decreases |inputs|
  {
    if inputs != [] {
      Invariants.ApplyPreservesValid(store, inputs[0]);
      RunPreservesValid(Transitions.Apply(store, inputs[0]).store, inputs[1..]);
    }
  }

  /** Over any sequence of inputs no project disappears and each one only
      evolves as allowed: a status other than active is final. */
  lemma {:induction false} RunEvolves(store: Store, inputs: seq<Input>)
    requires Invariants.Valid(store)
    ensures var after := Run(store, inputs);
      forall id :: id in store ==> id in after && Evolves(store[id], after[id])
    decreases |inputs|
  {
    if inputs == [] {
      forall id | id in store ensures Evolves(store[id], store[id]) {
        EvolvesReflexive(store[id]);
      }
    } else {
      var mid := Transitions.Apply(store, inputs[0]).store;
      StatusMovesForward(store, inputs[0]);
      Invariants.ApplyPreservesValid(store, inputs[0]);
      RunEvolves(mid, inputs[1..]);
      var after := Run(store, inputs);
      forall id | id in store ensures id in after && Evolves(store[id], after[id]) {
        EvolvesTransitive(store[id], mid[id], after[id]);
      }
    }
  }

  /** cancelProject returns nothing to the contributors, and afterwards no
      input can: the cancelled project's funds and contributions stay as they
      are for good. */
  lemma CancelledFundsStayLocked(store: Store, inputs: seq<Input>, id: ProjectId)
    requires Invariants.Valid(store)
    requires id in store && store[id].status == Cancelled
    ensures id in Run(store, inputs)
    ensures Run(store, inputs)[id] == store[id]
  {
    RunEvolves(store, inputs);
  }

  /** Once a withdrawal has been accepted, the same withdrawal, at any later
      time and by anybody, is rejected. */
  lemma WithdrawFundsOnce(store: Store, sender: Address, now: nat, id: ProjectId, sender': Address, now': nat)
    requires Transitions.WithdrawFunds(store, sender, now, id).outcome.Accept?
    ensures var after := Transitions.WithdrawFunds(store, sender, now, id).store;
      && after[id].status == Successful
      && Transitions.WithdrawFunds(after, sender', now', id).outcome.Reject?
  {
  }

  /** After an accepted withdrawal, whatever sequence of inputs follows, a
      further withdrawal of the same project, by anybody at any time, is
      rejected. */
  lemma WithdrawnStaysWithdrawn(store: Store, sender: Address, now: nat, id: ProjectId,
                                inputs: seq<Input>, sender': Address, now': nat)
    requires Invariants.Valid(store)
    requires Transitions.WithdrawFunds(store, sender, now, id).outcome.Accept?
    ensures var later := Run(Transitions.WithdrawFunds(store, sender, now, id).store, inputs);
      && id in later && later[id].status == Successful
      && Transitions.WithdrawFunds(later, sender', now', id).outcome.Reject?
  {
    var after := Transitions.WithdrawFunds(store, sender, now, id).store;
    Invariants.WithdrawFundsPreservesValid(store, sender, now, id);
    RunEvolves(after, inputs);
  }

  /** Once a refund has been accepted, the same sender's refund of the same
      project, repeated immediately at any time, is rejected. (It is not
      rejected for good: see Scenarios.SecondRefundAfterExtension.) */
  lemma RefundOnce(store: Store, sender: Address, now: nat, id: ProjectId, now': nat)
    requires Transitions.Refund(store, sender, now, id).outcome.Accept?
    ensures var after := Transitions.Refund(store, sender, now, id).store;
      && sender !in after[id].contributors
      && Transitions.Refund(after, sender, now', id).outcome.Reject?
  {
  }

  /** FindReward looks only at reward ids, so claims do not change its result. */
  lemma {:induction false} FindRewardIgnoresClaims(rewards: seq<Reward>, rewards': seq<Reward>, rewardId: nat)
    requires |rewards'| == |rewards|
    requires forall i :: 0 <= i < |rewards| ==> rewards'[i].id == rewards[i].id
    ensures Transitions.FindReward(rewards', rewardId) == Transitions.FindReward(rewards, rewardId)
  {
    if rewards != [] && rewards[0].id != rewardId {
      FindRewardIgnoresClaims(rewards[1..], rewards'[1..], rewardId);
    }
  }

  /** Each address claims a given reward at most once: an identical second
      claim is rejected. */
  lemma ClaimRewardOnce(store: Store, sender: Address, id: ProjectId, rewardId: nat)
    requires Transitions.ClaimReward(store, sender, id, rewardId).outcome.Accept?
    ensures var after := Transitions.ClaimReward(store, sender, id, rewardId).store;
      Transitions.ClaimReward(after, sender, id, rewardId).outcome.Reject?
  {
    var after := Transitions.ClaimReward(store, sender, id, rewardId).store;
    var p, q := store[id], after[id];
    var i := Transitions.FindReward(p.rewards, rewardId).value;
    FindRewardIgnoresClaims(p.rewards, q.rewards, rewardId);
    assert sender in q.rewards[i].claimed;
  }

  /** After an accepted claim, whatever sequence of inputs follows, the same
      sender's claim of the same reward is rejected. */
  lemma ClaimStaysRejected(store: Store, sender: Address, id: ProjectId, rewardId: nat, inputs: seq<Input>)
    requires Invariants.Valid(store)
    requires Transitions.ClaimReward(store, sender, id, rewardId).outcome.Accept?
    ensures var later := Run(Transitions.ClaimReward(store, sender, id, rewardId).store, inputs);
      Transitions.ClaimReward(later, sender, id, rewardId).outcome.Reject?
  {
    var after := Transitions.ClaimReward(store, sender, id, rewardId).store;
    var later := Run(after, inputs);
    Invariants.ClaimRewardPreservesValid(store, sender, id, rewardId);
    RunEvolves(after, inputs);
    RunPreservesValid(after, inputs);
    Invariants.FindRewardSequential(store[id].rewards, rewardId);
    Invariants.FindRewardSequential(after[id].rewards, rewardId);
    Invariants.FindRewardSequential(later[id].rewards, rewardId);
    var i := rewardId - 1;
    assert sender in after[id].rewards[i].claimed;
    assert after[id].rewards[i].claimed <= later[id].rewards[i].claimed;
  }

  /** The operations only the creator of a project may perform. */
  predicate OwnerOnly(op: Op)
  {
    op.WithdrawFunds? || op.UpdateProject? || op.CancelProject? || op.AddReward?
  }

  /** withdrawFunds, updateProject, cancelProject and addReward reject a
      sender who is not the creator of the project, whatever else holds. */
  lemma OwnerOnlyRejectsOthers(store: Store, input: Input)
    requires input.payload.Some? && OwnerOnly(input.payload.value)
    requires var id := input.payload.value.projectId;
      id !in store || store[id].creator != input.sender
    ensures Transitions.Apply(store, input).outcome.Reject?
    ensures Transitions.Apply(store, input).store == store
  {
  }
}
