/** Id lookups as the handler writes them, under JavaScript equality.

    The ABI decoder yields every uint256 argument as a bigint. The registry
    is keyed by numbers (`projectRegistry.size + 1`) and reward ids are
    numbers (`rewards.length + 1`). `Map.prototype.has` compares keys with
    SameValueZero and `find` compares with `===`; under both, a number is
    never equal to a bigint. So every project lookup with a decoded id
    misses, and so does the reward lookup of claimReward, whose project id is
    converted back to a number with `parseInt` but whose reward id is not.

    The rest of the model compares ids by value, which is what the handler
    evidently intends. */
module JsKeys {
  import opened Ledger
  import Transitions
  import Scenarios

  /** The two kinds of JavaScript numeric values that meet in a lookup. */
  datatype JsNumeric = Number(n: int) | BigInt(n: int)

  /** SameValueZero and `===` on numeric values: equal kind and equal value. */
  predicate SameValue(a: JsNumeric, b: JsNumeric)
  {
    match (a, b)
    case (Number(x), Number(y)) => x == y
    case (BigInt(x), BigInt(y)) => x == y
    case _ => false
  }

  /** The registry's keys as the handler stores them. */
  function StoredKeys(store: Store): set<JsNumeric>
  {
    set id | id in store :: Number(id)
  }

  /** `doesProjectExist(projectId)` with a decoded (bigint) project id. */
  predicate ProjectFoundAsWritten(store: Store, projectId: nat)
  {
    exists k :: k in StoredKeys(store) && SameValue(k, BigInt(projectId))
  }

  /** `rewards.find(r => r.id === rewardId)` with a decoded (bigint) reward
      id: true when some reward matches. */
  predicate RewardFoundAsWritten(rewards: seq<Reward>, rewardId: nat)
  {
    exists i :: 0 <= i < |rewards| && SameValue(Number(rewards[i].id), BigInt(rewardId))
  }

  /** The handler as written: the guards above replace the intended lookups.
      What follows a lookup in each branch is the intended transition; as
      written it is reached only by createProject. Whatever it accepts, it
      does exactly as the intended handler does, and a rejection changes
      nothing. */
  function ApplyAsWritten(store: Store, input: Input): (s: Step)
    ensures s.outcome.Reject? ==> s.store == store
    ensures s.outcome.Accept? ==> s == Transitions.Apply(store, input)
  {
    match input.payload
    case None => Step(Reject, store)
    case Some(op) =>
      if op.CreateProject? then Transitions.Apply(store, input)
      else if op.ClaimReward? then
        if op.projectId in store && store[op.projectId].status == Successful
           && !RewardFoundAsWritten(store[op.projectId].rewards, op.rewardId)
        then Step(Reject, store)
        else Transitions.Apply(store, input)
      else if !ProjectFoundAsWritten(store, op.projectId) then Step(Reject, store)
      else Transitions.Apply(store, input)
  }

  /** No decoded project id is ever found in the registry. */
  lemma DecodedProjectIdNeverFound(store: Store, projectId: nat)
    ensures !ProjectFoundAsWritten(store, projectId)
  {
  }

  /** No decoded reward id is ever found among a project's rewards. */
  lemma DecodedRewardIdNeverFound(rewards: seq<Reward>, rewardId: nat)
    ensures !RewardFoundAsWritten(rewards, rewardId)
  {
  }

  /** As written, createProject is the only operation that is ever accepted. */
  lemma OnlyCreateProjectAcceptedAsWritten(store: Store, input: Input)
    ensures ApplyAsWritten(store, input).outcome.Accept? ==> input.payload.value.CreateProject?
  {
    match input.payload
    case None =>
    case Some(op) =>
      if op.ClaimReward? {
        if op.projectId in store && store[op.projectId].status == Successful {
          DecodedRewardIdNeverFound(store[op.projectId].rewards, op.rewardId);
        }
      } else if !op.CreateProject? {
        DecodedProjectIdNeverFound(store, op.projectId);
      }
  }

  /** The input that shows it: a contribution of 60 to project 1 of a fresh
      registry before the deadline is rejected as written and accepted by
      the intended transition. */
  lemma ContributionRejectedAsWritten()
    ensures var input := Input(Scenarios.Bob, 5, Some(Contribute(1, 60)));
      && ApplyAsWritten(Scenarios.OneProject(), input).outcome == Reject
      && Transitions.Apply(Scenarios.OneProject(), input).outcome.Accept?
  {
    DecodedProjectIdNeverFound(Scenarios.OneProject(), 1);
  }

  /** The input that shows the reward lookup: on a successful project whose
      reward 1 has threshold 50, Bob with 60 is rejected as written and
      accepted by the intended transition. */
  lemma RewardClaimRejectedAsWritten()
    ensures var reward := Reward(1, "a seed packet", 50, {});
      var p := Scenarios.OneProject()[1].(status := Successful, rewards := [reward],
                                          contributors := map[Scenarios.Bob := 60]);
      var input := Input(Scenarios.Bob, 11, Some(ClaimReward(1, 1)));
      && ApplyAsWritten(map[1 := p], input).outcome == Reject
      && Transitions.Apply(map[1 := p], input).outcome.Accept?
  {
    var reward := Reward(1, "a seed packet", 50, {});
    DecodedRewardIdNeverFound([reward], 1);
  }
}
