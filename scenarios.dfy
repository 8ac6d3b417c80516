/** Worked runs of the ledger on concrete inputs: a funded project paid out
    to its creator, an underfunded one refunded until it fails, a late
    contribution, and a reward claimed once. */
module Scenarios {
  import opened Ledger
  import Transitions

  const Alice: Address := "alice"
  const Bob: Address := "bob"
  const Carol: Address := "carol"

  /** A registry holding one project of Alice's with goal 100 and deadline 10. */
  function OneProject(): (store: Store)
    ensures 1 in store && store[1].creator == Alice && store[1].goal == 100 && store[1].deadline == 10
    ensures store[1].status == Active && store[1].totalFunds == 0 && store[1].contributors == map[]
  {
    Transitions.CreateProject(map[], Alice, "garden", 100, 10, "a community garden").store
  }

  /** Contributions of 60 and 50 before the deadline reach 110; after the
      deadline the creator withdraws all 110 and the project succeeds. */
  lemma WithdrawAfterGoalReached()
    ensures var s1 := Transitions.Contribute(OneProject(), Bob, 5, 1, 60);
      var s2 := Transitions.Contribute(s1.store, Carol, 6, 1, 50);
      var w := Transitions.WithdrawFunds(s2.store, Alice, 11, 1);
      && s1.outcome.Accept? && s2.outcome.Accept?
      && s2.store[1].totalFunds == 110
      && w.outcome == Accept([Voucher(Alice, 110), Notice(FundsWithdrawn(1, 110, Alice))])
      && w.store[1].totalFunds == 0 && w.store[1].status == Successful
  {
    var s1 := Transitions.Contribute(OneProject(), Bob, 5, 1, 60);
    var s2 := Transitions.Contribute(s1.store, Carol, 6, 1, 50);
    assert s2.store[1].totalFunds == 110;
  }

  /** Contributions of 2^256 - 1 and 1 push totalFunds past what the
      voucher's `uint256` can carry: the withdrawal is rejected with no
      change, the project stays active, and a refund is rejected too because
      the goal was reached, so the funds stay where they are. */
  lemma OverflowingWithdrawalRejected()
    ensures var s1 := Transitions.Contribute(OneProject(), Bob, 5, 1, MaxUint256);
      var s2 := Transitions.Contribute(s1.store, Carol, 6, 1, 1);
      var w := Transitions.WithdrawFunds(s2.store, Alice, 11, 1);
      var r := Transitions.Refund(s2.store, Bob, 11, 1);
      && s1.outcome.Accept? && s2.outcome.Accept?
      && s2.store[1].totalFunds == MaxUint256 + 1
      && w == Step(Reject, s2.store)
      && r == Step(Reject, s2.store)
      && s2.store[1].status == Active
  {
    var s1 := Transitions.Contribute(OneProject(), Bob, 5, 1, MaxUint256);
    var s2 := Transitions.Contribute(s1.store, Carol, 6, 1, 1);
    assert s2.store[1].totalFunds == MaxUint256 + 1;
  }

  /** A lone contribution of 30 is refunded after the deadline: the entry is
      removed, totalFunds drops to 0 and the project fails. */
  lemma RefundUntilFailed()
    ensures var s1 := Transitions.Contribute(OneProject(), Bob, 5, 1, 30);
      var r := Transitions.Refund(s1.store, Bob, 11, 1);
      && r.outcome == Accept([Voucher(Bob, 30), Notice(RefundProcessed(1, 30, Bob))])
      && r.store[1].contributors == map[] && r.store[1].totalFunds == 0
      && r.store[1].status == Failed
  {
    var s1 := Transitions.Contribute(OneProject(), Bob, 5, 1, 30);
    assert s1.store[1].contributors == map[Bob := 30];
  }

  /** The record of OneProject's project 1, written out. */
  function Garden(): Project
  {
    Project(Alice, "garden", 100, 10, "a community garden", 0, map[], [], Active)
  }

  // The steps of SecondRefundAfterExtension, one transition each, between
  // registries written out in full.

  lemma BobContributes30()
    ensures Transitions.Contribute(OneProject(), Bob, 5, 1, 30)
      == Step(Accept([Notice(ContributionRecorded(1, 30, Bob))]),
              map[1 := Garden().(totalFunds := 30, contributors := map[Bob := 30])])
  {
    assert OneProject() == map[1 := Garden()];
  }

  lemma CarolContributes20()
    ensures Transitions.Contribute(map[1 := Garden().(totalFunds := 30, contributors := map[Bob := 30])], Carol, 5, 1, 20)
      == Step(Accept([Notice(ContributionRecorded(1, 20, Carol))]),
              map[1 := Garden().(totalFunds := 50, contributors := map[Bob := 30, Carol := 20])])
  {
    assert AmountOf(map[Bob := 30], Carol) == 0;
  }

  lemma BobRefunded()
    ensures Transitions.Refund(map[1 := Garden().(totalFunds := 50, contributors := map[Bob := 30, Carol := 20])], Bob, 11, 1)
      == Step(Accept([Voucher(Bob, 30), Notice(RefundProcessed(1, 30, Bob))]),
              map[1 := Garden().(totalFunds := 20, contributors := map[Carol := 20])])
  {
    assert map[Bob := 30, Carol := 20] - {Bob} == map[Carol := 20];
  }

  lemma AliceExtends()
    ensures Transitions.UpdateProject(map[1 := Garden().(totalFunds := 20, contributors := map[Carol := 20])],
                                      Alice, 1, "garden", 100, 20, "a community garden")
      == Step(Accept([Notice(ProjectUpdated(1, "garden", 100, 20))]),
              map[1 := Garden().(totalFunds := 20, contributors := map[Carol := 20], deadline := 20)])
  {
  }

  lemma BobContributesAgain()
    ensures Transitions.Contribute(map[1 := Garden().(totalFunds := 20, contributors := map[Carol := 20], deadline := 20)], Bob, 12, 1, 10)
      == Step(Accept([Notice(ContributionRecorded(1, 10, Bob))]),
              map[1 := Garden().(totalFunds := 30, contributors := map[Carol := 20, Bob := 10], deadline := 20)])
  {
    assert AmountOf(map[Carol := 20], Bob) == 0;
  }

  lemma BobRefundedAgain()
    ensures Transitions.Refund(map[1 := Garden().(totalFunds := 30, contributors := map[Carol := 20, Bob := 10], deadline := 20)], Bob, 21, 1).outcome
      == Accept([Voucher(Bob, 10), Notice(RefundProcessed(1, 10, Bob))])
  {
  }

  /** A refund can be repeated: Bob (30) and Carol (20) fall short of the
      goal, Bob is refunded at 11 and the project stays active with 20; Alice
      extends the deadline to 20, Bob contributes 10 again, and at 21 Bob's
      second refund of the project is accepted. */
  lemma SecondRefundAfterExtension()
    ensures var s1 := Transitions.Contribute(OneProject(), Bob, 5, 1, 30);
      var s2 := Transitions.Contribute(s1.store, Carol, 5, 1, 20);
      var r1 := Transitions.Refund(s2.store, Bob, 11, 1);
      var u := Transitions.UpdateProject(r1.store, Alice, 1, "garden", 100, 20, "a community garden");
      var s3 := Transitions.Contribute(u.store, Bob, 12, 1, 10);
      var r2 := Transitions.Refund(s3.store, Bob, 21, 1);
      && r1.outcome == Accept([Voucher(Bob, 30), Notice(RefundProcessed(1, 30, Bob))])
      && r1.store[1].status == Active && r1.store[1].totalFunds == 20
      && u.outcome.Accept? && s3.outcome.Accept?
      && r2.outcome == Accept([Voucher(Bob, 10), Notice(RefundProcessed(1, 10, Bob))])
  {
    BobContributes30();
    CarolContributes20();
    BobRefunded();
    AliceExtends();
    BobContributesAgain();
    BobRefundedAgain();
  }

  /** A contribution after the deadline is rejected, whatever the project's
      goal and status. */
  lemma LateContributionRejected(store: Store, sender: Address, now: nat, id: ProjectId, amount: nat)
    requires id in store && now > store[id].deadline
    ensures Transitions.Contribute(store, sender, now, id, amount) == Step(Reject, store)
  {
  }

  /** Bob, with 60 against a threshold of 50, claims reward 1 of the
      successful project once; the identical second claim is rejected. */
  lemma RewardClaimedOnce()
    ensures var a := Transitions.AddReward(OneProject(), Alice, 1, "a seed packet", 50);
      var s1 := Transitions.Contribute(a.store, Bob, 5, 1, 60);
      var s2 := Transitions.Contribute(s1.store, Carol, 6, 1, 50);
      var w := Transitions.WithdrawFunds(s2.store, Alice, 11, 1);
      var c1 := Transitions.ClaimReward(w.store, Bob, 1, 1);
      var c2 := Transitions.ClaimReward(c1.store, Bob, 1, 1);
      && a.outcome == Accept([Notice(RewardAdded(1, 1, 50))])
      && w.outcome.Accept?
      && c1.outcome == Accept([Notice(RewardClaimed(1, 1, Bob))])
      && c2.outcome == Reject
  {
    var a := Transitions.AddReward(OneProject(), Alice, 1, "a seed packet", 50);
    var s1 := Transitions.Contribute(a.store, Bob, 5, 1, 60);
    var s2 := Transitions.Contribute(s1.store, Carol, 6, 1, 50);
    var w := Transitions.WithdrawFunds(s2.store, Alice, 11, 1);
    assert w.store[1].rewards == [Reward(1, "a seed packet", 50, {})];
    assert AmountOf(w.store[1].contributors, Bob) == 60;
    var c1 := Transitions.ClaimReward(w.store, Bob, 1, 1);
    assert c1.store[1].rewards == [Reward(1, "a seed packet", 50, {Bob})];
  }
}
