/** The in-memory project registry and the advance handler that mutates it.
    Each method checks its guards in the order the handler does, returns
    `Reject` before touching anything when one fails, and otherwise updates
    the project record and stores it back. Project records are owned by the
    registry alone, so updating a field of a stored record is the same as
    replacing the record under its key. */
module Handler {
  import opened Ledger
  import Transitions
  import Invariants

  class Registry {
    /** `projectRegistry`: project records keyed by id. */
    var projects: Store

    ghost predicate Valid()
      reads this
    {
      Invariants.Valid(projects)
    }

    /** The registry is created once, empty. */
    constructor ()
      ensures Valid() && projects == map[]
    {
      projects := map[];
    }

    method CreateProject(sender: Address, name: string, goal: nat, deadline: nat, description: string) returns (outcome: Outcome)
      requires Valid()
      modifies this
      ensures Valid()
      ensures Step(outcome, projects) == Transitions.CreateProject(old(projects), sender, name, goal, deadline, description)
    {
      Invariants.CreateProjectPreservesValid(projects, sender, name, goal, deadline, description);
      var projectId := |projects| + 1;
      projects := projects[projectId := Transitions.NewProject(sender, name, goal, deadline, description)];
      outcome := Accept([Notice(ProjectCreated(projectId, name, goal, deadline))]);
    }

    method Contribute(sender: Address, now: nat, projectId: ProjectId, amount: nat) returns (outcome: Outcome)
      requires Valid()
      modifies this
      ensures Valid()
      ensures Step(outcome, projects) == Transitions.Contribute(old(projects), sender, now, projectId, amount)
    {
      ghost var step := Transitions.Contribute(projects, sender, now, projectId, amount);
      Invariants.ContributePreservesValid(projects, sender, now, projectId, amount);
      if !DoesProjectExist(projects, projectId) {
        return Reject;
      }
      var project := projects[projectId];
      if now > project.deadline || project.status != Active {
        return Reject;
      }
      project := project.(totalFunds := project.totalFunds + amount);
      project := project.(contributors := project.contributors[sender := AmountOf(project.contributors, sender) + amount]);
      projects := projects[projectId := project];
      assert projects == step.store;
      outcome := Accept([Notice(ContributionRecorded(projectId, amount, sender))]);
    }

    method WithdrawFunds(sender: Address, now: nat, projectId: ProjectId) returns (outcome: Outcome)
      requires Valid()
      modifies this
      ensures Valid()
      ensures Step(outcome, projects) == Transitions.WithdrawFunds(old(projects), sender, now, projectId)
    {
      Invariants.WithdrawFundsPreservesValid(projects, sender, now, projectId);
      if !DoesProjectExist(projects, projectId) || !IsOwner(projects, projectId, sender) {
        return Reject;
      }
      var project := projects[projectId];
      if project.totalFunds < project.goal || now <= project.deadline || project.status != Active {
        return Reject;
      }
      if !EncodableAmount(project.totalFunds) {
        return Reject;
      }
      var voucher := Voucher(project.creator, project.totalFunds);
      var notice := Notice(FundsWithdrawn(projectId, project.totalFunds, project.creator));
      project := project.(totalFunds := 0);
      project := project.(status := Successful);
      projects := projects[projectId := project];
      outcome := Accept([voucher, notice]);
    }

    method Refund(sender: Address, now: nat, projectId: ProjectId) returns (outcome: Outcome)
      requires Valid()
      modifies this
      ensures Valid()
      ensures Step(outcome, projects) == Transitions.Refund(old(projects), sender, now, projectId)
    {
      Invariants.RefundPreservesValid(projects, sender, now, projectId);
      if !DoesProjectExist(projects, projectId) {
        return Reject;
      }
      var project := projects[projectId];
      if project.totalFunds >= project.goal || now <= project.deadline || project.status != Active {
        return Reject;
      }
      var contributionAmount := AmountOf(project.contributors, sender);
      if contributionAmount == 0 {
        return Reject;
      }
      if !EncodableAmount(contributionAmount) {
        return Reject;
      }
      var voucher := Voucher(sender, contributionAmount);
      var notice := Notice(RefundProcessed(projectId, contributionAmount, sender));
      project := project.(totalFunds := project.totalFunds - contributionAmount);
      project := project.(contributors := project.contributors - {sender});
      if project.totalFunds == 0 {
        project := project.(status := Failed);
      }
      projects := projects[projectId := project];
      outcome := Accept([voucher, notice]);
    }

    method UpdateProject(sender: Address, projectId: ProjectId, name: string, goal: nat, deadline: nat, description: string) returns (outcome: Outcome)
      requires Valid()
      modifies this
      ensures Valid()
      ensures Step(outcome, projects) == Transitions.UpdateProject(old(projects), sender, projectId, name, goal, deadline, description)
    {
      Invariants.UpdateProjectPreservesValid(projects, sender, projectId, name, goal, deadline, description);
      if !DoesProjectExist(projects, projectId) || !IsOwner(projects, projectId, sender) {
        return Reject;
      }
      var project := projects[projectId];
      if project.status != Active {
        return Reject;
      }
      project := project.(name := name, goal := goal, deadline := deadline, description := description);
      projects := projects[projectId := project];
      outcome := Accept([Notice(ProjectUpdated(projectId, name, goal, deadline))]);
    }

    method CancelProject(sender: Address, projectId: ProjectId) returns (outcome: Outcome)
      requires Valid()
      modifies this
      ensures Valid()
      ensures Step(outcome, projects) == Transitions.CancelProject(old(projects), sender, projectId)
    {
      Invariants.CancelProjectPreservesValid(projects, sender, projectId);
      if !DoesProjectExist(projects, projectId) || !IsOwner(projects, projectId, sender) {
        return Reject;
      }
      var project := projects[projectId];
      if project.status != Active {
        return Reject;
      }
      projects := projects[projectId := project.(status := Cancelled)];
      outcome := Accept([Notice(ProjectCancelled(projectId))]);
    }

    method AddReward(sender: Address, projectId: ProjectId, description: string, threshold: nat) returns (outcome: Outcome)
      requires Valid()
      modifies this
      ensures Valid()
      ensures Step(outcome, projects) == Transitions.AddReward(old(projects), sender, projectId, description, threshold)
    {
      Invariants.AddRewardPreservesValid(projects, sender, projectId, description, threshold);
      if !DoesProjectExist(projects, projectId) || !IsOwner(projects, projectId, sender) {
        return Reject;
      }
      var project := projects[projectId];
      if project.status != Active {
        return Reject;
      }
      var newReward := Reward(|project.rewards| + 1, description, threshold, {});
      project := project.(rewards := project.rewards + [newReward]);
      projects := projects[projectId := project];
      outcome := Accept([Notice(RewardAdded(projectId, newReward.id, threshold))]);
    }

    method ClaimReward(sender: Address, projectId: ProjectId, rewardId: nat) returns (outcome: Outcome)
      requires Valid()
      modifies this
      ensures Valid()
      ensures Step(outcome, projects) == Transitions.ClaimReward(old(projects), sender, projectId, rewardId)
    {
      Invariants.ClaimRewardPreservesValid(projects, sender, projectId, rewardId);
      if !DoesProjectExist(projects, projectId) {
        return Reject;
      }
      var project := projects[projectId];
      if project.status != Successful {
        return Reject;
      }
      var found := Transitions.FindReward(project.rewards, rewardId);
      if found.None? {
        return Reject;
      }
      var reward := project.rewards[found.value];
      var contributorAmount := AmountOf(project.contributors, sender);
      if contributorAmount < reward.threshold || sender in reward.claimed {
        return Reject;
      }
      reward := reward.(claimed := reward.claimed + {sender});
      project := project.(rewards := project.rewards[found.value := reward]);
      projects := projects[projectId := project];
      outcome := Accept([Notice(RewardClaimed(projectId, rewardId, sender))]);
    }

    /** The advance handler: a payload that does not decode is rejected with
        no change; a decoded operation goes to its method. */
    method Advance(input: Input) returns (outcome: Outcome)
      requires Valid()
      modifies this
      ensures Valid()
      ensures Step(outcome, projects) == Transitions.Apply(old(projects), input)
    {
      var sender, now := input.sender, input.now;
      match input.payload
      case None =>
        outcome := Reject;
      case Some(op) =>
        match op
        case CreateProject(name, goal, deadline, description) =>
          outcome := CreateProject(sender, name, goal, deadline, description);
        case Contribute(projectId, amount) =>
          outcome := Contribute(sender, now, projectId, amount);
        case WithdrawFunds(projectId) =>
          outcome := WithdrawFunds(sender, now, projectId);
        case Refund(projectId) =>
          outcome := Refund(sender, now, projectId);
        case UpdateProject(projectId, name, goal, deadline, description) =>
          outcome := UpdateProject(sender, projectId, name, goal, deadline, description);
        case CancelProject(projectId) =>
          outcome := CancelProject(sender, projectId);
        case AddReward(projectId, description, threshold) =>
          outcome := AddReward(sender, projectId, description, threshold);
        case ClaimReward(projectId, rewardId) =>
          outcome := ClaimReward(sender, projectId, rewardId);
    }
  }
}
