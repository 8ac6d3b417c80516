/** The three read-only router queries. They return records that the router
    serialises; nothing here changes the registry. */
module Queries {
  import opened Ledger
  import Invariants

  /** A reward as shown by the single-project query. */
  datatype RewardView = RewardView(id: nat, description: string, threshold: nat, claimedCount: nat)

  /** The single-project query's projection, with derived counts. */
  datatype ProjectView = ProjectView(
    id: ProjectId,
    name: string,
    creator: Address,
    goal: nat,
    deadline: nat,
    description: string,
    totalFunds: int,
    contributorsCount: nat,
    status: Status,
    rewards: seq<RewardView>)

  /** One entry of the project list. */
  datatype ProjectSummary = ProjectSummary(id: ProjectId, name: string, goal: nat, totalFunds: int, status: Status, deadline: nat)

  /** One entry of the contributions query. */
  datatype Contribution = Contribution(projectId: ProjectId, amount: nat)

  function ViewReward(r: Reward): RewardView
  {
    RewardView(r.id, r.description, r.threshold, |r.claimed|)
  }

  /** `project/:projectId`: not found for an unknown id; otherwise the
      project's fields, the number of contributor entries and, per reward,
      the number of addresses that have claimed it. */
  function GetProject(store: Store, id: ProjectId): (r: Option<ProjectView>)
    ensures r.None? <==> id !in store
    ensures r.Some? ==>
      var p, v := store[id], r.value;
      && v.id == id && v.name == p.name && v.creator == p.creator
      && v.goal == p.goal && v.deadline == p.deadline && v.description == p.description
      && v.totalFunds == p.totalFunds && v.status == p.status
      && v.contributorsCount == |p.contributors.Keys|
      && |v.rewards| == |p.rewards|
      && forall i :: 0 <= i < |p.rewards| ==>
           && v.rewards[i].id == p.rewards[i].id
           && v.rewards[i].description == p.rewards[i].description
           && v.rewards[i].threshold == p.rewards[i].threshold
           && v.rewards[i].claimedCount == |p.rewards[i].claimed|
  {
    if id !in store then None
    else
      var p := store[id];
      Some(ProjectView(id, p.name, p.creator, p.goal, p.deadline, p.description, p.totalFunds,
                       |p.contributors|, p.status,
                       seq(|p.rewards|, i requires 0 <= i < |p.rewards| => ViewReward(p.rewards[i]))))
  }

  function Summarize(id: ProjectId, p: Project): ProjectSummary
  {
    ProjectSummary(id, p.name, p.goal, p.totalFunds, p.status, p.deadline)
  }

  /** `projects`: every project exactly once, in insertion order, which for a
      registry keyed 1..size is ascending id order. */
  function ListProjects(store: Store): (r: seq<ProjectSummary>)
    requires Invariants.IdsContiguous(store)
    ensures |r| == |store|
    ensures forall i :: 0 <= i < |r| ==> r[i].id == i + 1
    ensures forall id :: id in store ==> r[id - 1] == Summarize(id, store[id])
  {
    seq(|store|, i requires 0 <= i < |store| => Summarize(i + 1, store[i + 1]))
  }

  /** The contributions of `address` among projects 1..n, in id order: one
      entry for each project where the address has a nonzero amount, and none
      where the amount is absent or 0. */
  function ContributionsUpTo(store: Store, address: Address, n: nat): (r: seq<Contribution>)
    requires forall k :: 1 <= k <= n ==> k in store
    ensures forall i :: 0 <= i < |r| ==>
      && 1 <= r[i].projectId <= n
      && r[i].amount == AmountOf(store[r[i].projectId].contributors, address)
      && r[i].amount > 0
    ensures forall i, j :: 0 <= i < j < |r| ==> r[i].projectId < r[j].projectId
    decreases n
  {
    if n == 0 then []
    else
      var earlier := ContributionsUpTo(store, address, n - 1);
      var amount := AmountOf(store[n].contributors, address);
      if amount > 0 then earlier + [Contribution(n, amount)] else earlier
  }

  /** Nothing is missed: every project where the address has a nonzero
      amount is listed with that amount. */
  lemma {:induction false} ContributionsComplete(store: Store, address: Address, n: nat, k: ProjectId)
    requires forall j :: 1 <= j <= n ==> j in store
    requires 1 <= k <= n && AmountOf(store[k].contributors, address) > 0
    ensures Contribution(k, AmountOf(store[k].contributors, address)) in ContributionsUpTo(store, address, n)
    decreases n
  {
    if k < n {
      ContributionsComplete(store, address, n - 1, k);
    }
  }

  /** `contributions/:address`: walks the registry in insertion order and
      collects the address's nonzero amounts. */
  method Contributions(store: Store, address: Address) returns (contributions: seq<Contribution>)
    requires Invariants.IdsContiguous(store)
    ensures contributions == ContributionsUpTo(store, address, |store|)
  {
    contributions := [];
    var projectId := 1;
    while projectId <= |store|
      invariant 1 <= projectId <= |store| + 1
      invariant contributions == ContributionsUpTo(store, address, projectId - 1)
    {
      var amount := AmountOf(store[projectId].contributors, address);
      if amount > 0 {
        contributions := contributions + [Contribution(projectId, amount)];
      }
      projectId := projectId + 1;
    }
  }
}
