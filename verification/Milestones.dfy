/** Work progress on funded milestones. */
module Milestones {
  import opened Basics
  import opened Ledger
  import opened Records
  import opened Transactions

  datatype Action = Start | Submit | RequestChanges | Approve

  function Target(a: Action): MilestoneStatus {
    match a
    case Start => InProgress
    case Submit => Submitted
    case RequestChanges => ChangesRequested
    case Approve => Approved
  }

  /** The statuses each action may start from. */
  const USER_TRANSITIONS: map<Action, set<MilestoneStatus>> :=
    map[Start := {Funded}, Submit := {InProgress, ChangesRequested}, RequestChanges := {Submitted},
        Approve := {Submitted}]

  predicate MayTransition(action: Action, status: MilestoneStatus) {
    action in USER_TRANSITIONS && status in USER_TRANSITIONS[action]
  }

  lemma TransitionTable(action: Action, status: MilestoneStatus)
    ensures MayTransition(action, status) <==> WorkStep(status, Target(action))
  {
  }

  /** _transition: the freelancer starts and submits, the employer reviews. */
  function Progress(s: State, user: Id, m: Id, action: Action): (o: Outcome)
    ensures Lawful(s, o.write) && Quiet(o)
  {
    if m >= |s.milestones| then Raise(NotFound)
    else if s.milestones[m].contract >= |s.contracts| then Raise(Internal)
    else if !ActiveMilestone(s, m) then Raise(ContractInactive)
    else
      var row := s.milestones[m];
      var c := s.contracts[row.contract];
      var done := Done(Response(200, RowBody(m)));
      if user != (if action == Start || action == Submit then c.freelancer else c.employer) then Raise(Forbidden)
      else if row.status == Target(action) then Outcome(Nothing, done)
      else if !WorkStep(row.status, Target(action)) then Raise(InvalidTransition)
      else if action == Start && row.commission.None? then Raise(EscrowNotFound)
      else if action == Start && Balance(s.journal, EscrowOf(s, m)) != row.amount then Raise(EscrowNotFullyFunded)
      else Outcome(MoveMilestone(m, Target(action)), done)
  }
}
