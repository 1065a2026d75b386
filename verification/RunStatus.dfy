// The status of an agent run, as stored in its row.
module RunStatus {
  datatype Status = Queued | Running | Completed | QuietExited | BudgetLimited | Failed

  predicate Terminal(s: Status)
  {
    !s.Queued? && !s.Running?
  }
}
