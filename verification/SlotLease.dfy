/** The state of a decode slot lease, as the scheduler keeps it. */
module SlotLease {
  datatype Lease = Reserved | Active | Quarantined | Released

  /** What committing an operation makes of its lease: only a reserved one becomes active. */
  function AfterCommit(lease: Lease): Lease { if lease.Reserved? then Active else lease }
}
