/** The plan catalogue. `None` is unlimited. */
module Plans {
  import opened Prelude

  datatype Plan = Free | Pro | Enterprise

  function MaxAssessments(p: Plan): Option<nat> {
    match p case Free => Some(3) case Pro => Some(50) case Enterprise => None
  }

  function MaxScanJobs(p: Plan): Option<nat> {
    match p case Free => Some(20) case Pro => Some(1000) case Enterprise => None
  }

  predicate Reached(count: nat, limit: Option<nat>) {
    limit.Some? && count >= limit.value
  }
}
