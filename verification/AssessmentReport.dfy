/** The report of an assessment: counts of its findings by severity and of its jobs by agent. */
module AssessmentReport {
  import opened Prelude
  import opened Assessments

  function CountSeverity(findings: seq<Finding>, s: Severity): nat {
    if findings == [] then 0
    else CountSeverity(findings[..|findings| - 1], s) + if findings[|findings| - 1].severity == s then 1 else 0
  }

  function CountAgent(jobs: seq<ScanJob>, a: AgentType): nat {
    if jobs == [] then 0
    else CountAgent(jobs[..|jobs| - 1], a) + if jobs[|jobs| - 1].agent == a then 1 else 0
  }

  datatype Report = Report(findingCount: nat, critical: nat, high: nat, medium: nat, low: nat,
                           agents: map<AgentType, nat>)

  function AgentTypes(): set<AgentType> {
    {WhiteBox, BlackBox, RedTeam, BlueTeam, ApiSecurity, CloudSecurity, DependencySecurity, SecretDetection, Trivy,
     AutoRemediation}
  }

  function ReportOf(r: Record): Report {
    Report(|r.findings|, CountSeverity(r.findings, Critical), CountSeverity(r.findings, High),
           CountSeverity(r.findings, Medium), CountSeverity(r.findings, Low),
           map a | a in AgentTypes() && CountAgent(r.jobs, a) > 0 :: CountAgent(r.jobs, a))
  }

  function AgentTotal(report: Report): nat {
    var of := (a: AgentType) => if a in report.agents then report.agents[a] else 0;
    of(WhiteBox) + of(BlackBox) + of(RedTeam) + of(BlueTeam) + of(ApiSecurity) + of(CloudSecurity)
    + of(DependencySecurity) + of(SecretDetection) + of(Trivy) + of(AutoRemediation)
  }

  lemma {:induction false} SeveritiesPartition(findings: seq<Finding>)
    ensures CountSeverity(findings, Critical) + CountSeverity(findings, High)
            + CountSeverity(findings, Medium) + CountSeverity(findings, Low) == |findings|
  {
    if findings != [] {
      SeveritiesPartition(findings[..|findings| - 1]);
    }
  }

  lemma {:induction false} AgentsPartition(jobs: seq<ScanJob>)
    ensures CountAgent(jobs, WhiteBox) + CountAgent(jobs, BlackBox) + CountAgent(jobs, RedTeam)
            + CountAgent(jobs, BlueTeam) + CountAgent(jobs, ApiSecurity) + CountAgent(jobs, CloudSecurity)
            + CountAgent(jobs, DependencySecurity) + CountAgent(jobs, SecretDetection) + CountAgent(jobs, Trivy)
            + CountAgent(jobs, AutoRemediation) == |jobs|
  {
    if jobs != [] {
      AgentsPartition(jobs[..|jobs| - 1]);
    }
  }

  /** The number of findings with severity `s`, by their positions. */
  ghost function WithSeverity(findings: seq<Finding>, s: Severity): set<nat> {
    set i: nat | i < |findings| && findings[i].severity == s
  }

  lemma {:induction false} CountIsCardinality(findings: seq<Finding>, s: Severity)
    ensures CountSeverity(findings, s) == |WithSeverity(findings, s)|
  {
    if findings == [] {
      assert WithSeverity(findings, s) == {};
    } else {
      var n := |findings| - 1;
      var before := WithSeverity(findings[..n], s);
      CountIsCardinality(findings[..n], s);
      assert n !in before;
      if findings[n].severity == s {
        assert WithSeverity(findings, s) == before + {n};
      } else {
        assert WithSeverity(findings, s) == before;
      }
    }
  }

  /** The number of jobs of an agent, by their positions. */
  ghost function OfAgent(jobs: seq<ScanJob>, a: AgentType): set<nat> {
    set i: nat | i < |jobs| && jobs[i].agent == a
  }

  lemma {:induction false} AgentCountIsCardinality(jobs: seq<ScanJob>, a: AgentType)
    ensures CountAgent(jobs, a) == |OfAgent(jobs, a)|
  {
    if jobs == [] {
      assert OfAgent(jobs, a) == {};
    } else {
      AgentCountIsCardinality(jobs[..|jobs| - 1], a);
      LastOfAgent(jobs, a);
    }
  }

  lemma LastOfAgent(jobs: seq<ScanJob>, a: AgentType)
    requires jobs != []
    ensures var n := |jobs| - 1;
            |OfAgent(jobs, a)| == |OfAgent(jobs[..n], a)| + if jobs[n].agent == a then 1 else 0
  {
    var n := |jobs| - 1;
    forall i: nat ensures i in OfAgent(jobs, a) <==> i in OfAgent(jobs[..n], a) || (i == n && jobs[n].agent == a) {
      assert i < n ==> jobs[..n][i] == jobs[i];
    }
    LastCounted(OfAgent(jobs, a), OfAgent(jobs[..n], a), n, jobs[n].agent == a);
  }

  /** The breakdown names exactly the agents that have a job, with the number of their jobs. */
  lemma BreakdownIsOfJobs(r: Record)
    ensures var agents := ReportOf(r).agents;
            forall a :: (a in agents <==> exists j :: j in r.jobs && j.agent == a)
                        && (a in agents ==> agents[a] == |OfAgent(r.jobs, a)|)
  {
    var agents := ReportOf(r).agents;
    forall a
      ensures a in agents <==> exists j :: j in r.jobs && j.agent == a
      ensures a in agents ==> agents[a] == |OfAgent(r.jobs, a)|
    {
      AgentCountIsCardinality(r.jobs, a);
      if i: nat :| i < |r.jobs| && r.jobs[i].agent == a {
        assert i in OfAgent(r.jobs, a);
      } else {
        assert OfAgent(r.jobs, a) == {};
      }
    }
  }

  lemma AgentsAddUp(r: Record)
    ensures AgentTotal(ReportOf(r)) == |r.jobs|
  {
    AgentsPartition(r.jobs);
    var report := ReportOf(r);
    assert forall a :: a in AgentTypes() ==>
        (if a in report.agents then report.agents[a] else 0) == CountAgent(r.jobs, a);
  }

  /** The report's severity counts are those of the findings and add up to the finding count, and
      its agent breakdown adds up to the number of scan jobs. */
  lemma ReportAddsUp(r: Record)
    ensures var report := ReportOf(r);
            && report.critical == |WithSeverity(r.findings, Critical)|
            && report.high == |WithSeverity(r.findings, High)|
            && report.medium == |WithSeverity(r.findings, Medium)|
            && report.low == |WithSeverity(r.findings, Low)|
            && report.critical + report.high + report.medium + report.low == report.findingCount == |r.findings|
            && AgentTotal(report) == |r.jobs|
  {
    CountIsCardinality(r.findings, Critical);
    CountIsCardinality(r.findings, High);
    CountIsCardinality(r.findings, Medium);
    CountIsCardinality(r.findings, Low);
    SeveritiesPartition(r.findings);
    AgentsAddUp(r);
  }
}
