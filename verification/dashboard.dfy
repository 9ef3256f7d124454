/** The dashboard page: campaign and lead counters and the leads-by-source histogram. It reads
    the same `campaigns` and `leads` tables as the campaigns page and the outreach overview. */
module Dashboard {
  import opened Wrappers
  import opened Nullable
  import opened Seqs
  import Tally
  import Campaigns
  import OutreachStats

  type Lead = OutreachStats.Lead

  predicate IsActiveCampaign(c: Campaigns.Campaign) { c.status == "active" }

  /** Unlike the outreach overview, a lead counts as new only when it is marked "new". */
  predicate IsNew(lead: Lead) { lead.outreachStatus == Some("new") }
  predicate IsContacted(lead: Lead) { lead.outreachStatus == Some("contacted") }
  predicate IsReplied(lead: Lead) { lead.outreachStatus == Some("replied") }

  /** `lead.lead_source || 'unknown'`. */
  function SourceName(lead: Lead): (r: string)
    ensures Present(lead.leadSource) ==> r == lead.leadSource.value
    ensures !Present(lead.leadSource) ==> r == "unknown"
  {
    OrElse(lead.leadSource, "unknown")
  }

  function SourceNames(leads: seq<Lead>): (r: seq<string>)
    ensures |r| == |leads|
    ensures forall i :: 0 <= i < |leads| ==> r[i] == SourceName(leads[i])
  {
    seq(|leads|, i requires 0 <= i < |leads| => SourceName(leads[i]))
  }

  datatype Metrics = Metrics(
    totalCampaigns: nat,
    activeCampaigns: nat,
    totalLeads: nat,
    newLeads: nat,
    contactedLeads: nat,
    repliedLeads: nat,
    leadsBySource: seq<Tally.Entry<string>>)

  /** The counters: the active campaigns are among all campaigns; new, contacted and replied are
      exact matches on distinct statuses, so together they are at most the leads; the histogram
      has one entry per source name, each at least 1, counting every lead once. */
  function ComputeMetrics(campaigns: seq<Campaigns.Campaign>, leads: seq<Lead>): (r: Metrics)
    ensures r.totalCampaigns == |campaigns|
    ensures r.activeCampaigns == |Filter(campaigns, IsActiveCampaign)| && r.activeCampaigns <= r.totalCampaigns
    ensures r.totalLeads == |leads|
    ensures r.newLeads == |Filter(leads, IsNew)|
    ensures r.contactedLeads == |Filter(leads, IsContacted)| && r.repliedLeads == |Filter(leads, IsReplied)|
    ensures r.newLeads + r.contactedLeads + r.repliedLeads <= r.totalLeads
    ensures Tally.DistinctKeys(r.leadsBySource) && Tally.Total(r.leadsBySource) == r.totalLeads
    ensures forall i :: 0 <= i < |r.leadsBySource| ==> r.leadsBySource[i].count >= 1
    ensures forall k :: Tally.HasKey(r.leadsBySource, k) <==> k in SourceNames(leads)
    ensures forall k :: Tally.Lookup(r.leadsBySource, k) == multiset(SourceNames(leads))[k]
  {
    ThreeCountsBound(leads, IsNew, IsContacted, IsReplied);
    Tally.BuildCounts(SourceNames(leads));
    Metrics(
      |campaigns|, Count(campaigns, IsActiveCampaign),
      |leads|, Count(leads, IsNew), Count(leads, IsContacted), Count(leads, IsReplied),
      Tally.Build(SourceNames(leads)))
  }

  /** A lead without a source is counted under "unknown", so the empty name never appears. */
  lemma MissingSourceIsUnknown(campaigns: seq<Campaigns.Campaign>, leads: seq<Lead>, i: int)
    requires 0 <= i < |leads| && !Present(leads[i].leadSource)
    ensures Tally.HasKey(ComputeMetrics(campaigns, leads).leadsBySource, "unknown")
    ensures !Tally.HasKey(ComputeMetrics(campaigns, leads).leadsBySource, "")
  {
    assert SourceNames(leads)[i] == "unknown";
    assert forall j :: 0 <= j < |leads| ==> |SourceNames(leads)[j]| > 0;
  }

  /** The overview page's new counter is the dashboard's plus the leads without a status. */
  lemma NewLeadsAgainstOverview(campaigns: seq<Campaigns.Campaign>, leads: seq<Lead>)
    ensures OutreachStats.ComputeMetrics(leads).newLeads
      == ComputeMetrics(campaigns, leads).newLeads + Count(leads, OutreachStats.HasNoStatus)
    ensures ComputeMetrics(campaigns, leads).contactedLeads == OutreachStats.ComputeMetrics(leads).contactedLeads
    ensures ComputeMetrics(campaigns, leads).repliedLeads == OutreachStats.ComputeMetrics(leads).repliedLeads
  {
    OutreachStats.NewLeadsSplit(leads);
    CountersAgree(leads);
  }

  /** The two pages' exact-match predicates for "new", "contacted" and "replied" count alike. */
  lemma CountersAgree(leads: seq<Lead>)
    ensures Count(leads, IsNew) == Count(leads, OutreachStats.IsMarkedNew)
    ensures Count(leads, IsContacted) == Count(leads, OutreachStats.IsContacted)
    ensures Count(leads, IsReplied) == Count(leads, OutreachStats.IsReplied)
  {
    CountMonotonic(leads, IsNew, OutreachStats.IsMarkedNew);
    CountMonotonic(leads, OutreachStats.IsMarkedNew, IsNew);
    CountMonotonic(leads, IsContacted, OutreachStats.IsContacted);
    CountMonotonic(leads, OutreachStats.IsContacted, IsContacted);
    CountMonotonic(leads, IsReplied, OutreachStats.IsReplied);
    CountMonotonic(leads, OutreachStats.IsReplied, IsReplied);
  }
}
