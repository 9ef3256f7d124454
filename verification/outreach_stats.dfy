/** The outreach overview page: the status label and colour of a lead, the counters and the status
    chart at the top of the page, the lookup of campaign names and the recent-activity list. The
    per-campaign table is in CampaignPerformance. */
module OutreachStats {
  import opened Wrappers
  import opened Nullable
  import opened Strings
  import opened Seqs
  import Percent
  import Charts
  import Crm

  /** A row of the `leads` table as this page reads it; here `campaign_id` is a number. */
  datatype Lead = Lead(
    id: string,
    createdAt: string,
    campaignId: int,
    fullName: Option<string>,
    email: Option<string>,
    companyName: Option<string>,
    outreachStatus: Option<string>,
    leadSource: Option<string>)

  /** A row of the `campaigns` table: only the id and the name are read. */
  datatype CampaignRef = CampaignRef(id: int, campaignName: string)

  // ---------------------------------------------------------------------------------------------
  // Status label and colour
  // ---------------------------------------------------------------------------------------------

  /** `formatStatus`: "New" for a missing or empty status, else the status with its first
      character upper-cased. */
  function FormatStatus(status: Option<string>): (r: string)
    ensures !Present(status) ==> r == "New"
    ensures Present(status) ==>
      |r| == |status.value| && r[0] == UpperChar(status.value[0]) && r[1..] == status.value[1..]
  {
    if !Present(status) then "New" else Capitalize(status.value)
  }

  /** This page and the CRM page label a stored status the same way; only a missing status
      differs, "New" here and "undefined" there. */
  lemma FormatStatusAgainstCrm(status: Option<string>)
    ensures status.Some? ==> FormatStatus(status) == Crm.StatusLabel(status)
    ensures status.None? ==> FormatStatus(status) == "New" && Crm.StatusLabel(status) == "undefined"
  {
  }

  const NewClass := "bg-blue-100 text-blue-800"
  const ContactedClass := "bg-yellow-100 text-yellow-800"
  const RepliedClass := "bg-green-100 text-green-800"
  const OtherClass := "bg-gray-100 text-gray-800"

  /** `getStatusColor`: one class per known status; a missing or unknown status, and the empty
      one, get the grey default. */
  function StatusColor(status: Option<string>): (r: string)
    ensures r == NewClass <==> status == Some("new")
    ensures r == ContactedClass <==> status == Some("contacted")
    ensures r == RepliedClass <==> status == Some("replied")
    ensures r == OtherClass <==> status !in {Some("new"), Some("contacted"), Some("replied")}
  {
    assert NewClass[3] != ContactedClass[3] && NewClass[3] != RepliedClass[3] && NewClass[3] != OtherClass[3];
    assert ContactedClass[3] != RepliedClass[3] && ContactedClass[3] != OtherClass[3];
    assert RepliedClass[5] != OtherClass[5];
    match status
    case Some("new") => NewClass
    case Some("contacted") => ContactedClass
    case Some("replied") => RepliedClass
    case _ => OtherClass
  }

  // ---------------------------------------------------------------------------------------------
  // Counters and the status chart
  // ---------------------------------------------------------------------------------------------

  /** A new lead is one marked "new" or one without a status (`!l.outreach_status`). */
  predicate IsNew(lead: Lead) {
    lead.outreachStatus == Some("new") || !Present(lead.outreachStatus)
  }

  predicate IsContacted(lead: Lead) { lead.outreachStatus == Some("contacted") }
  predicate IsReplied(lead: Lead) { lead.outreachStatus == Some("replied") }

  /** Marked "new" exactly, and without a status: the two halves of `IsNew`. */
  predicate IsMarkedNew(lead: Lead) { lead.outreachStatus == Some("new") }
  predicate HasNoStatus(lead: Lead) { !Present(lead.outreachStatus) }

  const NewColor := "#3B82F6"
  const ContactedColor := "#F59E0B"
  const RepliedColor := "#10B981"

  /** The three slices of the status chart before the empty ones are dropped. */
  function StatusSlices(newLeads: nat, contacted: nat, replied: nat): seq<Charts.Slice> {
    [Charts.Slice("New", newLeads, NewColor),
     Charts.Slice("Contacted", contacted, ContactedColor),
     Charts.Slice("Replied", replied, RepliedColor)]
  }

  /** `statusBreakdown`: New, Contacted and Replied in that order, without the empty ones. */
  function StatusBreakdown(newLeads: nat, contacted: nat, replied: nat): (r: seq<Charts.Slice>)
    ensures IsSubsequence(r, StatusSlices(newLeads, contacted, replied))
    ensures forall i :: 0 <= i < |r| ==> r[i].value > 0
    ensures forall i :: 0 <= i < 3 && StatusSlices(newLeads, contacted, replied)[i].value > 0 ==>
      StatusSlices(newLeads, contacted, replied)[i] in r
    ensures Charts.SliceTotal(r) == newLeads + contacted + replied
  {
    var s := StatusSlices(newLeads, contacted, replied);
    Charts.SliceTotalThree(s[0], s[1], s[2]);
    Charts.DropEmpty(s)
  }

  datatype Metrics = Metrics(
    totalLeads: nat,
    newLeads: nat,
    contactedLeads: nat,
    repliedLeads: nat,
    responseRate: nat,
    statusBreakdown: seq<Charts.Slice>)

  /** The counters: new, contacted and replied are disjoint, so together they are at most the
      total; the response rate is the rounded percentage of replied over contacted, and 0 when
      nothing was contacted; the chart shares out exactly the three counters. */
  function ComputeMetrics(leads: seq<Lead>): (r: Metrics)
    ensures r.totalLeads == |leads|
    ensures r.newLeads == |Filter(leads, IsNew)|
    ensures r.contactedLeads == |Filter(leads, IsContacted)|
    ensures r.repliedLeads == |Filter(leads, IsReplied)|
    ensures r.newLeads + r.contactedLeads + r.repliedLeads <= r.totalLeads
    ensures r.contactedLeads == 0 ==> r.responseRate == 0
    ensures r.contactedLeads > 0 ==> r.responseRate == Percent.RoundedPercent(r.repliedLeads, r.contactedLeads)
    ensures Charts.SliceTotal(r.statusBreakdown) == r.newLeads + r.contactedLeads + r.repliedLeads
  {
    var newLeads := Count(leads, IsNew);
    var contacted := Count(leads, IsContacted);
    var replied := Count(leads, IsReplied);
    ThreeCountsBound(leads, IsNew, IsContacted, IsReplied);
    Metrics(
      |leads|, newLeads, contacted, replied,
      if contacted > 0 then Percent.RoundedPercent(replied, contacted) else 0,
      StatusBreakdown(newLeads, contacted, replied))
  }

  /** The new counter adds the leads marked "new" and the leads without a status. */
  lemma NewLeadsSplit(leads: seq<Lead>)
    ensures ComputeMetrics(leads).newLeads == Count(leads, IsMarkedNew) + Count(leads, HasNoStatus)
  {
    CountDisjointUnion(leads, IsMarkedNew, HasNoStatus, IsNew);
  }

  /** Replied leads are not among the contacted ones, so the rate is not bounded by 100: two
      replies against one contacted lead give 200. */
  lemma ResponseRateAboveHundred(replied1: Lead, replied2: Lead, contacted: Lead)
    requires IsReplied(replied1) && IsReplied(replied2) && IsContacted(contacted)
    ensures ComputeMetrics([replied1, replied2, contacted]).responseRate == 200
  {
    ExampleCounts(replied1, replied2, contacted);
  }

  /** Two replied leads and one contacted lead count as two replied and one contacted. */
  lemma ExampleCounts(replied1: Lead, replied2: Lead, contacted: Lead)
    requires IsReplied(replied1) && IsReplied(replied2) && IsContacted(contacted)
    ensures Count([replied1, replied2, contacted], IsContacted) == 1
    ensures Count([replied1, replied2, contacted], IsReplied) == 2
  {
    var leads := [replied1, replied2, contacted];
    assert leads[1..] == [replied2, contacted] && leads[1..][1..] == [contacted] && [contacted][1..] == [];
    CountStep(leads, IsContacted);
    CountStep(leads[1..], IsContacted);
    CountStep(leads[1..][1..], IsContacted);
    CountStep(leads, IsReplied);
    CountStep(leads[1..], IsReplied);
    CountStep(leads[1..][1..], IsReplied);
  }

  // ---------------------------------------------------------------------------------------------
  // Campaign names
  // ---------------------------------------------------------------------------------------------

  /** Row `i` is the last row with its id. */
  predicate LastWithId(campaigns: seq<CampaignRef>, i: int)
    requires 0 <= i < |campaigns|
  {
    forall j :: i < j < |campaigns| ==> campaigns[j].id != campaigns[i].id
  }

  /** `m` maps every id of the table, and nothing else, to the name of the last row with that
      id. */
  predicate NamesLastRow(campaigns: seq<CampaignRef>, m: map<int, string>) {
    (forall i :: 0 <= i < |campaigns| ==> campaigns[i].id in m)
    && (forall k :: k in m ==> exists i :: 0 <= i < |campaigns| && campaigns[i].id == k)
    && (forall i :: 0 <= i < |campaigns| && LastWithId(campaigns, i) ==>
      campaigns[i].id in m && m[campaigns[i].id] == campaigns[i].campaignName)
  }

  /** `campaignMap`: the rows are set one after the other, so a later row with the same id
      overwrites an earlier one. */
  function CampaignMap(campaigns: seq<CampaignRef>): (m: map<int, string>)
    ensures NamesLastRow(campaigns, m)
  {
    if |campaigns| == 0 then map[]
    else
      var m := CampaignMap(campaigns[..|campaigns| - 1]);
      SetLastRow(campaigns, m);
      m[campaigns[|campaigns| - 1].id := campaigns[|campaigns| - 1].campaignName]
  }

  lemma SetLastRow(campaigns: seq<CampaignRef>, m: map<int, string>)
    requires |campaigns| > 0
    requires NamesLastRow(campaigns[..|campaigns| - 1], m)
    ensures NamesLastRow(campaigns, m[campaigns[|campaigns| - 1].id := campaigns[|campaigns| - 1].campaignName])
  {
    var init := campaigns[..|campaigns| - 1];
    var last := campaigns[|campaigns| - 1];
    var m' := m[last.id := last.campaignName];
    forall i | 0 <= i < |campaigns|
      ensures campaigns[i].id in m'
    {
      if i < |init| {
        assert init[i] == campaigns[i];
      }
    }
    forall k | k in m'
      ensures exists i :: 0 <= i < |campaigns| && campaigns[i].id == k
    {
      if k != last.id {
        var i :| 0 <= i < |init| && init[i].id == k;
        assert campaigns[i] == init[i];
      } else {
        assert campaigns[|campaigns| - 1].id == k;
      }
    }
    forall i | 0 <= i < |campaigns| && LastWithId(campaigns, i)
      ensures m'[campaigns[i].id] == campaigns[i].campaignName
    {
      if i < |init| {
        assert init[i] == campaigns[i];
        assert campaigns[i].id != last.id;
        forall j | i < j < |init|
          ensures init[j].id != init[i].id
        {
          assert init[j] == campaigns[j];
        }
        assert LastWithId(init, i);
      }
    }
  }

  /** `campaignMap.get(id) || fallback`: the name of the last row with that id, unless it is
      empty; the fallback when the name is empty or no row has the id. */
  function CampaignName(campaigns: seq<CampaignRef>, id: int, fallback: string): (r: string)
    ensures forall j :: 0 <= j < |campaigns| && campaigns[j].id == id && LastWithId(campaigns, j) ==>
      r == (if |campaigns[j].campaignName| > 0 then campaigns[j].campaignName else fallback)
    ensures (forall j :: 0 <= j < |campaigns| ==> campaigns[j].id != id) ==> r == fallback
  {
    var m := CampaignMap(campaigns);
    if id in m && |m[id]| > 0 then m[id] else fallback
  }

  /** Every id in the table has a last row, so a campaign that exists is named after it. */
  lemma {:induction false} LastRowExists(campaigns: seq<CampaignRef>, i: int)
    requires 0 <= i < |campaigns|
    ensures exists j :: i <= j < |campaigns| && campaigns[j].id == campaigns[i].id && LastWithId(campaigns, j)
    decreases |campaigns| - i
  {
    if !LastWithId(campaigns, i) {
      var j :| i < j < |campaigns| && campaigns[j].id == campaigns[i].id;
      LastRowExists(campaigns, j);
    }
  }

  // ---------------------------------------------------------------------------------------------
  // Recent activity
  // ---------------------------------------------------------------------------------------------

  datatype Activity = Activity(lead: Lead, campaignName: string)

  /** `recentActivity`: the first ten leads (the list comes newest first), each with the name of
      its campaign or "Unknown Campaign". */
  function RecentActivity(leads: seq<Lead>, campaigns: seq<CampaignRef>): (r: seq<Activity>)
    ensures |r| == if |leads| < 10 then |leads| else 10
    ensures forall i :: 0 <= i < |r| ==> r[i].lead == leads[i]
    ensures forall i :: 0 <= i < |r| ==>
      r[i].campaignName == CampaignName(campaigns, leads[i].campaignId, "Unknown Campaign")
  {
    var shown := if |leads| < 10 then leads else leads[..10];
    seq(|shown|, i requires 0 <= i < |shown| =>
      Activity(shown[i], CampaignName(campaigns, shown[i].campaignId, "Unknown Campaign")))
  }

  /** The activity follows the order of the list: a lead put in front of the list heads it, and
      the entries before shift down by one, still at most ten. */
  lemma RecentActivityNewestFirst(x: Lead, leads: seq<Lead>, campaigns: seq<CampaignRef>)
    ensures var n := if |leads| < 9 then |leads| else 9;
      RecentActivity([x] + leads, campaigns)
      == [Activity(x, CampaignName(campaigns, x.campaignId, "Unknown Campaign"))] + RecentActivity(leads, campaigns)[..n]
  {
    var n := if |leads| < 9 then |leads| else 9;
    var a := RecentActivity([x] + leads, campaigns);
    var b := [Activity(x, CampaignName(campaigns, x.campaignId, "Unknown Campaign"))] + RecentActivity(leads, campaigns)[..n];
    assert |a| == |b|;
    forall i | 0 <= i < |a|
      ensures a[i] == b[i]
    {
      if i > 0 {
        assert ([x] + leads)[i] == leads[i - 1];
      }
    }
  }
}
