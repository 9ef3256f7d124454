/** The campaign table of the outreach overview page: the leads grouped by campaign in one pass
    (`campaignStats`), each group turned into a row with a name and a reply rate, and the five
    rows with the best rate (`campaignPerformance`). */
module CampaignPerformance {
  import opened Wrappers
  import opened Strings
  import opened Seqs
  import Tally
  import Percent
  import OutreachStats

  type Lead = OutreachStats.Lead

  // ---------------------------------------------------------------------------------------------
  // Grouping by campaign
  // ---------------------------------------------------------------------------------------------

  /** The counters kept for one campaign id. */
  datatype CampaignStats = CampaignStats(id: int, total: nat, contacted: nat, replied: nat)

  /** `stats.total++`, and the contacted or replied counter when the status is exactly that. */
  function Tick(s: CampaignStats, lead: Lead): CampaignStats {
    CampaignStats(
      s.id,
      s.total + 1,
      s.contacted + (if lead.outreachStatus == Some("contacted") then 1 else 0),
      s.replied + (if lead.outreachStatus == Some("replied") then 1 else 0))
  }

  predicate HasId(t: seq<CampaignStats>, id: int) {
    exists i | 0 <= i < |t| :: t[i].id == id
  }

  predicate DistinctIds(t: seq<CampaignStats>) {
    forall i, j :: 0 <= i < j < |t| ==> t[i].id != t[j].id
  }

  /** Every group has a lead, and its contacted and replied leads are among its leads. */
  predicate WellCounted(t: seq<CampaignStats>) {
    forall i :: 0 <= i < |t| ==> t[i].total > 0 && t[i].contacted + t[i].replied <= t[i].total
  }

  /** One iteration of the `forEach`: the lead's group is ticked, or a new group is appended for a
      campaign id not seen before. */
  function Record(t: seq<CampaignStats>, lead: Lead): (r: seq<CampaignStats>)
    requires DistinctIds(t)
    ensures DistinctIds(r)
    ensures WellCounted(t) ==> WellCounted(r)
    ensures HasId(t, lead.campaignId) ==> |r| == |t|
    ensures HasId(t, lead.campaignId) ==> forall i :: 0 <= i < |t| ==>
      r[i] == (if t[i].id == lead.campaignId then Tick(t[i], lead) else t[i])
    ensures !HasId(t, lead.campaignId) ==> r == t + [Tick(CampaignStats(lead.campaignId, 0, 0, 0), lead)]
  {
    var cid := lead.campaignId;
    if HasId(t, cid) then
      seq(|t|, i requires 0 <= i < |t| => if t[i].id == cid then Tick(t[i], lead) else t[i])
    else
      t + [Tick(CampaignStats(cid, 0, 0, 0), lead)]
  }

  /** `campaignStats`: the groups in the order their campaigns first appear; no campaign twice,
      and in every group the contacted and replied leads together are at most its leads. */
  function StatsByCampaign(leads: seq<Lead>): (r: seq<CampaignStats>)
    ensures DistinctIds(r)
    ensures WellCounted(r)
  {
    if |leads| == 0 then []
    else Record(StatsByCampaign(leads[..|leads| - 1]), leads[|leads| - 1])
  }

  /** The campaign id of every lead, in order. */
  function CampaignIds(leads: seq<Lead>): (r: seq<int>)
    ensures |r| == |leads|
  {
    seq(|leads|, i requires 0 <= i < |leads| => leads[i].campaignId)
  }

  /** The campaign ids of the leads whose status is exactly `status`. */
  function IdsWithStatus(leads: seq<Lead>, status: string): seq<int> {
    if |leads| == 0 then []
    else
      IdsWithStatus(leads[..|leads| - 1], status)
      + (if leads[|leads| - 1].outreachStatus == Some(status) then [leads[|leads| - 1].campaignId] else [])
  }

  lemma {:induction false} IdsWithStatusAreIds(leads: seq<Lead>, status: string, k: int)
    ensures k in IdsWithStatus(leads, status) ==> k in CampaignIds(leads)
  {
    if |leads| > 0 {
      var init := leads[..|leads| - 1];
      IdsWithStatusAreIds(init, status, k);
      if k in IdsWithStatus(init, status) {
        var i :| 0 <= i < |init| && CampaignIds(init)[i] == k;
        assert CampaignIds(leads)[i] == k;
      } else if k in IdsWithStatus(leads, status) {
        assert CampaignIds(leads)[|leads| - 1] == k;
      }
    }
  }

  /** The groups line up with the count-by-key histogram of the campaign ids. */
  predicate MatchesHistogram(t: seq<CampaignStats>, h: seq<Tally.Entry<int>>) {
    |t| == |h| && forall i :: 0 <= i < |t| ==> t[i].id == h[i].key && t[i].total == h[i].count
  }

  /** The contacted and replied counters of every group count the contacted and replied leads of
      its campaign. */
  predicate CountsStatuses(t: seq<CampaignStats>, leads: seq<Lead>) {
    CountsIn(t, multiset(IdsWithStatus(leads, "contacted")), multiset(IdsWithStatus(leads, "replied")))
  }

  /** Adding a lead adds its campaign id to the ids with its status, and to no other list. */
  lemma IdsWithStatusStep(leads: seq<Lead>, status: string, k: int)
    requires |leads| > 0
    ensures multiset(IdsWithStatus(leads, status))[k]
      == multiset(IdsWithStatus(leads[..|leads| - 1], status))[k]
         + (if leads[|leads| - 1].outreachStatus == Some(status) && leads[|leads| - 1].campaignId == k then 1 else 0)
  {
  }

  lemma StatusesStep(leads: seq<Lead>)
    requires |leads| > 0
    ensures var last := leads[|leads| - 1];
      forall k :: multiset(IdsWithStatus(leads, "contacted"))[k]
        == multiset(IdsWithStatus(leads[..|leads| - 1], "contacted"))[k]
           + (if last.outreachStatus == Some("contacted") && last.campaignId == k then 1 else 0)
    ensures var last := leads[|leads| - 1];
      forall k :: multiset(IdsWithStatus(leads, "replied"))[k]
        == multiset(IdsWithStatus(leads[..|leads| - 1], "replied"))[k]
           + (if last.outreachStatus == Some("replied") && last.campaignId == k then 1 else 0)
  {
    var last := leads[|leads| - 1];
    forall k
      ensures multiset(IdsWithStatus(leads, "contacted"))[k]
        == multiset(IdsWithStatus(leads[..|leads| - 1], "contacted"))[k]
           + (if last.outreachStatus == Some("contacted") && last.campaignId == k then 1 else 0)
      ensures multiset(IdsWithStatus(leads, "replied"))[k]
        == multiset(IdsWithStatus(leads[..|leads| - 1], "replied"))[k]
           + (if last.outreachStatus == Some("replied") && last.campaignId == k then 1 else 0)
    {
      IdsWithStatusStep(leads, "contacted", k);
      IdsWithStatusStep(leads, "replied", k);
    }
  }

  /** Recording a lead ticks its group as the histogram bumps its key. */
  lemma RecordMatchesBump(t: seq<CampaignStats>, h: seq<Tally.Entry<int>>, lead: Lead)
    requires DistinctIds(t) && Tally.DistinctKeys(h) && MatchesHistogram(t, h)
    ensures MatchesHistogram(Record(t, lead), Tally.Bump(h, lead.campaignId))
  {
    var cid := lead.campaignId;
    if HasId(t, cid) {
      var i :| 0 <= i < |t| && t[i].id == cid;
      assert h[i].key == cid;
    }
  }

  /** Recording a lead keeps the contacted and replied counters in step with the leads. */
  lemma RecordCountsStatuses(leads: seq<Lead>, t: seq<CampaignStats>)
    requires |leads| > 0
    requires DistinctIds(t) && CountsStatuses(t, leads[..|leads| - 1])
    requires !HasId(t, leads[|leads| - 1].campaignId) ==>
      leads[|leads| - 1].campaignId !in IdsWithStatus(leads[..|leads| - 1], "contacted")
      && leads[|leads| - 1].campaignId !in IdsWithStatus(leads[..|leads| - 1], "replied")
    ensures CountsStatuses(Record(t, leads[|leads| - 1]), leads)
  {
    StatusesStep(leads);
    RecordCounts(t, leads[|leads| - 1],
      multiset(IdsWithStatus(leads[..|leads| - 1], "contacted")), multiset(IdsWithStatus(leads, "contacted")),
      multiset(IdsWithStatus(leads[..|leads| - 1], "replied")), multiset(IdsWithStatus(leads, "replied")));
  }

  /** The counters against any two tallies of contacted and replied ids. */
  predicate CountsIn(t: seq<CampaignStats>, contacted: multiset<int>, replied: multiset<int>) {
    forall i :: 0 <= i < |t| ==> t[i].contacted == contacted[t[i].id] && t[i].replied == replied[t[i].id]
  }

  /** Recording a lead whose status adds its campaign id to the tallies keeps the counters in
      step, provided a campaign without a group had no id in the tallies yet. */
  lemma RecordCounts(t: seq<CampaignStats>, lead: Lead,
                     c0: multiset<int>, c1: multiset<int>, r0: multiset<int>, r1: multiset<int>)
    requires DistinctIds(t) && CountsIn(t, c0, r0)
    requires forall k :: c1[k] == c0[k] + (if lead.outreachStatus == Some("contacted") && lead.campaignId == k then 1 else 0)
    requires forall k :: r1[k] == r0[k] + (if lead.outreachStatus == Some("replied") && lead.campaignId == k then 1 else 0)
    requires !HasId(t, lead.campaignId) ==> c0[lead.campaignId] == 0 && r0[lead.campaignId] == 0
    ensures CountsIn(Record(t, lead), c1, r1)
  {
    var r := Record(t, lead);
    forall i | 0 <= i < |r|
      ensures r[i].contacted == c1[r[i].id] && r[i].replied == r1[r[i].id]
    {
      if i < |t| {
        assert r[i].id == t[i].id;
      }
    }
  }

  /** The one-pass grouping agrees with an independent count of the campaign ids: the same
      campaigns in the same order, each with as many leads as its id occurs, and with as many
      contacted and replied leads as there are contacted and replied leads of that campaign. */
  lemma {:induction false} StatsAgreeWithHistogram(leads: seq<Lead>)
    ensures MatchesHistogram(StatsByCampaign(leads), Tally.Build(CampaignIds(leads)))
    ensures CountsStatuses(StatsByCampaign(leads), leads)
  {
    if |leads| > 0 {
      var init := leads[..|leads| - 1];
      var last := leads[|leads| - 1];
      var t := StatsByCampaign(init);
      var h := Tally.Build(CampaignIds(init));
      StatsAgreeWithHistogram(init);
      Tally.BuildCounts(CampaignIds(init));
      assert CampaignIds(leads)[..|leads| - 1] == CampaignIds(init);
      assert CampaignIds(leads)[|leads| - 1] == last.campaignId;
      assert Tally.Build(CampaignIds(leads)) == Tally.Bump(h, last.campaignId);
      RecordMatchesBump(t, h, last);
      if !HasId(t, last.campaignId) {
        IdsWithStatusAreIds(init, "contacted", last.campaignId);
        IdsWithStatusAreIds(init, "replied", last.campaignId);
      }
      RecordCountsStatuses(leads, t);
    }
  }

  /** The sum of the group totals. */
  function SumTotals(t: seq<CampaignStats>): nat {
    if |t| == 0 then 0 else t[0].total + SumTotals(t[1..])
  }

  lemma {:induction false} SumTotalsMatch(t: seq<CampaignStats>, h: seq<Tally.Entry<int>>)
    requires MatchesHistogram(t, h)
    ensures SumTotals(t) == Tally.Total(h)
  {
    if |t| > 0 {
      SumTotalsMatch(t[1..], h[1..]);
    }
  }

  /** Every lead is in exactly one group: the groups are the campaigns the leads belong to, each
      holding as many leads as there are of its campaign, so the totals add up to the number of
      leads. */
  lemma StatsCoverEveryLead(leads: seq<Lead>)
    ensures SumTotals(StatsByCampaign(leads)) == |leads|
    ensures forall k :: HasId(StatsByCampaign(leads), k) <==> k in CampaignIds(leads)
    ensures forall i :: 0 <= i < |StatsByCampaign(leads)| ==>
      StatsByCampaign(leads)[i].total == multiset(CampaignIds(leads))[StatsByCampaign(leads)[i].id]
  {
    var t := StatsByCampaign(leads);
    var h := Tally.Build(CampaignIds(leads));
    StatsAgreeWithHistogram(leads);
    Tally.BuildCounts(CampaignIds(leads));
    SumTotalsMatch(t, h);
    forall k
      ensures HasId(t, k) <==> Tally.HasKey(h, k)
    {
      if HasId(t, k) {
        var i :| 0 <= i < |t| && t[i].id == k;
        assert h[i].key == k;
      }
      if Tally.HasKey(h, k) {
        var i :| 0 <= i < |h| && h[i].key == k;
        assert t[i].id == k;
      }
    }
    forall i | 0 <= i < |t|
      ensures t[i].total == multiset(CampaignIds(leads))[t[i].id]
    {
      assert Tally.Lookup(h, h[i].key) == h[i].count;
    }
  }

  // ---------------------------------------------------------------------------------------------
  // Rows, ranking and the top five
  // ---------------------------------------------------------------------------------------------

  /** A row of the campaign table. */
  datatype Performance = Performance(name: string, total: nat, contacted: nat, replied: nat, rate: nat)

  /** A group as a row: the campaign's name or "Campaign <id>", the counters, and the rounded
      percentage of replied over contacted, 0 when nothing was contacted. */
  function PerformanceOf(campaigns: seq<OutreachStats.CampaignRef>, s: CampaignStats): (r: Performance)
    ensures r.total == s.total && r.contacted == s.contacted && r.replied == s.replied
    ensures s.contacted == 0 ==> r.rate == 0
    ensures s.contacted > 0 ==> r.rate == Percent.RoundedPercent(s.replied, s.contacted)
    ensures r.name == OutreachStats.CampaignName(campaigns, s.id, "Campaign " + IntToString(s.id))
  {
    Performance(
      OutreachStats.CampaignName(campaigns, s.id, "Campaign " + IntToString(s.id)),
      s.total, s.contacted, s.replied,
      if s.contacted > 0 then Percent.RoundedPercent(s.replied, s.contacted) else 0)
  }

  /** One row per group, in the order of the groups. */
  function PerformanceRows(leads: seq<Lead>, campaigns: seq<OutreachStats.CampaignRef>): (r: seq<Performance>)
    ensures |r| == |StatsByCampaign(leads)|
  {
    var t := StatsByCampaign(leads);
    seq(|t|, i requires 0 <= i < |t| => PerformanceOf(campaigns, t[i]))
  }

  predicate NonIncreasing(rows: seq<Performance>) {
    forall i, j :: 0 <= i < j < |rows| ==> rows[i].rate >= rows[j].rate
  }

  /** Puts `x` before the first row whose rate is not above its own. */
  function Insert(x: Performance, rows: seq<Performance>): (r: seq<Performance>)
    ensures |r| == |rows| + 1
    ensures multiset(r) == multiset{x} + multiset(rows)
  {
    if |rows| == 0 || rows[0].rate <= x.rate then [x] + rows
    else
      assert rows == [rows[0]] + rows[1..];
      [rows[0]] + Insert(x, rows[1..])
  }

  lemma {:induction false} InsertKeepsOrder(x: Performance, rows: seq<Performance>)
    requires NonIncreasing(rows)
    ensures NonIncreasing(Insert(x, rows))
  {
    if |rows| > 0 && rows[0].rate > x.rate {
      var tail := Insert(x, rows[1..]);
      InsertKeepsOrder(x, rows[1..]);
      forall k | 0 <= k < |tail|
        ensures tail[k].rate <= rows[0].rate
      {
        assert tail[k] in multiset(tail);
        if tail[k] != x {
          assert tail[k] in multiset(rows[1..]);
          var j :| 0 <= j < |rows[1..]| && rows[1..][j] == tail[k];
          assert rows[j + 1] == tail[k];
        }
      }
      assert Insert(x, rows) == [rows[0]] + tail;
    }
  }

  /** `.sort((a, b) => b.rate - a.rate)`: the same rows, highest rate first. */
  function SortByRate(rows: seq<Performance>): (r: seq<Performance>)
    ensures |r| == |rows|
    ensures multiset(r) == multiset(rows)
    ensures NonIncreasing(r)
  {
    if |rows| == 0 then []
    else
      assert rows == [rows[0]] + rows[1..];
      InsertKeepsOrder(rows[0], SortByRate(rows[1..]));
      Insert(rows[0], SortByRate(rows[1..]))
  }

  /** The rows with rate `v`, in order. */
  function WithRate(rows: seq<Performance>, v: nat): seq<Performance> {
    if |rows| == 0 then []
    else (if rows[0].rate == v then [rows[0]] else []) + WithRate(rows[1..], v)
  }

  lemma WithRateCons(a: Performance, rest: seq<Performance>, v: nat)
    ensures WithRate([a] + rest, v) == (if a.rate == v then [a] else []) + WithRate(rest, v)
  {
    assert ([a] + rest)[1..] == rest;
  }

  lemma {:induction false} InsertWithRate(x: Performance, rows: seq<Performance>, v: nat)
    ensures WithRate(Insert(x, rows), v) == (if x.rate == v then [x] else []) + WithRate(rows, v)
  {
    if |rows| == 0 || rows[0].rate <= x.rate {
      WithRateCons(x, rows, v);
    } else {
      var tail := Insert(x, rows[1..]);
      assert Insert(x, rows) == [rows[0]] + tail;
      InsertWithRate(x, rows[1..], v);
      WithRateCons(rows[0], tail, v);
      WithRateCons(rows[0], rows[1..], v);
      assert rows == [rows[0]] + rows[1..];
      var mine := if x.rate == v then [x] else [];
      var head := if rows[0].rate == v then [rows[0]] else [];
      assert WithRate(Insert(x, rows), v) == head + (mine + WithRate(rows[1..], v));
      assert x.rate == v ==> head == [];
      SwapAroundEmpty(head, mine, WithRate(rows[1..], v));
    }
  }

  /** Two pieces of which one is empty can be put down in either order. */
  lemma SwapAroundEmpty<T>(a: seq<T>, b: seq<T>, w: seq<T>)
    requires a == [] || b == []
    ensures a + (b + w) == b + (a + w)
  {
    if a == [] {
      assert a + (b + w) == b + w;
      assert a + w == w;
    } else {
      assert b + w == w;
      assert b + (a + w) == a + w;
    }
  }

  /** The sort is stable: rows with the same rate keep their order (`Array.prototype.sort` is
      stable). */
  lemma {:induction false} SortIsStable(rows: seq<Performance>, v: nat)
    ensures WithRate(SortByRate(rows), v) == WithRate(rows, v)
  {
    if |rows| > 0 {
      SortIsStable(rows[1..], v);
      InsertWithRate(rows[0], SortByRate(rows[1..]), v);
    }
  }

  /** `campaignPerformance`: the rows of the campaigns sorted by rate and cut to the first five. */
  function CampaignPerformance(leads: seq<Lead>, campaigns: seq<OutreachStats.CampaignRef>): (r: seq<Performance>)
    ensures |r| == if |StatsByCampaign(leads)| < 5 then |StatsByCampaign(leads)| else 5
    ensures NonIncreasing(r)
    ensures multiset(r) <= multiset(PerformanceRows(leads, campaigns))
  {
    TopFive(PerformanceRows(leads, campaigns))
  }

  /** `.sort((a, b) => b.rate - a.rate).slice(0, 5)`. */
  function TopFive(rows: seq<Performance>): (r: seq<Performance>)
    ensures |r| == if |rows| < 5 then |rows| else 5
    ensures NonIncreasing(r)
    ensures multiset(r) <= multiset(rows)
  {
    var sorted := SortByRate(rows);
    var n := if |sorted| < 5 then |sorted| else 5;
    PrefixKeepsOrder(sorted, n);
    sorted[..n]
  }

  lemma PrefixKeepsOrder(sorted: seq<Performance>, n: nat)
    requires n <= |sorted|
    ensures NonIncreasing(sorted) ==> NonIncreasing(sorted[..n])
    ensures multiset(sorted[..n]) <= multiset(sorted)
  {
    assert sorted == sorted[..n] + sorted[n..];
  }

  /** In rows sorted by rate, a row past the first `n` has a rate no better than any of them. */
  lemma PrefixIsBest(sorted: seq<Performance>, n: nat, x: Performance)
    requires NonIncreasing(sorted) && n <= |sorted|
    requires x in multiset(sorted) - multiset(sorted[..n])
    ensures forall i :: 0 <= i < n ==> sorted[i].rate >= x.rate
  {
    var rest := sorted[n..];
    assert sorted == sorted[..n] + rest;
    assert multiset(sorted) == multiset(sorted[..n]) + multiset(rest);
    assert multiset(rest)[x] > 0;
    var j :| 0 <= j < |rest| && rest[j] == x;
    assert sorted[n + j] == x;
  }

  /** No row left out has a better rate than a row shown. */
  lemma TopFiveAreBest(rows: seq<Performance>)
    ensures forall x | x in multiset(rows) - multiset(TopFive(rows)) ::
      forall i | 0 <= i < |TopFive(rows)| :: TopFive(rows)[i].rate >= x.rate
  {
    var sorted := SortByRate(rows);
    var n := if |sorted| < 5 then |sorted| else 5;
    assert TopFive(rows) == sorted[..n];
    assert multiset(sorted) == multiset(rows);
    forall x | x in multiset(rows) - multiset(TopFive(rows))
      ensures forall i | 0 <= i < |TopFive(rows)| :: TopFive(rows)[i].rate >= x.rate
    {
      PrefixIsBest(sorted, n, x);
    }
  }

  /** Every row shown is a campaign of the leads: its counters are consistent, and its rate is 0
      when it has no contacted lead. */
  lemma ShownRowsAreGroups(leads: seq<Lead>, campaigns: seq<OutreachStats.CampaignRef>)
    ensures forall row | row in CampaignPerformance(leads, campaigns) ::
      row.total > 0 && row.contacted + row.replied <= row.total && (row.contacted == 0 ==> row.rate == 0)
    ensures forall row | row in CampaignPerformance(leads, campaigns) :: RowOfSomeCampaign(leads, campaigns, row)
  {
    var rows := PerformanceRows(leads, campaigns);
    SubMultisetMembers(CampaignPerformance(leads, campaigns), rows);
    forall row | row in rows
      ensures row.total > 0 && row.contacted + row.replied <= row.total && (row.contacted == 0 ==> row.rate == 0)
      ensures RowOfSomeCampaign(leads, campaigns, row)
    {
      var j :| 0 <= j < |rows| && rows[j] == row;
      assert rows[j] == PerformanceOf(campaigns, StatsByCampaign(leads)[j]);
    }
  }

  /** `row` is the performance row of one of the campaign groups. */
  predicate RowOfSomeCampaign(leads: seq<Lead>, campaigns: seq<OutreachStats.CampaignRef>, row: Performance) {
    exists j :: 0 <= j < |StatsByCampaign(leads)| && row == PerformanceOf(campaigns, StatsByCampaign(leads)[j])
  }

  /** Every element of a sub-multiset of a list is in the list. */
  lemma SubMultisetMembers<T>(r: seq<T>, rows: seq<T>)
    requires multiset(r) <= multiset(rows)
    ensures forall x | x in r :: x in rows
  {
    forall x | x in r
      ensures x in rows
    {
      assert x in multiset(r);
    }
  }

}
