/** The campaigns page: the list of campaigns with a pause / resume switch per row, the badge that
    shows each campaign's status and the regions cell. */
module Campaigns {
  import opened Wrappers
  import opened Strings

  /** A row of the `campaigns` table. */
  datatype Campaign = Campaign(
    id: int,
    createdAt: string,
    campaignName: string,
    targetNiche: Option<string>,
    sources: Option<seq<string>>,
    regions: Option<seq<string>>,
    keywords: Option<seq<string>>,
    quantity: int,
    status: string)

  /** The status `toggleStatus` asks for: an active campaign is paused, anything else, an unknown
      status included, is activated. */
  function NextStatus(status: string): (r: string)
    ensures r == "active" || r == "paused"
    ensures r == "paused" <==> status == "active"
  {
    if status == "active" then "paused" else "active"
  }

  /** Two toggles restore an active or paused campaign; any other status is activated by the
      first toggle and paused by the second. */
  lemma NextStatusTwice(status: string)
    ensures status == "active" || status == "paused" ==> NextStatus(NextStatus(status)) == status
    ensures status != "active" ==> NextStatus(status) == "active"
    ensures status != "active" && status != "paused" ==> NextStatus(NextStatus(status)) == "paused"
  {
  }

  /** `toggleStatus(campaign)` once the store has answered (`ok` is false on an error): on success
      every campaign with that id takes the new status and nothing else changes; on an error the
      list is left as it was. */
  function ToggleStatus(campaigns: seq<Campaign>, campaign: Campaign, ok: bool): (r: seq<Campaign>)
    ensures !ok ==> r == campaigns
    ensures |r| == |campaigns|
    ensures forall i :: 0 <= i < |campaigns| ==> r[i].(status := campaigns[i].status) == campaigns[i]
    ensures ok ==> forall i :: 0 <= i < |campaigns| ==>
      r[i].status == (if campaigns[i].id == campaign.id then NextStatus(campaign.status) else campaigns[i].status)
  {
    if !ok then campaigns
    else
      var next := NextStatus(campaign.status);
      seq(|campaigns|, i requires 0 <= i < |campaigns| =>
        if campaigns[i].id == campaign.id then campaigns[i].(status := next) else campaigns[i])
  }

  /** Toggling a row twice, both times successfully and from the row as it then stands, brings an
      active or paused campaign back to where it was. */
  lemma ToggleStatusTwice(campaigns: seq<Campaign>, i: int)
    requires 0 <= i < |campaigns|
    requires campaigns[i].status == "active" || campaigns[i].status == "paused"
    requires forall j :: 0 <= j < |campaigns| && campaigns[j].id == campaigns[i].id ==> campaigns[j] == campaigns[i]
    ensures var once := ToggleStatus(campaigns, campaigns[i], true);
      ToggleStatus(once, once[i], true) == campaigns
  {
    var once := ToggleStatus(campaigns, campaigns[i], true);
    var twice := ToggleStatus(once, once[i], true);
    forall j | 0 <= j < |campaigns|
      ensures twice[j] == campaigns[j]
    {
      assert once[j].(status := campaigns[j].status) == campaigns[j];
      assert twice[j].(status := once[j].status) == once[j];
    }
  }

  /** The badge style of a status. */
  datatype BadgeVariant = Default | Secondary | Outline

  /** Active campaigns get the filled badge, paused ones the muted one, anything else an outline. */
  function Badge(status: string): (r: BadgeVariant)
    ensures r == Default <==> status == "active"
    ensures r == Secondary <==> status == "paused"
  {
    if status == "active" then Default
    else if status == "paused" then Secondary
    else Outline
  }

  /** The regions cell: the first two regions joined by ", ", followed by "..." when there are more;
      an empty cell when the column is empty. */
  function RegionsCell(regions: Option<seq<string>>): (r: string)
    ensures regions.None? ==> r == ""
    ensures regions.Some? && |regions.value| > 2 ==>
      r == regions.value[0] + ", " + regions.value[1] + "..."
    ensures regions.Some? && |regions.value| <= 2 ==> r == Join(regions.value, ", ")
  {
    match regions
    case None => ""
    case Some(rs) =>
      var shown := if |rs| > 2 then rs[..2] else rs;
      if |rs| > 2 then
        JoinTwo(rs[0], rs[1], ", ");
        assert shown == [rs[0], rs[1]];
        Join(shown, ", ") + "..."
      else Join(shown, ", ")
  }

  lemma JoinTwo(a: string, b: string, sep: string)
    ensures Join([a, b], sep) == a + sep + b
  {
    assert [a, b][1..] == [b];
  }

  /** A cell ends in "..." exactly when regions were left out (region names themselves not
      ending in a dot). */
  lemma RegionsCellEllipsis(regions: seq<string>)
    requires forall i :: 0 <= i < |regions| ==> |regions[i]| > 0 && regions[i][|regions[i]| - 1] != '.'
    ensures var r := RegionsCell(Some(regions));
      (|r| >= 3 && r[|r| - 3..] == "...") <==> |regions| > 2
  {
    var r := RegionsCell(Some(regions));
    if |regions| == 1 {
      assert r == regions[0];
    } else if |regions| == 2 {
      JoinTwo(regions[0], regions[1], ", ");
      assert regions == [regions[0], regions[1]];
      assert r[|r| - 1] == regions[1][|regions[1]| - 1];
    }
  }
}
