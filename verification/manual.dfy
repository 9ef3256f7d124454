/** The manual (Instagram) outreach page: the list of Instagram leads with its search and status
    filter, the status change, the profile link, the product line and the direct messages it
    derives for a lead, and the counters above the list. */
module ManualOutreach {
  import opened Wrappers
  import opened Nullable
  import opened Strings
  import opened Seqs
  import Templates
  import TemplateFacts
  import Realtime

  /** A row of the `instgram_leads` table. */
  datatype InstagramLead = InstagramLead(
    id: string,
    campaignId: string,
    searchTerm: Option<string>,
    username: Option<string>,
    url: Option<string>,
    fullname: Option<string>,
    biography: Option<string>,
    createdAt: string,
    status: string)

  function LeadId(lead: InstagramLead): string {
    lead.id
  }

  // ---------------------------------------------------------------------------------------------
  // Search and filter
  // ---------------------------------------------------------------------------------------------

  /** `field?.toLowerCase().includes(query.toLowerCase())`: a missing field never matches. */
  predicate FieldMatches(field: Option<string>, query: string) {
    field.Some? && Includes(ToLower(field.value), ToLower(query))
  }

  /** An empty query matches every lead; otherwise the username, full name, biography or search
      term must contain it, ignoring case. */
  predicate MatchesSearch(lead: InstagramLead, query: string) {
    |query| == 0 || FieldMatches(lead.username, query) || FieldMatches(lead.fullname, query)
    || FieldMatches(lead.biography, query) || FieldMatches(lead.searchTerm, query)
  }

  predicate Shown(lead: InstagramLead, query: string, statusFilter: string) {
    MatchesSearch(lead, query) && (statusFilter == "all" || lead.status == statusFilter)
  }

  /** `filteredLeads`: the leads the list shows, in their original order. */
  function FilteredLeads(leads: seq<InstagramLead>, query: string, statusFilter: string): (r: seq<InstagramLead>)
    ensures IsSubsequence(r, leads)
    ensures forall i :: 0 <= i < |r| ==> statusFilter == "all" || r[i].status == statusFilter
    ensures forall i :: 0 <= i < |r| && |query| > 0 ==>
      FieldMatches(r[i].username, query) || FieldMatches(r[i].fullname, query)
      || FieldMatches(r[i].biography, query) || FieldMatches(r[i].searchTerm, query)
    ensures forall i :: 0 <= i < |leads| && Shown(leads[i], query, statusFilter) ==>
      multiset(r)[leads[i]] == multiset(leads)[leads[i]]
  {
    Filter(leads, lead => Shown(lead, query, statusFilter))
  }

  /** With no query and the filter on "all" the list shows every lead. */
  lemma FilterAllShowsEverything(leads: seq<InstagramLead>)
    ensures FilteredLeads(leads, "", "all") == leads
  {
    FilterKeepsAll(leads, lead => Shown(lead, "", "all"));
  }

  // ---------------------------------------------------------------------------------------------
  // Status change and realtime events
  // ---------------------------------------------------------------------------------------------

  /** The page's state as far as the status change is concerned: the list and the open lead. */
  type Screen = Realtime.Screen<InstagramLead>

  /** `updateLeadStatus(newStatus)` once the store has answered (`ok` is false on an error).
      Without an open lead, or on an error, nothing changes; otherwise every row with the open
      lead's id gets the new status, keeping its own other fields, and so does the open lead. */
  function UpdateLeadStatus(s: Screen, newStatus: string, ok: bool): (r: Screen)
    ensures s.selected.None? || !ok ==> r == s
    ensures s.selected.Some? && ok ==> r.selected == Some(s.selected.value.(status := newStatus))
    ensures s.selected.Some? && ok ==> |r.leads| == |s.leads| && forall i :: 0 <= i < |s.leads| ==>
      r.leads[i] == (if s.leads[i].id == s.selected.value.id then s.leads[i].(status := newStatus) else s.leads[i])
  {
    if s.selected.None? || !ok then s
    else
      var id := s.selected.value.id;
      Realtime.Screen(
        seq(|s.leads|, i requires 0 <= i < |s.leads| =>
          if s.leads[i].id == id then s.leads[i].(status := newStatus) else s.leads[i]),
        Some(s.selected.value.(status := newStatus)))
  }

  /** A status change keeps the ids in order and changes no field other than the status. */
  lemma UpdateOnlyTouchesStatus(s: Screen, newStatus: string, ok: bool)
    ensures var r := UpdateLeadStatus(s, newStatus, ok);
      Realtime.Ids(r.leads, LeadId) == Realtime.Ids(s.leads, LeadId)
      && forall i :: 0 <= i < |s.leads| ==> r.leads[i].(status := s.leads[i].status) == s.leads[i]
  {
  }

  /** Setting the same status twice is the same as setting it once. */
  lemma UpdateIdempotent(s: Screen, newStatus: string)
    ensures var r := UpdateLeadStatus(s, newStatus, true);
      UpdateLeadStatus(r, newStatus, true) == r
  {
    var r := UpdateLeadStatus(s, newStatus, true);
    if s.selected.Some? {
      var twice := UpdateLeadStatus(r, newStatus, true);
      assert r.selected.value.id == s.selected.value.id;
      assert twice.leads == r.leads;
    }
  }

  // ---------------------------------------------------------------------------------------------
  // Profile link, product line and messages
  // ---------------------------------------------------------------------------------------------

  const ProfileBase := "https://instagram.com/"

  /** `getInstagramUrl`: the stored URL, else the profile URL built from the username with its
      first '@' removed, else "#". */
  function InstagramUrl(lead: InstagramLead): (r: string)
    ensures Present(lead.url) ==> r == lead.url.value
    ensures !Present(lead.url) && Present(lead.username) ==>
      ProfileBase <= r && r[|ProfileBase|..] == RemoveFirst(lead.username.value, '@')
    ensures !Present(lead.url) && !Present(lead.username) ==> r == "#"
  {
    if Present(lead.url) then lead.url.value
    else if Present(lead.username) then ProfileBase + RemoveFirst(lead.username.value, '@')
    else "#"
  }

  /** A handle written "@name" links to the profile of "name"; a handle without '@' is used as
      is; a later '@' is kept. */
  lemma ProfileUrlOfHandle(lead: InstagramLead, handle: string)
    requires !Present(lead.url)
    ensures '@' !in handle && |handle| > 0 && lead.username == Some(handle) ==>
      InstagramUrl(lead) == ProfileBase + handle
    ensures lead.username == Some("@" + handle) ==> InstagramUrl(lead) == ProfileBase + handle
  {
    if lead.username == Some("@" + handle) {
      assert TakeUntil("@" + handle, '@') == "";
      assert ("@" + handle)[1..] == handle;
    }
  }

  /** `getLineType`: the line inferred from the biography alone. */
  function LineType(lead: InstagramLead): (r: Templates.LineType)
    ensures !Present(lead.biography) ==> r == Templates.Family
    ensures Present(lead.biography) ==> r == Templates.DetectLineFocus(lead.biography)
  {
    Templates.DetectLineFocus(lead.biography)
  }

  /** What the page hands to the direct-message template: full name, username and biography, each
      only when non-empty. */
  function DmVariables(lead: InstagramLead): Templates.LeadVariables {
    Templates.LeadVariables(
      contactFirstName := None,
      businessName := None,
      city := None,
      country := None,
      productFocus := None,
      notesForOutreach := None,
      username := Defined(lead.username),
      fullname := Defined(lead.fullname),
      biography := Defined(lead.biography))
  }

  /** What the page hands to the WhatsApp templates: full name and username only. */
  function WhatsAppVariables(lead: InstagramLead): Templates.LeadVariables {
    DmVariables(lead).(biography := None)
  }

  /** The first message shown for a lead greets its first name, offers the range of the line the
      page shows for it, and names the username (or "your store") as the retailer. */
  lemma InstagramDMForLead(lead: InstagramLead)
    ensures Templates.DmGreeting(Templates.FirstName(lead.fullname)) <= Templates.InstagramDM(DmVariables(lead))
    ensures Includes(Templates.InstagramDM(DmVariables(lead)), Templates.RangeOf(LineType(lead)))
    ensures Includes(Templates.InstagramDM(DmVariables(lead)),
      Templates.RetailersLike(OrElse(lead.username, "your store")))
  {
    var v := DmVariables(lead);
    TemplateFacts.InstagramDMShape(v);
    assert Templates.DmName(v) == Templates.FirstName(lead.fullname);
    assert Templates.StoreName(v) == OrElse(lead.username, "your store");
    assert Templates.DetectLineFocus(v.biography) == LineType(lead);
  }

  /** Both WhatsApp follow-ups name the username (or "your store"); the second greets the lead's
      first name. */
  lemma WhatsAppForLead(lead: InstagramLead)
    ensures Includes(Templates.WhatsAppFollowUp1(WhatsAppVariables(lead)), OrElse(lead.username, "your store"))
    ensures ("Hi " + Templates.FirstName(lead.fullname)) <= Templates.WhatsAppFollowUp2(WhatsAppVariables(lead))
    ensures Includes(Templates.WhatsAppFollowUp2(WhatsAppVariables(lead)), OrElse(lead.username, "your store"))
  {
    var v := WhatsAppVariables(lead);
    TemplateFacts.WhatsAppFollowUp1City(v);
    TemplateFacts.WhatsAppFollowUp2Shape(v);
    assert Templates.DmName(v) == Templates.FirstName(lead.fullname);
    assert Templates.StoreName(v) == OrElse(lead.username, "your store");
  }

  // ---------------------------------------------------------------------------------------------
  // Counters
  // ---------------------------------------------------------------------------------------------

  predicate IsNew(lead: InstagramLead) { lead.status == "new" }
  predicate IsContacted(lead: InstagramLead) { lead.status == "contacted" }
  predicate IsReplied(lead: InstagramLead) { lead.status == "replied" }
  predicate IsInterested(lead: InstagramLead) { lead.status == "interested" }

  datatype Stats = Stats(total: nat, newCount: nat, contacted: nat, replied: nat, interested: nat)

  /** `stats`: four exact-match counts on distinct statuses, so together at most the total. */
  function ComputeStats(leads: seq<InstagramLead>): (r: Stats)
    ensures r.total == |leads|
    ensures r.newCount + r.contacted + r.replied + r.interested <= r.total
    ensures r.newCount == |Filter(leads, IsNew)| && r.interested == |Filter(leads, IsInterested)|
    ensures r.contacted == |Filter(leads, IsContacted)| && r.replied == |Filter(leads, IsReplied)|
  {
    FourCountsBound(leads, IsNew, IsContacted, IsReplied, IsInterested);
    Stats(|leads|, Count(leads, IsNew), Count(leads, IsContacted), Count(leads, IsReplied), Count(leads, IsInterested))
  }
}
