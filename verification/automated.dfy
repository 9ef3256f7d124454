/** The automated (email) outreach page: the list of leads with its search and filters, the
    status change and the follow-up dates it schedules, the product line and the emails it derives
    for a lead, and the counters and charts above the list. */
module AutomatedOutreach {
  import opened Wrappers
  import opened Nullable
  import opened Strings
  import opened Seqs
  import Templates
  import TemplateFacts
  import Tally
  import Percent
  import Charts
  import Realtime

  /** A row of the `leads` table. Timestamps are milliseconds since the epoch; the free-form
      `raw_data` column is not part of this model. */
  datatype Lead = Lead(
    id: string,
    createdAt: string,
    campaignId: Option<int>,
    fullName: Option<string>,
    email: Option<string>,
    companyName: Option<string>,
    phone: Option<string>,
    website: Option<string>,
    context: Option<string>,
    leadSource: Option<string>,
    outreachStatus: Option<string>,
    replyIntent: Option<string>,
    lastFollowUpAt: Option<int>,
    nextFollowUpAt: Option<int>,
    gender: Option<string>,
    attempts: int)

  function LeadId(lead: Lead): string {
    lead.id
  }

  // ---------------------------------------------------------------------------------------------
  // Search and filters
  // ---------------------------------------------------------------------------------------------

  /** `field?.toLowerCase().includes(query.toLowerCase())`: a missing field never matches. */
  predicate FieldMatches(field: Option<string>, query: string) {
    field.Some? && Includes(ToLower(field.value), ToLower(query))
  }

  /** An empty query matches every lead; otherwise the name, company, email or context must
      contain it, ignoring case. */
  predicate MatchesSearch(lead: Lead, query: string) {
    |query| == 0 || FieldMatches(lead.fullName, query) || FieldMatches(lead.companyName, query)
    || FieldMatches(lead.email, query) || FieldMatches(lead.context, query)
  }

  /** `filter === "all" || value === filter`: a missing value only passes "all". */
  predicate MatchesFilter(value: Option<string>, filter: string) {
    filter == "all" || value == Some(filter)
  }

  predicate Shown(lead: Lead, query: string, statusFilter: string, sourceFilter: string) {
    MatchesSearch(lead, query) && MatchesFilter(lead.outreachStatus, statusFilter)
    && MatchesFilter(lead.leadSource, sourceFilter)
  }

  /** `filteredLeads`: the leads the list shows, in their original order. */
  function FilteredLeads(leads: seq<Lead>, query: string, statusFilter: string, sourceFilter: string): (r: seq<Lead>)
    ensures IsSubsequence(r, leads)
    ensures forall i :: 0 <= i < |r| ==> statusFilter == "all" || r[i].outreachStatus == Some(statusFilter)
    ensures forall i :: 0 <= i < |r| ==> sourceFilter == "all" || r[i].leadSource == Some(sourceFilter)
    ensures forall i :: 0 <= i < |r| && |query| > 0 ==>
      FieldMatches(r[i].fullName, query) || FieldMatches(r[i].companyName, query)
      || FieldMatches(r[i].email, query) || FieldMatches(r[i].context, query)
    ensures forall i :: 0 <= i < |leads| && Shown(leads[i], query, statusFilter, sourceFilter) ==>
      multiset(r)[leads[i]] == multiset(leads)[leads[i]]
  {
    Filter(leads, lead => Shown(lead, query, statusFilter, sourceFilter))
  }

  /** With no query and both filters on "all" the list shows every lead. */
  lemma FilterAllShowsEverything(leads: seq<Lead>)
    ensures FilteredLeads(leads, "", "all", "all") == leads
  {
    FilterKeepsAll(leads, lead => Shown(lead, "", "all", "all"));
  }

  // ---------------------------------------------------------------------------------------------
  // Status change
  // ---------------------------------------------------------------------------------------------

  /** One day in milliseconds. */
  const DayMs := 24 * 60 * 60 * 1000

  /** How many days a status puts the next follow-up out: 3 after the first email, 4 after the
      first follow-up, 5 after the second. Any other status schedules nothing. */
  function FollowUpDays(status: string): (d: Option<nat>)
    ensures d.Some? <==> status in {"contacted", "follow_up_1", "follow_up_2"}
    ensures d.Some? ==> 3 <= d.value <= 5
  {
    if status == "contacted" then Some(3)
    else if status == "follow_up_1" then Some(4)
    else if status == "follow_up_2" then Some(5)
    else None
  }

  /** `{ ...selectedLead, ...updateData }`: the lead with its new status and, for the three
      sending stages, the follow-up dates measured from `now`. Nothing else changes. */
  function Patched(lead: Lead, newStatus: string, now: int): (r: Lead)
    ensures r.outreachStatus == Some(newStatus)
    ensures FollowUpDays(newStatus).Some? ==>
      r.lastFollowUpAt == Some(now) && r.nextFollowUpAt == Some(now + FollowUpDays(newStatus).value * DayMs)
    ensures FollowUpDays(newStatus).None? ==> r == lead.(outreachStatus := Some(newStatus))
    ensures r.(outreachStatus := lead.outreachStatus, lastFollowUpAt := lead.lastFollowUpAt,
               nextFollowUpAt := lead.nextFollowUpAt) == lead
  {
    match FollowUpDays(newStatus)
    case Some(days) =>
      lead.(outreachStatus := Some(newStatus), lastFollowUpAt := Some(now), nextFollowUpAt := Some(now + days * DayMs))
    case None => lead.(outreachStatus := Some(newStatus))
  }

  /** The follow-up schedule in milliseconds: three, four and five days after the status change;
      the break-up and reply stages keep the dates the lead had. */
  lemma FollowUpSchedule(lead: Lead, now: int)
    ensures Patched(lead, "contacted", now).nextFollowUpAt == Some(now + 259200000)
    ensures Patched(lead, "follow_up_1", now).nextFollowUpAt == Some(now + 345600000)
    ensures Patched(lead, "follow_up_2", now).nextFollowUpAt == Some(now + 432000000)
    ensures Patched(lead, "break_up", now).nextFollowUpAt == lead.nextFollowUpAt
    ensures Patched(lead, "replied", now).lastFollowUpAt == lead.lastFollowUpAt
  {
    assert FollowUpDays("break_up").None?;
    assert FollowUpDays("replied").None?;
  }

  /** The page's state as far as the status change is concerned: the list and the open lead. */
  type Screen = Realtime.Screen<Lead>

  /** `updateLeadStatus(newStatus)` once the store has answered (`ok` is false on an error).
      Without an open lead, or on an error, nothing changes; otherwise the open lead is patched and
      every row with its id is replaced by the patched lead. No status is ever refused. */
  function UpdateLeadStatus(s: Screen, newStatus: string, now: int, ok: bool): (r: Screen)
    ensures s.selected.None? || !ok ==> r == s
    ensures s.selected.Some? && ok ==> r.selected == Some(Patched(s.selected.value, newStatus, now))
    ensures s.selected.Some? && ok ==> |r.leads| == |s.leads| && forall i :: 0 <= i < |s.leads| ==>
      r.leads[i] == (if s.leads[i].id == s.selected.value.id then r.selected.value else s.leads[i])
  {
    if s.selected.None? || !ok then s
    else
      var updated := Patched(s.selected.value, newStatus, now);
      Realtime.Screen(Realtime.ReplaceById(s.leads, updated, LeadId), Some(updated))
  }

  /** The store echoes a successful status change back as an UPDATE of the patched lead; applying
      that echo changes nothing on the page. */
  lemma EchoOfStatusChangeIsNoOp(s: Screen, newStatus: string, now: int)
    requires s.selected.Some?
    ensures var r := UpdateLeadStatus(s, newStatus, now, true);
      Realtime.Reduce(r, Realtime.Updated(r.selected.value), LeadId) == r
  {
    var updated := Patched(s.selected.value, newStatus, now);
    Realtime.ReplaceIdempotent(s.leads, updated, LeadId);
  }

  // ---------------------------------------------------------------------------------------------
  // Product line and emails
  // ---------------------------------------------------------------------------------------------

  /** `getLineType`: the line inferred from the context, or from the company name when there is
      no context. */
  function LineType(lead: Lead): (r: Templates.LineType)
    ensures Present(lead.context) ==> r == Templates.DetectLineFocus(lead.context)
    ensures !Present(lead.context) ==> r == Templates.DetectLineFocus(lead.companyName)
    ensures !Present(lead.context) && !Present(lead.companyName) ==> r == Templates.Family
  {
    Templates.DetectLineFocus(Either(lead.context, lead.companyName))
  }

  /** What the page hands to the email templates: the full name as the contact name, the company
      as the business and the context as the product focus, each only when non-empty. */
  function EmailVariables(lead: Lead): Templates.LeadVariables {
    Templates.LeadVariables(
      contactFirstName := Defined(lead.fullName),
      businessName := Defined(lead.companyName),
      city := None,
      country := None,
      productFocus := Defined(lead.context),
      notesForOutreach := None,
      username := None,
      fullname := None,
      biography := None)
  }

  /** The initial email shown for a lead, written for the page's own line choice. */
  function InitialEmailFor(lead: Lead): Templates.EmailTemplate {
    Templates.InitialEmail(EmailVariables(lead), Some(LineType(lead)))
  }

  /** Follow-up `n` (1, 2, or 3 for the break-up) shown for a lead. */
  function FollowUpEmailFor(lead: Lead, n: int): Templates.EmailTemplate
    requires 1 <= n <= 3
  {
    Templates.FollowUpEmail(EmailVariables(lead).(productFocus := None), n)
  }

  /** The initial email greets the lead's first name, offers the range of the line inferred from
      context or company name, and always ships to "your region": the page passes no country. */
  lemma InitialEmailForLead(lead: Lead)
    ensures |InitialEmailFor(lead).subjectOptions| == 2
    ensures Templates.EmailGreeting(Templates.FirstName(lead.fullName)) <= InitialEmailFor(lead).body
    ensures Includes(InitialEmailFor(lead).body, Templates.RangeOf(LineType(lead)))
    ensures Includes(InitialEmailFor(lead).body, Templates.ShippingClause("your region"))
  {
    InitialEmailGreets(lead);
    InitialEmailOffers(lead);
  }

  lemma InitialEmailGreets(lead: Lead)
    ensures Templates.EmailGreeting(Templates.FirstName(lead.fullName)) <= InitialEmailFor(lead).body
  {
    var v := EmailVariables(lead);
    TemplateFacts.InitialEmailShape(v, Some(LineType(lead)));
    FirstNameOfDefined(lead.fullName);
    TemplateFacts.PrefixOfConcat(Templates.EmailGreeting(Templates.FirstName(lead.fullName)), Templates.IntroLine(v));
  }

  lemma InitialEmailOffers(lead: Lead)
    ensures |InitialEmailFor(lead).subjectOptions| == 2
    ensures Includes(InitialEmailFor(lead).body, Templates.RangeOf(LineType(lead)))
    ensures Includes(InitialEmailFor(lead).body, Templates.ShippingClause("your region"))
  {
    TemplateFacts.InitialEmailShape(EmailVariables(lead), Some(LineType(lead)));
  }

  /** Passing only a non-empty name changes nothing about the first name the templates use. */
  lemma FirstNameOfDefined(name: Option<string>)
    ensures Templates.FirstName(Defined(name)) == Templates.FirstName(name)
  {
  }

  /** Every follow-up names the lead's company (or "your business") in both subject lines, and
      it would read the same had the page also passed the context as the product focus, as it
      does for the initial email. */
  lemma FollowUpEmailForLead(lead: Lead, n: int)
    requires 1 <= n <= 3
    ensures |FollowUpEmailFor(lead, n).subjectOptions| == 2
    ensures forall i :: 0 <= i < 2 ==>
      Includes(FollowUpEmailFor(lead, n).subjectOptions[i], OrElse(lead.companyName, "your business"))
    ensures FollowUpEmailFor(lead, n) == Templates.FollowUpEmail(EmailVariables(lead), n)
  {
    TemplateFacts.FollowUpEmailShape(EmailVariables(lead), n);
    TemplateFacts.FollowUpEmailShape(EmailVariables(lead).(productFocus := None), n);
  }

  // ---------------------------------------------------------------------------------------------
  // Labels
  // ---------------------------------------------------------------------------------------------

  /** `formatSource`: "Unknown" for a missing source; otherwise underscores become spaces and
      every word starts with a capital. */
  function FormatSource(source: Option<string>): (r: string)
    ensures !Present(source) ==> r == "Unknown"
    ensures Present(source) ==> |r| == |source.value| && '_' !in r
    ensures Present(source) ==> ToLower(r) == ToLower(ReplaceAll(source.value, '_', ' '))
    ensures Present(source) ==> var t := ReplaceAll(source.value, '_', ' ');
      forall i :: 0 <= i < |t| && WordStart(t, i) ==> !IsLower(r[i])
    ensures Present(source) ==> var t := ReplaceAll(source.value, '_', ' ');
      forall i :: 0 <= i < |t| && !WordStart(t, i) ==> r[i] == t[i]
  {
    if Present(source) then
      var t := ReplaceAll(source.value, '_', ' ');
      var r := TitleCase(t);
      assert forall i :: 0 <= i < |r| ==> r[i] != '_' by {
        forall i | 0 <= i < |r| ensures r[i] != '_' {
          assert LowerChar(r[i]) == ToLower(r)[i] == ToLower(t)[i] == LowerChar(t[i]);
        }
      }
      r
    else "Unknown"
  }

  /** "google_maps" is shown as "Google Maps". */
  lemma FormatSourceExample()
    ensures FormatSource(Some("google_maps")) == "Google Maps"
  {
    var t := ReplaceAll("google_maps", '_', ' ');
    assert t == "google maps";
    assert WordStart(t, 0) && WordStart(t, 7);
    assert forall i :: 0 <= i < |t| && i != 0 && i != 7 ==> !WordStart(t, i);
  }

  /** A text without underscores has nothing to replace. */
  lemma ReplaceAllAbsent(s: string, a: char, b: char)
    requires a !in s
    ensures ReplaceAll(s, a, b) == s
  {
  }

  /** Formatting a formatted source again changes nothing. */
  lemma FormatSourceIdempotent(source: Option<string>)
    ensures FormatSource(Some(FormatSource(source))) == FormatSource(source)
  {
    var r := FormatSource(source);
    if Present(source) {
      var t := ReplaceAll(source.value, '_', ' ');
      ReplaceAllAbsent(r, '_', ' ');
      TitleCaseIdempotent(t);
    } else {
      assert r == "Unknown";
      ReplaceAllAbsent(r, '_', ' ');
      assert TitleCase("Unknown") == "Unknown";
    }
  }

  /** The intent chart's label: `name.replace('_', ' ')` (the first underscore only) followed by
      capitalising every word. */
  function IntentName(key: string): (r: string)
    ensures |r| == |key|
  {
    TitleCase(ReplaceFirst(key, '_', ' '))
  }

  /** A key without an underscore is capitalised. */
  lemma IntentNameOneWord(key: string)
    requires IsWord(key) && '_' !in key
    ensures IntentName(key) == Capitalize(key)
  {
    TitleCaseWord(key);
  }

  /** A key `a_b` becomes "A B"; only the first underscore turns into a space, so any further
      underscore stays inside the second word, which is capitalised only at its start. */
  lemma IntentNameTwoParts(a: string, b: string)
    requires IsWord(a) && IsWord(b) && '_' !in a
    ensures IntentName(a + "_" + b) == Capitalize(a) + " " + Capitalize(b)
  {
    ReplaceFirstAfter(a, '_', ' ', b);
    TitleCaseSplit(a, ' ', b);
    TitleCaseWord(a);
    TitleCaseWord(b);
  }

  // ---------------------------------------------------------------------------------------------
  // Counters
  // ---------------------------------------------------------------------------------------------

  /** `status === 'new' || !status` */
  predicate IsNew(lead: Lead) {
    lead.outreachStatus == Some("new") || !Present(lead.outreachStatus)
  }

  /** The stages of the email sequence after the first send. */
  const SequenceStages := ["contacted", "follow_up_1", "follow_up_2", "break_up"]

  /** `[...].includes(status || '')` */
  predicate InSequence(lead: Lead) {
    OrElse(lead.outreachStatus, "") in SequenceStages
  }

  predicate IsReplied(lead: Lead) {
    lead.outreachStatus == Some("replied")
  }

  predicate IsInterested(lead: Lead) {
    lead.replyIntent == Some("interested") || lead.outreachStatus == Some("interested")
  }

  predicate IntentInterested(lead: Lead) { lead.replyIntent == Some("interested") }
  predicate IntentMaybe(lead: Lead) { lead.replyIntent == Some("maybe") }
  predicate IntentNotInterested(lead: Lead) { lead.replyIntent == Some("not_interested") }
  predicate IntentUnknown(lead: Lead) { !Present(lead.replyIntent) || lead.replyIntent == Some("unknown") }

  /** `lead_source || 'unknown'` */
  function SourceKey(lead: Lead): string {
    OrElse(lead.leadSource, "unknown")
  }

  function SourceKeys(leads: seq<Lead>): (ks: seq<string>)
    ensures |ks| == |leads|
    ensures forall i :: 0 <= i < |leads| ==> ks[i] == SourceKey(leads[i])
  {
    seq(|leads|, i requires 0 <= i < |leads| => SourceKey(leads[i]))
  }

  datatype IntentCounts = IntentCounts(interested: nat, maybe: nat, notInterested: nat, unknown: nat)

  datatype Stats = Stats(
    total: nat,
    newCount: nat,
    contacted: nat,
    replied: nat,
    interested: nat,
    responseRate: nat,
    intents: IntentCounts,
    sourceCounts: seq<Tally.Entry<string>>)

  /** `sourceCounts`: one entry per source key, in the order the keys first appear, counting every
      lead once. */
  function SourceCounts(leads: seq<Lead>): (r: seq<Tally.Entry<string>>)
    ensures Tally.DistinctKeys(r) && Tally.Total(r) == |leads|
    ensures forall k :: Tally.HasKey(r, k) <==> k in SourceKeys(leads)
    ensures forall k :: Tally.Lookup(r, k) == multiset(SourceKeys(leads))[k]
  {
    Tally.BuildCounts(SourceKeys(leads));
    Tally.Build(SourceKeys(leads))
  }

  /** The four reply intents are disjoint, so together they are at most the number of leads. */
  function IntentsOf(leads: seq<Lead>): (c: IntentCounts)
    ensures c.interested == Count(leads, IntentInterested) && c.maybe == Count(leads, IntentMaybe)
    ensures c.notInterested == Count(leads, IntentNotInterested) && c.unknown == Count(leads, IntentUnknown)
    ensures c.interested + c.maybe + c.notInterested + c.unknown <= |leads|
  {
    FourCountsBound(leads, IntentInterested, IntentMaybe, IntentNotInterested, IntentUnknown);
    IntentCounts(
      Count(leads, IntentInterested), Count(leads, IntentMaybe),
      Count(leads, IntentNotInterested), Count(leads, IntentUnknown))
  }

  /** `stats`: the counters are disjoint, so new, contacted and replied add up to at most the
      total, as do the four intents; the source histogram accounts for every lead once. */
  function ComputeStats(leads: seq<Lead>): (r: Stats)
    ensures r.total == |leads|
    ensures r.newCount == Count(leads, IsNew) && r.contacted == Count(leads, InSequence)
    ensures r.replied == Count(leads, IsReplied) && r.interested == Count(leads, IsInterested)
    ensures r.intents == IntentsOf(leads)
    ensures r.newCount + r.contacted + r.replied <= r.total
    ensures r.interested <= r.total
    ensures r.intents.interested + r.intents.maybe + r.intents.notInterested + r.intents.unknown <= r.total
    ensures r.contacted == 0 ==> r.responseRate == 0
    ensures r.contacted > 0 ==> r.responseRate == Percent.RoundedPercent(r.replied, r.contacted)
    ensures Tally.DistinctKeys(r.sourceCounts) && Tally.Total(r.sourceCounts) == r.total
    ensures forall k :: Tally.HasKey(r.sourceCounts, k) <==> k in SourceKeys(leads)
    ensures forall k :: Tally.Lookup(r.sourceCounts, k) == multiset(SourceKeys(leads))[k]
  {
    var newCount := Count(leads, IsNew);
    var contacted := Count(leads, InSequence);
    var replied := Count(leads, IsReplied);
    StatusCountsBound(leads);
    Stats(
      |leads|, newCount, contacted, replied, Count(leads, IsInterested),
      Percent.RoundedPercent(replied, contacted),
      IntentsOf(leads),
      SourceCounts(leads))
  }

  /** The interested card counts a lead whose reply intent or status is "interested", so it is
      never below the interested slice of the intent chart. */
  lemma InterestedCoversIntent(leads: seq<Lead>)
    ensures ComputeStats(leads).intents.interested <= ComputeStats(leads).interested
  {
    CountMonotonic(leads, IntentInterested, IsInterested);
  }

  /** No lead is in more than one of new, in the sequence and replied. */
  lemma StatusCountsBound(leads: seq<Lead>)
    ensures Count(leads, IsNew) + Count(leads, InSequence) + Count(leads, IsReplied) <= |leads|
  {
    forall i | 0 <= i < |leads|
      ensures !(IsNew(leads[i]) && InSequence(leads[i])) && !(IsNew(leads[i]) && IsReplied(leads[i]))
        && !(InSequence(leads[i]) && IsReplied(leads[i]))
    {
      assert "new" !in SequenceStages && "replied" !in SequenceStages;
    }
    ThreeCountsBound(leads, IsNew, InSequence, IsReplied);
  }

  /** The four intent slices, in the order of `intentCounts`, coloured from `INTENT_COLORS`. */
  function IntentSlices(c: IntentCounts): seq<Charts.Slice> {
    [Charts.Slice(IntentName("interested"), c.interested, "#10B981"),
     Charts.Slice(IntentName("maybe"), c.maybe, "#F59E0B"),
     Charts.Slice(IntentName("not_interested"), c.notInterested, "#EF4444"),
     Charts.Slice(IntentName("unknown"), c.unknown, "#6B7280")]
  }

  /** `intentChartData`: the four intents in a fixed order with their colours, the empty ones
      dropped and none with a count lost; the slices still account for every counted lead. */
  function IntentChart(c: IntentCounts): (r: seq<Charts.Slice>)
    ensures |r| <= 4
    ensures IsSubsequence(r, IntentSlices(c))
    ensures forall i :: 0 <= i < |r| ==> r[i].value > 0
    ensures forall i :: 0 <= i < 4 && IntentSlices(c)[i].value > 0 ==> IntentSlices(c)[i] in r
    ensures Charts.SliceTotal(r) == c.interested + c.maybe + c.notInterested + c.unknown
  {
    var slices := IntentSlices(c);
    Charts.SliceTotalFour(slices[0], slices[1], slices[2], slices[3]);
    Charts.DropEmpty(slices)
  }
}
