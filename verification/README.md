# Al-Dar outreach dashboard — a Dafny model of its text engine and page logic

This project models the deterministic core of a lead-generation and outreach dashboard for an
Islamicwear wholesaler:

- **the outreach text engine** (`src/lib/templates.ts`):
  - the product-line classifier, which sorts a text into men's, women's or family wear by keyword
    containment;
  - the first-name extractor;
  - the Instagram direct message and the two WhatsApp follow-ups;
  - the initial email and its three follow-ups, the last of which is the break-up email;
  - the two status tables with their label and style lookups.
- **the pure logic embedded in the pages**:
  - the search filters of the automated (email) and manual (Instagram) outreach pages;
  - the realtime INSERT / UPDATE / DELETE reducers of those pages and of the CRM;
  - the status updates, including the follow-up dates the email sequence schedules;
  - the counters, histograms and charts of the dashboard and the outreach overview;
  - the per-campaign performance table and its top five;
  - the campaign pause / resume switch;
  - the platform and country toggles and comma-list parsing of the search form;
  - the CRM's e-mail buttons and badges;
  - the sidebar's highlighting rule.

Everything is a pure function over immutable datatypes:

- A nullable text field is `Option<string>`.
- JavaScript's `a || b` on strings, where the empty string counts as false, is written out in
  module `Nullable`.
- The store's answers are parameters: the `ok` flag of an update, or the id an insert returns.
- The clock is an integer count of milliseconds.

Module layout, one module per source file plus shared helpers:

| module | models |
|---|---|
| `Templates`, `TemplateFacts` | `src/lib/templates.ts` (definitions; properties) |
| `AutomatedOutreach` | `src/app/outreach/automated/page.tsx` |
| `ManualOutreach` | `src/app/outreach/manual/page.tsx` |
| `Crm` | `src/app/crm/page.tsx` |
| `SearchConfig` | `src/components/dashboard/SearchConfig.tsx` |
| `Campaigns` | `src/app/campaigns/page.tsx` |
| `OutreachStats`, `CampaignPerformance` | `src/app/outreach/page.tsx` |
| `Dashboard` | `src/app/dashboard/page.tsx` |
| `Sidebar` | `src/components/layout/Sidebar.tsx` |
| `Realtime` | the shared shape of the three realtime reducers |
| `Tally`, `Charts`, `Percent` | count-by-key histograms, pie-chart slices, `Math.round` of a percentage |
| `Wrappers`, `Nullable`, `Strings`, `Seqs` | `Option`, JavaScript truthiness, the string built-ins used (ASCII), filter and count |

Two points about the code are easy to miss:

- **Campaign toggle.** Two toggles restore "active" and "paused". Any other stored status goes to
  "active" and then to "paused" (`src/app/campaigns/page.tsx:55`). `Campaigns.NextStatusTwice`
  states this.
- **Response rate.** The overview's response rate is not bounded by 100, because replied leads are
  not counted among contacted ones. `OutreachStats.ResponseRateAboveHundred` exhibits a rate
  of 200.

## Model

| member | source | states |
|---|---|---|
| Templates.SomeIncluded | src/lib/templates.ts:26-27 | the keyword scan is true exactly when some keyword of the list is a substring of the text |
| Templates.DetectLineFocus | src/lib/templates.ts:19-32 | absent or empty text is family; otherwise mens iff the lower-cased text contains a mens keyword and no womens keyword, womens symmetrically, family otherwise |
| Templates.WomensWordsAreFamily | src/lib/templates.ts:23-31 | any text containing "female", "womens" or "women's" also hits a mens keyword ("male", "mens", "men's") and is classified family |
| TemplateFacts.ClassifyMensExample | src/lib/templates.ts:19-32 | "Mens thobe collection" is classified mens |
| TemplateFacts.ClassifyWomensExample | src/lib/templates.ts:19-32 | "Abaya and Jilbab" is classified womens |
| TemplateFacts.ClassifyFamilyExample | src/lib/templates.ts:19-32 | "Clothing Store" mentions neither list and is family |
| TemplateFacts.ClassifyAbayaBiography | src/lib/templates.ts:19-32 | "We sell premium abayas for women" is womens: neither "mens" nor "male" occurs in it |
| Templates.FirstName | src/lib/templates.ts:35-39 | the result is never empty and has no space; it is the text before the first space of a present name, and "there" when the name is absent, empty or starts with a space |
| TemplateFacts.InstagramDMShape | src/lib/templates.ts:45-78 | the direct message opens with the greeting to the first name, names `business_name \|\| username \|\| 'your store'` as the retailer, and describes the line inferred from the biography |
| TemplateFacts.AbayaStoreDMExample | src/lib/templates.ts:45-78 | a lead with only the biography "We sell premium abayas for women" is greeted "Hi there" and offered the women's range |
| TemplateFacts.WhatsAppFollowUp1City | src/lib/templates.ts:80-90 | the first WhatsApp reminder names the store followed by " in <city>" when a city is present, and reads as with no city when it is absent |
| TemplateFacts.WhatsAppFollowUp2Shape | src/lib/templates.ts:92-99 | the closing WhatsApp message greets the first name and names the store |
| TemplateFacts.EmailLineChoice | src/lib/templates.ts:111 | an explicit line wins; otherwise the product focus is classified when present, the biography when not |
| TemplateFacts.IntroLineShape | src/lib/templates.ts:119 | the introduction starts with the business name and contains the city clause, the product focus or "Islamicwear", and the notes clause |
| TemplateFacts.OptionalClauses | src/lib/templates.ts:119 | the city clause is " in <city>" exactly when the city is non-empty and empty otherwise; the same for " – <notes>" |
| TemplateFacts.OfferStartsWithRange | src/lib/templates.ts:131-173 | the offer paragraph of each line starts with that line's range phrase |
| TemplateFacts.InitialEmailShape | src/lib/templates.ts:110-182 | every initial email has two subject lines, the first naming the business; its body opens with the greeting and the introduction and contains the range of the chosen line and "shipping to <country>" |
| TemplateFacts.InitialSubjectsName | src/lib/templates.ts:123-126 | each line's subjects are two, the first naming the business |
| TemplateFacts.SubjectsCityClause | src/lib/templates.ts:124-166 | the men's and women's first subject carries the business followed by the city clause; the family subjects ignore the city |
| TemplateFacts.FollowUpEmailShape | src/lib/templates.ts:184-243 | every follow-up stage has two subject lines, both naming the business, and opens with the greeting; it reads nothing of product focus, biography, notes, username or full name; stage 3 carries the break-up line |
| TemplateFacts.FollowUpSubjectsMention | src/lib/templates.ts:190-232 | each stage's two subject lines name the business |
| TemplateFacts.FirstReminderCityClause | src/lib/templates.ts:198 | the first follow-up carries the business followed by the city clause |
| TemplateFacts.LaterStagesIgnoreCity | src/lib/templates.ts:209-243 | the second follow-up and the break-up email are the same with or without a city |
| TemplateFacts.BreakUpMentionsLine | src/lib/templates.ts:228-243 | the third stage contains "I'll close this on my side." |
| Templates.Find | src/lib/templates.ts:270-280 | the lookup finds nothing exactly when the status is null or no entry has that value, and otherwise returns an entry of the table with that value |
| TemplateFacts.StatusValuesDistinct | src/lib/templates.ts:249-268 | no value appears twice in either status table |
| TemplateFacts.StatusLookupFound | src/lib/templates.ts:270-280 | a listed status shows its entry's label and style from the chosen channel's table |
| TemplateFacts.StatusLookupDefault | src/lib/templates.ts:270-280 | a null or unlisted status shows "New" in the blue style |
| TemplateFacts.NoStatusLooksNew | src/lib/templates.ts:249-280 | a null status looks exactly like "new" on both channels |
| TemplateFacts.ChannelsAgree | src/lib/templates.ts:249-268 | every Instagram value shows the same label and style on both channels |
| TemplateFacts.EmailStagesUnknownOnInstagram | src/lib/templates.ts:249-280 | follow_up_1, follow_up_2 and break_up show "New" through the Instagram table but their own label through the email table |
| Realtime.ReplaceById | src/app/outreach/automated/page.tsx:125-130 | an UPDATE keeps the ids in order, replaces every row with the new row's id and leaves the others |
| Realtime.RemoveById | src/app/outreach/automated/page.tsx:134-135 | a DELETE drops exactly the rows with that id and keeps the rest in order |
| Realtime.Apply | src/app/outreach/automated/page.tsx:122-136 | INSERT prepends the row; UPDATE and DELETE behave as above |
| Realtime.Selected | src/app/outreach/automated/page.tsx:131-133 | the open lead becomes the updated row when an UPDATE carries its id and is otherwise kept, also across a DELETE |
| Realtime.Reduce | src/app/outreach/automated/page.tsx:122-136 | the reducer both outreach pages attach (the manual page's copy is src/app/outreach/manual/page.tsx:91-105): INSERT prepends; UPDATE replaces exactly the rows with the new row's id and keeps the rest; DELETE drops exactly the rows with that id and keeps the rest in order; the open lead becomes the updated row only when an UPDATE carries its id and is otherwise kept, also across a DELETE |
| Realtime.ReplaceIdempotent | src/app/outreach/automated/page.tsx:125-130 | replaying an UPDATE changes nothing more |
| Realtime.ReplaceAbsent | src/app/outreach/automated/page.tsx:125-130 | an UPDATE for an id not in the list changes nothing: no upsert |
| Realtime.RemoveAbsent | src/app/outreach/automated/page.tsx:134-135 | a DELETE of an id not in the list changes nothing |
| Realtime.RemoveIdempotent | src/app/outreach/automated/page.tsx:134-135 | replaying a DELETE changes nothing more |
| Realtime.InsertThenDelete | src/app/outreach/automated/page.tsx:122-136 | inserting a fresh row and deleting its id restores the list |
| Realtime.SelectedFollowsUpdates | src/app/outreach/automated/page.tsx:122-136 | an open lead in the list stays in the list, in its latest version, across inserts and updates |
| Realtime.DeleteKeepsSelection | src/app/outreach/automated/page.tsx:131-135 | deleting the open lead removes it from the list but leaves the dialog on it |
| AutomatedOutreach.FilteredLeads | src/app/outreach/automated/page.tsx:162-176 | the result is an order-preserving subsequence; each shown lead matches the status and source filters unless "all" and, for a non-empty query, contains it case-insensitively in name, company, email or context; every matching lead appears as many times as in the input |
| AutomatedOutreach.FilterAllShowsEverything | src/app/outreach/automated/page.tsx:162-176 | empty query with both filters on "all" shows every lead |
| AutomatedOutreach.FollowUpDays | src/app/outreach/automated/page.tsx:190-200 | a follow-up is scheduled exactly for contacted, follow_up_1 and follow_up_2, between 3 and 5 days out |
| AutomatedOutreach.Patched | src/app/outreach/automated/page.tsx:188-200 | the patched lead has the new status; for the three sending stages the last date is now and the next is now plus the stage's days; nothing else changes |
| AutomatedOutreach.FollowUpSchedule | src/app/outreach/automated/page.tsx:191-199 | 3, 4 and 5 days in milliseconds for the three sending stages; break_up and replied keep the old dates |
| AutomatedOutreach.UpdateLeadStatus | src/app/outreach/automated/page.tsx:184-219 | without an open lead or on an error nothing changes; otherwise the open lead is patched and every row with its id becomes the patched lead, the others unchanged; no status is refused |
| AutomatedOutreach.EchoOfStatusChangeIsNoOp | src/app/outreach/automated/page.tsx:122-136 | the store's UPDATE echo of a successful status change leaves the page as it is |
| AutomatedOutreach.LineType | src/app/outreach/automated/page.tsx:232-234 | the context is classified, or the company name when the context is absent or empty |
| AutomatedOutreach.InitialEmailForLead | src/app/outreach/automated/page.tsx:747-751 | the initial email shown greets the lead's first name, offers the range of the page's line and ships to "your region" |
| AutomatedOutreach.FirstNameOfDefined | src/app/outreach/automated/page.tsx:748 | passing `full_name \|\| undefined` gives the same first name as passing the name itself |
| AutomatedOutreach.FollowUpEmailForLead | src/app/outreach/automated/page.tsx:760-790 | each follow-up names the company or "your business" in both subjects, and would read the same had the context been passed too |
| AutomatedOutreach.FormatSource | src/app/outreach/automated/page.tsx:236-239 | "Unknown" for a missing or empty source; otherwise, with underscores turned into spaces: same length, no underscore, every word start upper-case, every other character unchanged |
| AutomatedOutreach.FormatSourceIdempotent | src/app/outreach/automated/page.tsx:236-239 | formatting a formatted source changes nothing |
| AutomatedOutreach.FormatSourceExample | src/app/outreach/automated/page.tsx:236-239 | "google_maps" is shown as "Google Maps" |
| Strings.TitleCase | src/app/outreach/automated/page.tsx:238 | word-start upper-casing keeps length, word characters and lower-cased text, upper-cases every word start and touches nothing else |
| Strings.TitleCaseIdempotent | src/app/outreach/automated/page.tsx:238 | upper-casing word starts twice is the same as once |
| AutomatedOutreach.IntentNameOneWord | src/app/outreach/automated/page.tsx:271 | a key without underscore is just capitalised |
| AutomatedOutreach.IntentNameTwoParts | src/app/outreach/automated/page.tsx:271 | "a_b" becomes "A B": only the first underscore turns into a space |
| AutomatedOutreach.SourceCounts | src/app/outreach/automated/page.tsx:259-263 | one entry per source key (missing source as "unknown"), each counting exactly the leads with that key, summing to the number of leads |
| AutomatedOutreach.IntentsOf | src/app/outreach/automated/page.tsx:251-256 | the four intent counters count their intents and together are at most the number of leads |
| AutomatedOutreach.ComputeStats | src/app/outreach/automated/page.tsx:242-266 | each counter counts its predicate; new, in-sequence and replied are disjoint so sum to at most the total; response rate is 0 without contacted leads and the rounded percentage otherwise; the source histogram accounts for every lead |
| AutomatedOutreach.StatusCountsBound | src/app/outreach/automated/page.tsx:244-246 | new (including no status), contacted-through-break_up and replied never overlap |
| AutomatedOutreach.InterestedCoversIntent | src/app/outreach/automated/page.tsx:247-252 | the interested card is at least the interested-intent slice |
| AutomatedOutreach.IntentChart | src/app/outreach/automated/page.tsx:268-274 | the chart keeps the intents' order, drops exactly the empty ones and still totals all four counters |
| ManualOutreach.FilteredLeads | src/app/outreach/manual/page.tsx:131-144 | order-preserving subsequence; status matches unless "all"; a non-empty query occurs case-insensitively in username, full name, biography or search term; every matching lead appears as many times as in the input |
| ManualOutreach.FilterAllShowsEverything | src/app/outreach/manual/page.tsx:131-144 | empty query and "all" shows every lead |
| ManualOutreach.UpdateLeadStatus | src/app/outreach/manual/page.tsx:151-171 | without an open lead or on an error nothing changes; otherwise exactly the rows with the open lead's id, and the open lead, get the new status |
| ManualOutreach.UpdateOnlyTouchesStatus | src/app/outreach/manual/page.tsx:164-167 | a status change keeps the id order and every field but the status |
| ManualOutreach.UpdateIdempotent | src/app/outreach/manual/page.tsx:164-167 | setting the same status twice is setting it once |
| ManualOutreach.InstagramUrl | src/app/outreach/manual/page.tsx:184-188 | the stored URL; else the profile URL of the username with its first '@' removed; else "#" |
| Strings.RemoveFirst | src/app/outreach/manual/page.tsx:186 | only the first occurrence of the character is removed |
| ManualOutreach.ProfileUrlOfHandle | src/app/outreach/manual/page.tsx:184-188 | "@name" and "name" both link to the profile of "name" |
| ManualOutreach.LineType | src/app/outreach/manual/page.tsx:190-192 | the biography alone is classified |
| ManualOutreach.InstagramDMForLead | src/app/outreach/manual/page.tsx:511-515 | the direct message shown greets the lead's first name, offers the page's line and names the username or "your store" |
| ManualOutreach.WhatsAppForLead | src/app/outreach/manual/page.tsx:546-582 | both WhatsApp follow-ups name the username or "your store"; the second greets the first name |
| ManualOutreach.ComputeStats | src/app/outreach/manual/page.tsx:195-202 | four exact-match counts on distinct statuses, together at most the total |
| Crm.Reduce | src/app/crm/page.tsx:50-60 | INSERT prepends; UPDATE keeps the id order, replaces the rows with the new row's id and leaves every other row unchanged; DELETE removes exactly the rows with that id |
| Crm.Emails | src/app/crm/page.tsx:86-94 | the list column verbatim when present (even empty); else the single non-empty address; else nothing |
| Crm.EmailsPreferTheList | src/app/crm/page.tsx:86-94 | with a list the single address is ignored; without one there is at most one button |
| Crm.IsInstagram | src/app/crm/page.tsx:96-98 | true exactly for a non-empty URL containing "instagram.com" |
| Crm.ExactlyOneLinkButton | src/app/crm/page.tsx:230-249 | a row with a website shows exactly one of the Instagram and external buttons; a row without shows neither |
| Crm.ToggleExpand | src/app/crm/page.tsx:100-102 | clicking the expanded row collapses it; any other row becomes the only expanded one |
| Crm.ToggleExpandTwice | src/app/crm/page.tsx:100-102 | two clicks on a row restore the start when that row or nothing was expanded, and collapse everything otherwise |
| Crm.StatusLabel | src/app/crm/page.tsx:180 | a null status shows the text "undefined"; the empty status "New"; otherwise the status with its first character upper-cased |
| Crm.StatusStyle | src/app/crm/page.tsx:179 | new, contacted and replied take their own styles; a missing or empty status takes the new style; any other status looks up nothing ("undefined") |
| Crm.MissingStatusBadge | src/app/crm/page.tsx:179-180 | a null status is styled as new but labelled "undefined"; an empty one is new in both |
| SearchConfig.Without | src/components/dashboard/SearchConfig.tsx:56 | every occurrence of the value is removed; every other value keeps its order and its number of occurrences |
| SearchConfig.Toggle | src/components/dashboard/SearchConfig.tsx:53-67 | the value's membership flips, no other value's does; a present value is removed and the rest keep their order and multiplicity; an absent value is appended at the end |
| SearchConfig.ToggleKeepsDistinct | src/components/dashboard/SearchConfig.tsx:53-67 | a list without duplicates stays without |
| SearchConfig.ToggleTwiceAbsent | src/components/dashboard/SearchConfig.tsx:53-67 | toggling an absent value twice restores the list |
| SearchConfig.ToggleTwicePresent | src/components/dashboard/SearchConfig.tsx:53-67 | toggling a present value twice moves it to the end |
| SearchConfig.ToggleKeepsOrderExample | src/components/dashboard/SearchConfig.tsx:53-67 | unticking "a" in ["a", "b", "c"] leaves ["b", "c"] |
| Strings.Trim | src/components/dashboard/SearchConfig.tsx:77 | the trimmed text is a middle slice of the input with only whitespace around it, and starts and ends with non-whitespace |
| Strings.JoinSplit | src/components/dashboard/SearchConfig.tsx:77 | splitting on a character and joining with it gives the text back |
| SearchConfig.ParseCommaList | src/components/dashboard/SearchConfig.tsx:77 | each piece is non-empty, comma-free and trimmed; the pieces are in order, and each non-blank trimmed piece appears as often as it occurs between the commas |
| SearchConfig.BlankListPassesCheck | src/components/dashboard/SearchConfig.tsx:70-77 | " , " passes the non-empty check but parses to no keywords |
| SearchConfig.Generate | src/components/dashboard/SearchConfig.tsx:69-111 | refused exactly when a field is empty or no platform or country is chosen; otherwise the row is active with the slider's quantity and the parsed keywords, and the payload, sent only when the insert returns an id, repeats the row's name, keywords, platforms, countries and quantity |
| SearchConfig.InitialFormRefused | src/components/dashboard/SearchConfig.tsx:46-73 | the untouched form is refused |
| SearchConfig.BlankKeywordsSubmitted | src/components/dashboard/SearchConfig.tsx:70-88 | keywords " , " are submitted as an empty keyword list |
| SearchConfig.CountriesReordered | src/components/dashboard/SearchConfig.tsx:34-38 | the picker's list is a reordering of the written list |
| SearchConfig.CountriesSorted | src/components/dashboard/SearchConfig.tsx:34-38 | the picker's list is in ascending order |
| Campaigns.NextStatus | src/app/campaigns/page.tsx:55 | the toggle asks for "paused" exactly when the status is "active", "active" otherwise |
| Campaigns.NextStatusTwice | src/app/campaigns/page.tsx:55 | two toggles restore active and paused; any other status goes to active and then paused |
| Campaigns.ToggleStatus | src/app/campaigns/page.tsx:54-72 | on an error the list is unchanged; on success exactly the campaigns with that id take the new status and no other field changes |
| Campaigns.ToggleStatusTwice | src/app/campaigns/page.tsx:54-72 | two successful toggles of an active or paused row restore the list |
| Campaigns.Badge | src/app/campaigns/page.tsx:125 | default exactly for active, secondary exactly for paused, outline otherwise |
| Campaigns.RegionsCell | src/app/campaigns/page.tsx:130 | the first two regions joined by ", ", with "..." after them when there are more |
| Campaigns.RegionsCellEllipsis | src/app/campaigns/page.tsx:130 | the cell ends in "..." exactly when more than two regions exist |
| OutreachStats.FormatStatus | src/app/outreach/page.tsx:60-63 | "New" for a missing or empty status, else the first character upper-cased |
| OutreachStats.FormatStatusAgainstCrm | src/app/outreach/page.tsx:60-63 | agrees with the CRM label on every stored status and differs only on null |
| OutreachStats.StatusColor | src/app/outreach/page.tsx:65-72 | one class for each of new, contacted and replied, grey exactly for everything else |
| OutreachStats.StatusBreakdown | src/app/outreach/page.tsx:122-126 | New, Contacted, Replied in order, exactly the empty ones dropped, totalling the three counters |
| OutreachStats.ComputeMetrics | src/app/outreach/page.tsx:115-126 | counts new (or no status), contacted and replied; their sum is at most the total; the rate is 0 without contacted leads and the rounded percentage otherwise |
| OutreachStats.NewLeadsSplit | src/app/outreach/page.tsx:116 | the new counter is the leads marked new plus the leads without a status |
| OutreachStats.ResponseRateAboveHundred | src/app/outreach/page.tsx:119 | two replied and one contacted lead give a rate of 200 |
| Percent.RoundedPercent | src/app/outreach/page.tsx:119 | the nearest whole percentage, halves up; 0 for an empty whole |
| Percent.RoundedPercentBounds | src/app/outreach/page.tsx:119 | a part within the whole is at most 100; all is 100 and none is 0 |
| Percent.RoundedPercentMonotonic | src/app/outreach/page.tsx:119 | a larger part never gets a smaller percentage |
| OutreachStats.CampaignMap | src/app/outreach/page.tsx:111-112 | every campaign id maps to the name of its last row, and nothing else is mapped |
| OutreachStats.CampaignName | src/app/outreach/page.tsx:160 | the last row's name when non-empty, the fallback when empty or missing |
| OutreachStats.RecentActivity | src/app/outreach/page.tsx:170-173 | the first min(10, n) leads in order, each with its campaign's name or "Unknown Campaign" |
| OutreachStats.RecentActivityNewestFirst | src/app/outreach/page.tsx:170-173 | the activity keeps the order of the newest-first list: a lead in front heads it and the entries before shift down by one, still at most ten |
| CampaignPerformance.StatsByCampaign | src/app/outreach/page.tsx:146-156 | no campaign twice, every group has a lead, and contacted plus replied are at most the group's leads |
| CampaignPerformance.StatsAgreeWithHistogram | src/app/outreach/page.tsx:146-156 | the groups equal an independent count-by-key of the campaign ids, in first-appearance order, and count each campaign's contacted and replied leads |
| CampaignPerformance.StatsCoverEveryLead | src/app/outreach/page.tsx:146-156 | the group totals sum to the number of leads, the groups are exactly the leads' campaigns, each sized by its id's multiplicity |
| CampaignPerformance.PerformanceOf | src/app/outreach/page.tsx:159-165 | the row repeats the counters, names the campaign or "Campaign <id>", and rates 0 without contacted leads, else the rounded percentage |
| CampaignPerformance.SortByRate | src/app/outreach/page.tsx:166 | the same rows, highest rate first |
| CampaignPerformance.SortIsStable | src/app/outreach/page.tsx:166 | rows with equal rates keep their order |
| CampaignPerformance.TopFive | src/app/outreach/page.tsx:166-167 | min(5, n) rows, non-increasing by rate, drawn from the input |
| CampaignPerformance.TopFiveAreBest | src/app/outreach/page.tsx:166-167 | no row left out has a better rate than a row shown |
| CampaignPerformance.CampaignPerformance | src/app/outreach/page.tsx:158-167 | at most five rows, sorted by rate, drawn from the campaigns' rows |
| CampaignPerformance.ShownRowsAreGroups | src/app/outreach/page.tsx:158-167 | every row shown is a campaign's row with consistent counters and rate 0 when nothing was contacted |
| Tally.BuildCounts | src/app/dashboard/page.tsx:80-85 | the histogram has one entry per distinct key, counts each key's occurrences, and sums to the input length |
| Tally.BumpLookup | src/app/dashboard/page.tsx:83 | one step adds one to the bumped key and leaves the others |
| Dashboard.SourceName | src/app/dashboard/page.tsx:82 | a missing or empty source is "unknown" |
| Dashboard.ComputeMetrics | src/app/dashboard/page.tsx:72-85 | active campaigns are counted among all; new, contacted and replied are exact matches summing to at most the total; the source histogram has entries of at least 1 summing to the total |
| Dashboard.MissingSourceIsUnknown | src/app/dashboard/page.tsx:82 | a lead without a source puts "unknown", never the empty name, in the histogram |
| Dashboard.NewLeadsAgainstOverview | src/app/dashboard/page.tsx:75-77 | the overview's new counter is the dashboard's plus the leads without a status; contacted and replied agree |
| Charts.DropEmpty | src/app/outreach/page.tsx:126 | the kept slices are in order, all non-empty, include every non-empty slice and keep the total |
| Sidebar.IsActive | src/components/layout/Sidebar.tsx:68 | an entry is highlighted exactly on paths that begin with its href; the root only on the root; nothing without a path |
| Sidebar.NoRootItem | src/components/layout/Sidebar.tsx:24-33 | no entry is the root, so the guard never excludes one |
| Sidebar.ItemActiveOnItsPath | src/components/layout/Sidebar.tsx:24-33 | every entry is highlighted on its own path |
| Sidebar.ManualOutreachHighlightsTwo | src/components/layout/Sidebar.tsx:28-30 | on /outreach/manual both Manual Outreach and Outreach Stats are highlighted, no other |
| Sidebar.CrmPrefixHighlightsCrm | src/components/layout/Sidebar.tsx:31 | any path starting "/crm", "/crmx" included, highlights CRM |
| Sidebar.NoPathNoHighlight | src/components/layout/Sidebar.tsx:68 | without a path no entry is highlighted |

## Left out

- Supabase queries, updates, inserts and realtime subscriptions: the store's replies are inputs
  (an `ok` flag, the id an insert returns, the change events).
- The search webhook `fetch`, the clipboard, toasts and `setTimeout`: these are I/O and timers
  with no effect on the modelled state.
- React state plumbing and rendering, and the stale closure of the `[selectedLead]` effect. The
  reducers are modelled as the effect intends, with the current open lead.
- Wall-clock and locale dates: `new Date()`, `toISOString` and `toLocaleDateString`. Timestamps
  are integer milliseconds passed in.
- The last-seven-days charts (`src/app/outreach/page.tsx:128-143`,
  `src/app/dashboard/page.tsx:88-96`): they depend only on the clock and locale formatting.
- `Percent.RoundedPercent`: does not model the floating-point error of `replied / contacted * 100`
  before `Math.round`. The rounding is exact round-half-up on the rational value.
- Strings: `toLowerCase`, `toUpperCase`, `trim` and `\w` are modelled over ASCII only. Unicode
  case mapping and Unicode whitespace are not modelled.
- `AutomatedOutreach.SourceCounts` and `Dashboard.ComputeMetrics`: the histograms list keys in
  first-appearance order. `Object.entries` puts integer-like keys first, and that reordering is not
  modelled.
- `AutomatedOutreach.SourceCounts`: objects used as maps are modelled without inherited
  `Object.prototype` keys. The source counts with `acc[src] = (acc[src] || 0) + 1` on `{}`
  (`src/app/outreach/automated/page.tsx:259-263`). A source named "constructor" or "toString"
  reads an inherited member there, so its count becomes a string, and a source named
  "__proto__" is dropped from `Object.entries`. The model counts these like any other key, so
  "the counts sum to the number of leads" holds of the model, not literally of the source.
- `Dashboard.ComputeMetrics`: the same gap for its source histogram
  (`src/app/dashboard/page.tsx:80-85`).
- `Crm.StatusStyle`: the same gap for `statusStyles[lead.outreach_status || 'new']`
  (`src/app/crm/page.tsx:179`). A status named "constructor" renders function text where the
  model gives "undefined".
- `Crm.OffersExpand`: the show-more button for contexts over 100 characters is a predicate with no
  contract; the truncation itself is presentation.
- The chart colour fallback `INTENT_COLORS[name] || '#6B7280'`
  (`src/app/outreach/automated/page.tsx:273`): it never applies, because the four keys are fixed.
  The model uses the four colours directly.
- Presentational files (`LeadsTable.tsx`, `MetricsCards.tsx`, `LeadSourceChart.tsx`, `Header.tsx`,
  the settings, search and landing pages) and `src/lib/supabase.ts` are not part of this model.
- Status-transition rules: the pages accept any status value, and the model adds no guard.
