/** The CRM page: one row per lead with its email buttons, its website button, its status badge
    and a context text that one row at a time may expand. */
module Crm {
  import opened Wrappers
  import opened Nullable
  import opened Strings
  import opened Seqs
  import Realtime

  /** A row of the `leads` table as this page reads it; `emails` is an optional list column. */
  datatype Lead = Lead(
    id: string,
    createdAt: string,
    fullName: Option<string>,
    companyName: Option<string>,
    email: Option<string>,
    emails: Option<seq<string>>,
    website: Option<string>,
    outreachStatus: Option<string>,
    context: Option<string>)

  function LeadId(lead: Lead): string {
    lead.id
  }

  /** `getEmails`: the list column when there is one, even an empty one (an empty array is truthy);
      else the single address when it is non-empty; else nothing. */
  function Emails(lead: Lead): (r: seq<string>)
    ensures lead.emails.Some? ==> r == lead.emails.value
    ensures lead.emails.None? && Present(lead.email) ==> r == [lead.email.value]
    ensures lead.emails.None? && !Present(lead.email) ==> r == []
  {
    if lead.emails.Some? then lead.emails.value
    else if Present(lead.email) then [lead.email.value]
    else []
  }

  /** The single address only matters when the lead has no list of addresses, and then it gives
      at most one button. */
  lemma EmailsPreferTheList(lead: Lead, other: Option<string>)
    ensures lead.emails.Some? ==> Emails(lead) == Emails(lead.(email := other))
    ensures lead.emails.None? ==> |Emails(lead)| <= 1
    ensures lead.emails == Some([]) ==> Emails(lead) == []
  {
  }

  /** `isInstagram(url)`: a non-empty URL that contains "instagram.com". */
  function IsInstagram(url: Option<string>): (b: bool)
    ensures b <==> Present(url) && Includes(url.value, "instagram.com")
  {
    if Present(url) then Includes(url.value, "instagram.com") else false
  }

  /** Which of the two website buttons a row shows. */
  datatype LinkButtons = LinkButtons(instagram: bool, external: bool)

  /** `lead.website && isInstagram(...)` and `lead.website && !isInstagram(...)`. */
  function Buttons(lead: Lead): (r: LinkButtons)
    ensures r.instagram ==> Present(lead.website) && Includes(lead.website.value, "instagram.com")
    ensures r.external ==> Present(lead.website) && !Includes(lead.website.value, "instagram.com")
  {
    LinkButtons(
      Present(lead.website) && IsInstagram(lead.website),
      Present(lead.website) && !IsInstagram(lead.website))
  }

  /** A row with a website shows exactly one website button; a row without one shows none. */
  lemma ExactlyOneLinkButton(lead: Lead)
    ensures Present(lead.website) <==> (Buttons(lead).instagram != Buttons(lead).external)
    ensures !Present(lead.website) ==> !Buttons(lead).instagram && !Buttons(lead).external
  {
  }

  /** Show more / less: the row that is expanded collapses, any other row becomes the only
      expanded one. The state holds at most one id, so at most one row is ever expanded. */
  function ToggleExpand(expanded: Option<string>, id: string): (r: Option<string>)
    ensures expanded == Some(id) ==> r.None?
    ensures expanded != Some(id) ==> r == Some(id)
  {
    if expanded == Some(id) then None else Some(id)
  }

  /** Clicking the same row twice returns to the start when that row was expanded or nothing was;
      starting from another expanded row it ends with nothing expanded. */
  lemma ToggleExpandTwice(expanded: Option<string>, id: string)
    ensures expanded.None? || expanded == Some(id) ==> ToggleExpand(ToggleExpand(expanded, id), id) == expanded
    ensures expanded.Some? && expanded != Some(id) ==> ToggleExpand(ToggleExpand(expanded, id), id).None?
  {
  }

  /** The show more / less button is offered only for a context longer than 100 characters. */
  predicate OffersExpand(lead: Lead) {
    lead.context.Some? && |lead.context.value| > 100
  }

  /** The status badge text:
      `status?.charAt(0).toUpperCase() + (status?.slice(1) || '') || 'New'`. For a missing status
      the left operand is `undefined + ''`, the non-empty text "undefined", so 'New' is never
      reached; only the empty status shows "New". */
  function StatusLabel(status: Option<string>): (r: string)
    ensures status.None? ==> r == "undefined"
    ensures status == Some("") ==> r == "New"
    ensures status.Some? && |status.value| > 0 ==>
      |r| == |status.value| && r[0] == UpperChar(status.value[0]) && r[1..] == status.value[1..]
  {
    if status.None? then "undefined"
    else if |status.value| == 0 then "New"
    else Capitalize(status.value)
  }

  const NewStyle := "bg-zinc-100 text-zinc-700 border-zinc-200"
  const ContactedStyle := "bg-amber-50 text-amber-700 border-amber-200"
  const RepliedStyle := "bg-emerald-50 text-emerald-700 border-emerald-200"

  /** `statusStyles[status || 'new']` inside the class list: the style of new, contacted or
      replied, and for any other status the text "undefined", which matches no style. */
  function StatusStyle(status: Option<string>): (r: string)
    ensures !Present(status) || status == Some("new") ==> r == NewStyle
    ensures status == Some("contacted") ==> r == ContactedStyle
    ensures status == Some("replied") ==> r == RepliedStyle
    ensures Present(status) && status.value !in {"new", "contacted", "replied"} ==> r == "undefined"
  {
    var key := OrElse(status, "new");
    if key == "new" then NewStyle
    else if key == "contacted" then ContactedStyle
    else if key == "replied" then RepliedStyle
    else "undefined"
  }

  /** A missing status is styled as new but labelled "undefined"; an empty one is both styled and
      labelled as new. */
  lemma MissingStatusBadge()
    ensures StatusStyle(None) == StatusStyle(Some("new")) && StatusLabel(None) == "undefined"
    ensures StatusStyle(Some("")) == StatusStyle(Some("new")) && StatusLabel(Some("")) == "New"
  {
  }

  /** A change event from the store applied to the list (this page has no open lead). */
  function Reduce(leads: seq<Lead>, change: Realtime.Change<Lead>): (r: seq<Lead>)
    ensures change.Inserted? ==> r == [change.row] + leads
    ensures change.Updated? ==> Realtime.Ids(r, LeadId) == Realtime.Ids(leads, LeadId)
    ensures change.Updated? ==> forall i :: 0 <= i < |leads| && leads[i].id == change.row.id ==> r[i] == change.row
    ensures change.Updated? ==> forall i :: 0 <= i < |leads| && leads[i].id != change.row.id ==> r[i] == leads[i]
    ensures change.Deleted? ==> !Realtime.HasId(r, LeadId, change.id) && IsSubsequence(r, leads)
    ensures change.Deleted? ==> |r| + Realtime.IdCount(leads, LeadId, change.id) == |leads|
  {
    Realtime.Apply(leads, change, LeadId)
  }
}
