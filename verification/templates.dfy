/** The outreach text engine of Al-Dar Apparel: it classifies a lead's product focus from free
    text, picks a first name, fills the Instagram/WhatsApp and email templates, and looks up the
    display label and style of an outreach status. Everything here is a pure function of its
    arguments. */
module Templates {
  import opened Wrappers
  import opened Nullable
  import opened Strings

  // ---------------------------------------------------------------------------------------------
  // Product-focus classifier
  // ---------------------------------------------------------------------------------------------

  /** The product lines a message can be worded for. */
  datatype LineType = Mens | Womens | Family

  const MensKeywords: seq<string> :=
    ["thobe", "thawb", "jubbah", "jubba", "kandura", "dishdasha", "men's", "mens", "male", "brothers"]

  const WomensKeywords: seq<string> :=
    ["abaya", "jilbab", "hijab", "niqab", "women's", "womens", "female", "sisters", "modest wear", "modesty"]

  /** Some keyword of the list occurs in the text. */
  predicate Mentions(text: string, keywords: seq<string>) {
    exists i | 0 <= i < |keywords| :: Includes(text, keywords[i])
  }

  /** `keywords.some(k => text.includes(k))`, scanning the list front to back. */
  function SomeIncluded(text: string, keywords: seq<string>): (b: bool)
    ensures b <==> Mentions(text, keywords)
  {
    if |keywords| == 0 then false
    else
      assert forall i :: 1 <= i < |keywords| ==> keywords[i] == keywords[1..][i - 1];
      Includes(text, keywords[0]) || SomeIncluded(text, keywords[1..])
  }

  /** `detectLineFocus`: an absent or empty text is family; otherwise the lower-cased text is
      mens when it mentions only mens keywords, womens when it mentions only womens keywords,
      and family when it mentions both or neither. */
  function DetectLineFocus(text: Option<string>): (r: LineType)
    ensures !Present(text) ==> r == Family
    ensures r == Mens <==>
      Present(text) && Mentions(ToLower(text.value), MensKeywords) && !Mentions(ToLower(text.value), WomensKeywords)
    ensures r == Womens <==>
      Present(text) && Mentions(ToLower(text.value), WomensKeywords) && !Mentions(ToLower(text.value), MensKeywords)
  {
    if !Present(text) then Family
    else
      var lower := ToLower(text.value);
      var hasMens := SomeIncluded(lower, MensKeywords);
      var hasWomens := SomeIncluded(lower, WomensKeywords);
      if hasMens && !hasWomens then Mens
      else if hasWomens && !hasMens then Womens
      else Family
  }

  /** Every text that contains "female", "womens" or "women's" also contains "male", "mens" or
      "men's", so it mentions both lists and is classified as family. */
  lemma {:induction false} WomensWordsAreFamily(text: string)
    requires
      var lower := ToLower(text);
      Includes(lower, "female") || Includes(lower, "womens") || Includes(lower, "women's")
    ensures DetectLineFocus(Some(text)) == Family
  {
    var lower := ToLower(text);
    assert |text| > 0;
    assert MensKeywords[6] == "men's" && MensKeywords[7] == "mens" && MensKeywords[8] == "male";
    assert WomensKeywords[4] == "women's" && WomensKeywords[5] == "womens" && WomensKeywords[6] == "female";
    if Includes(lower, "female") {
      assert "female"[2..6] == "male";
      IncludesAt("female", "male", 2);
      IncludesTransitive(lower, "female", "male");
    } else if Includes(lower, "womens") {
      assert "womens"[2..6] == "mens";
      IncludesAt("womens", "mens", 2);
      IncludesTransitive(lower, "womens", "mens");
    } else {
      assert "women's"[2..7] == "men's";
      IncludesAt("women's", "men's", 2);
      IncludesTransitive(lower, "women's", "men's");
    }
  }

  // ---------------------------------------------------------------------------------------------
  // First names
  // ---------------------------------------------------------------------------------------------

  const FallbackName := "there"

  /** `getFirstName`: the text before the first space, or "there" when the name is absent, empty
      or starts with a space. */
  function FirstName(name: Option<string>): (r: string)
    ensures |r| > 0 && ' ' !in r
    ensures Present(name) && name.value[0] != ' ' ==>
      r <= name.value && (|r| == |name.value| || name.value[|r|] == ' ')
    ensures !(Present(name) && name.value[0] != ' ') ==> r == FallbackName
  {
    if !Present(name) then FallbackName
    else OrElse(Some(TakeUntil(name.value, ' ')), FallbackName)
  }

  // ---------------------------------------------------------------------------------------------
  // Lead variables and shared phrases
  // ---------------------------------------------------------------------------------------------

  /** The fields of a lead the templates read; every one may be missing. */
  datatype LeadVariables = LeadVariables(
    contactFirstName: Option<string>,
    businessName: Option<string>,
    city: Option<string>,
    country: Option<string>,
    productFocus: Option<string>,
    notesForOutreach: Option<string>,
    username: Option<string>,
    fullname: Option<string>,
    biography: Option<string>)

  /** `${city ? ` in ${city}` : ''}` */
  function InCity(city: Option<string>): string {
    if Present(city) then " in " + city.value else ""
  }

  /** `${notes ? ` – ${notes}` : ''}` */
  function WithNotes(notes: Option<string>): string {
    if Present(notes) then " – " + notes.value else ""
  }

  /** The name a direct message greets: the first name of the full name, else of the contact name. */
  function DmName(lead: LeadVariables): string {
    FirstName(Either(lead.fullname, lead.contactFirstName))
  }

  /** `business_name || username || 'your store'` */
  function StoreName(lead: LeadVariables): string {
    OrElse(Either(lead.businessName, lead.username), "your store")
  }

  /** `business_name || 'your business'` */
  function BusinessName(lead: LeadVariables): string {
    OrElse(lead.businessName, "your business")
  }

  /** `country || 'your region'` */
  function CountryName(lead: LeadVariables): string {
    OrElse(lead.country, "your region")
  }

  /** The opening sentence of every Instagram message. */
  function DmGreeting(name: string): string {
    "Hi " + name + ", this is Amir from Al-Dar Apparel in Dubai."
  }

  const MensRange := "men's thobes/jubbas"
  const WomensRange := "abayas, jilbabs and women's Islamicwear"
  const FamilyRange := "men's thobes and women's Islamicwear"

  // ---------------------------------------------------------------------------------------------
  // Instagram / WhatsApp templates
  // ---------------------------------------------------------------------------------------------

  /** The phrase naming what Al-Dar makes for the given line. */
  function RangeOf(line: LineType): string {
    match line
    case Mens => MensRange
    case Womens => WomensRange
    case Family => FamilyRange
  }

  /** The family direct message lists examples after the phrase; the others do not. */
  function DmRangeDetail(line: LineType): string {
    if line == Family then " (abayas, jilbabs, etc.)" else ""
  }

  function RetailersLike(business: string): string {
    " for retailers like " + business
  }

  const DmMensClosing :=
    ", under our brand or your own label.\n\nOur MOQs start around 250 pcs per style, with regular shipping worldwide.\n\nIf this might be relevant, I can share a 2-page catalog + price/MOQ summary here or by email – what do you prefer?"
  const DmWomensClosing :=
    ", either under our Al-Dar brand or your private label.\n\nOur MOQs start around 250 pcs per style, with regular shipping worldwide.\n\nIf this could fit your range, I can share a 2-page catalog + price/MOQ summary here or by email – what's easier for you?"
  const DmFamilyClosing :=
    ", under our brand or your own label.\n\nMOQs start around 250 pcs per style, with regular shipping worldwide.\n\nIf it's relevant, I can send a 2-page catalog + price/MOQ summary here or by email – which do you prefer?"

  /** How each direct message goes on after naming the store. */
  function DmClosing(line: LineType): string {
    match line
    case Mens => DmMensClosing
    case Womens => DmWomensClosing
    case Family => DmFamilyClosing
  }

  /** `generateInstagramDM`: the first direct message, worded for the line the biography suggests. */
  function InstagramDM(lead: LeadVariables): string {
    var line := DetectLineFocus(lead.biography);
    DmGreeting(DmName(lead)) + "\n\nWe manufacture premium " + RangeOf(line) + DmRangeDetail(line)
    + RetailersLike(StoreName(lead)) + DmClosing(line)
  }

  const WhatsAppCheckingIn := ", just checking you saw my message about supplying thobes/abayas/Islamicwear to "
  const WhatsAppNoPressure :=
    ".\n\nI can send a very short catalog + price/MOQ overview so you can decide quickly if it's a fit.\n\nIf it's not relevant, a quick \"no\" is totally fine."
  const WhatsAppSignOff :=
    " to look at a new Islamicwear supplier.\n\nI'll close this on my side – but if you ever want to see the 2-page catalog + wholesale price ranges, just send me a quick \"catalog\" and I'll share it."

  /** `generateWhatsAppFollowUp1`: the first reminder, naming the city when there is one. */
  function WhatsAppFollowUp1(lead: LeadVariables): string {
    "Hi " + DmName(lead) + WhatsAppCheckingIn + (StoreName(lead) + InCity(lead.city)) + WhatsAppNoPressure
  }

  /** `generateWhatsAppFollowUp2`: the closing message. */
  function WhatsAppFollowUp2(lead: LeadVariables): string {
    "Hi " + DmName(lead) + ", I'll assume now isn't the right time for " + StoreName(lead) + WhatsAppSignOff
  }

  // ---------------------------------------------------------------------------------------------
  // Email templates
  // ---------------------------------------------------------------------------------------------

  datatype EmailTemplate = EmailTemplate(subjectOptions: seq<string>, body: string)

  /** The line an initial email is written for: the explicit choice, else the one inferred from
      the product focus or, failing that, the biography. */
  function EmailLine(lead: LeadVariables, lineType: Option<LineType>): LineType {
    if lineType.Some? then lineType.value else DetectLineFocus(Either(lead.productFocus, lead.biography))
  }

  /** The first line of every email. */
  function EmailGreeting(name: string): string {
    "Hi " + name + ",\n\n"
  }

  /** The sentence that opens every initial email. */
  function IntroLine(lead: LeadVariables): string {
    "I came across " + BusinessName(lead) + InCity(lead.city) + " and saw you focus on "
    + OrElse(lead.productFocus, "Islamicwear") + WithNotes(lead.notesForOutreach) + "."
  }

  /** What the initial email says Al-Dar makes, for whom, and under which label. */
  function Offer(line: LineType): string {
    var markets := " for retailers and online stores in the UK, Europe, North America and South Africa";
    match line
    case Mens => RangeOf(line) + markets + ", under our brand or yours"
    case Womens => RangeOf(line) + " (and men's thobes where needed)" + markets + ", under our brand or your private label"
    case Family => RangeOf(line) + " (abayas, jilbabs, etc.)" + markets + ", under our brand or as your private label"
  }

  function ShippingClause(country: string): string {
    "shipping to " + country + "."
  }

  const AboutUs := "\n\nI run Al-Dar Apparel in Dubai. We make premium "
  const CatalogAttached :=
    ".\n\nI've attached a 2-page catalog with key styles and indicative wholesale prices. Our MOQs start around 250 pcs per style, with reliable production and "
  const CallToAction :=
    "\n\nIf this looks relevant, are you open to a quick 10–15 minute call, or would you prefer a simple price/MOQ breakdown by email first?\n\nBest regards,\nAmir"

  function InitialEmailBody(name: string, intro: string, offer: string, country: string): string {
    EmailGreeting(name) + intro + AboutUs + offer + CatalogAttached + ShippingClause(country) + CallToAction
  }

  /** The two subject lines an initial email offers for the given line. */
  function InitialSubjects(line: LineType, business: string, city: Option<string>): seq<string> {
    match line
    case Mens => ["Thobes for " + business + InCity(city), "New thobe supplier for " + business]
    case Womens => ["Abayas for " + business + InCity(city), "New abaya & jilbab supplier for " + business]
    case Family => ["Men's & women's Islamicwear for " + business, "New supplier for your Islamicwear range"]
  }

  /** `generateInitialEmail`: two subject lines and a body, worded for the chosen line. */
  function InitialEmail(lead: LeadVariables, lineType: Option<LineType>): EmailTemplate {
    var line := EmailLine(lead, lineType);
    EmailTemplate(
      InitialSubjects(line, BusinessName(lead), lead.city),
      InitialEmailBody(FirstName(lead.contactFirstName), IntroLine(lead), Offer(line), CountryName(lead)))
  }

  const FirstReminder := "Just checking you saw my email and 2-page catalog about supplying Islamicwear to "
  const FirstReminderMoq := ".\n\nOur MOQs start around 250 pcs per style, with regular shipments to "
  const FirstReminderClosing :=
    ".\n\nIf this might fit your range, I'm happy to jump on a quick 10–15 minute call or email a simple price/MOQ summary. If not, a quick \"no\" is fine and I won't follow up again.\n\nBest,\nAmir"
  const TrialOrderPitch :=
    "I know you're busy, so I'll be brief.\n\nMany of our partners start with a small initial order to add or upgrade their thobe/abaya/Islamicwear line – either under their own label or by adding selected Al-Dar styles.\n\nWould exploring a small trial order for "
  const TrialOrderClosing := " be completely off the table right now, or worth a short conversation?\n\nThanks,\nAmir"
  const BreakUpOpening := "I haven't heard back, so I'll assume now isn't the right time for "
  const BreakUpReason := " to look at new thobe/abaya/Islamicwear suppliers.\n\n"
  const BreakUpLine := "I'll close this on my side."
  const BreakUpClosing :=
    " If you want to revisit later, just reply \"catalog\" and I'll resend the 2-page overview and current wholesale price ranges.\n\nBest,\nAmir"

  /** The two subject lines of a follow-up stage. */
  function FollowUpSubjects(followUpNumber: int, business: string): seq<string> {
    if followUpNumber == 1 then ["Quick follow-up for " + business, "Did you see the catalog for " + business + "?"]
    else if followUpNumber == 2 then ["Private-label options for " + business, "Next collection at " + business + "?"]
    else ["Should I close this for " + business + "?", "Quick yes/no for " + business]
  }

  /** The first follow-up after the greeting. */
  function FirstReminderMessage(business: string, city: Option<string>, country: string): string {
    FirstReminder + business + InCity(city) + FirstReminderMoq + country + FirstReminderClosing
  }

  /** What a follow-up stage says after the greeting. */
  function FollowUpMessage(followUpNumber: int, business: string, city: Option<string>, country: string): string {
    if followUpNumber == 1 then
      FirstReminderMessage(business, city, country)
    else if followUpNumber == 2 then
      TrialOrderPitch + business + TrialOrderClosing
    else
      BreakUpOpening + business + BreakUpReason + BreakUpLine + BreakUpClosing
  }

  /** `generateFollowUpEmail`: the follow-ups of the email sequence; stage 3 is the break-up email. */
  function FollowUpEmail(lead: LeadVariables, followUpNumber: int): EmailTemplate
    requires 1 <= followUpNumber <= 3
  {
    var business := BusinessName(lead);
    EmailTemplate(
      FollowUpSubjects(followUpNumber, business),
      EmailGreeting(FirstName(lead.contactFirstName)) + FollowUpMessage(followUpNumber, business, lead.city, CountryName(lead)))
  }

  // ---------------------------------------------------------------------------------------------
  // Status tables
  // ---------------------------------------------------------------------------------------------

  datatype StatusOption = StatusOption(value: string, title: string, color: string)

  const BlueStyle := "bg-blue-100 text-blue-800 border-blue-200"

  const InstagramStatusOptions: seq<StatusOption> := [
    StatusOption("new", "New", BlueStyle),
    StatusOption("contacted", "Contacted", "bg-yellow-100 text-yellow-800 border-yellow-200"),
    StatusOption("replied", "Replied", "bg-green-100 text-green-800 border-green-200"),
    StatusOption("interested", "Interested", "bg-emerald-100 text-emerald-800 border-emerald-200"),
    StatusOption("not_interested", "Not Interested", "bg-gray-100 text-gray-800 border-gray-200"),
    StatusOption("closed", "Closed", "bg-zinc-100 text-zinc-600 border-zinc-200")
  ]

  const EmailStatusOptions: seq<StatusOption> := [
    StatusOption("new", "New", BlueStyle),
    StatusOption("contacted", "Contacted", "bg-yellow-100 text-yellow-800 border-yellow-200"),
    StatusOption("follow_up_1", "Follow-up 1", "bg-orange-100 text-orange-800 border-orange-200"),
    StatusOption("follow_up_2", "Follow-up 2", "bg-amber-100 text-amber-800 border-amber-200"),
    StatusOption("break_up", "Break-up Sent", "bg-red-100 text-red-800 border-red-200"),
    StatusOption("replied", "Replied", "bg-green-100 text-green-800 border-green-200"),
    StatusOption("interested", "Interested", "bg-emerald-100 text-emerald-800 border-emerald-200"),
    StatusOption("not_interested", "Not Interested", "bg-gray-100 text-gray-800 border-gray-200"),
    StatusOption("closed", "Closed", "bg-zinc-100 text-zinc-600 border-zinc-200")
  ]

  function Options(isInstagram: bool): seq<StatusOption> {
    if isInstagram then InstagramStatusOptions else EmailStatusOptions
  }

  /** The values of a table are pairwise distinct. */
  predicate DistinctValues(options: seq<StatusOption>) {
    forall i, j :: 0 <= i < j < |options| ==> options[i].value != options[j].value
  }

  /** `options.find(o => o.value === status)`: the first entry with that value. */
  function Find(options: seq<StatusOption>, status: Option<string>): (r: Option<StatusOption>)
    ensures r.None? <==> status.None? || forall i :: 0 <= i < |options| ==> options[i].value != status.value
    ensures r.Some? ==> exists i :: 0 <= i < |options| && options[i] == r.value && r.value.value == status.value
  {
    if status.None? || |options| == 0 then None
    else if options[0].value == status.value then Some(options[0])
    else
      var rest := Find(options[1..], status);
      assert forall i :: 1 <= i < |options| ==> options[i] == options[1..][i - 1];
      rest
  }

  /** `getStatusStyle`: the style of the matching entry of the channel's table, else blue. */
  function StatusStyle(status: Option<string>, isInstagram: bool): string {
    match Find(Options(isInstagram), status)
    case Some(o) => OrElse(Some(o.color), BlueStyle)
    case None => BlueStyle
  }

  /** `getStatusLabel`: the label of the matching entry of the channel's table, else "New". */
  function StatusLabel(status: Option<string>, isInstagram: bool): string {
    match Find(Options(isInstagram), status)
    case Some(o) => OrElse(Some(o.title), "New")
    case None => "New"
  }
}
