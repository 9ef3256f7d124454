/** What the outreach templates promise: which phrases every message carries, how the optional
    city and notes clauses appear, how the follow-up stages differ, how the status tables are
    looked up, and the classifier on a few concrete texts. */
module TemplateFacts {
  import opened Wrappers
  import opened Nullable
  import opened Strings
  import opened Templates

  /** A text is a prefix of anything it starts. */
  lemma PrefixOfConcat(a: string, b: string)
    ensures a <= a + b
  {
    assert (a + b)[..|a|] == a;
  }

  /** A piece glued onto a text, followed by more text, is still included. */
  lemma IncludesPiece(a: string, k: string, b: string)
    ensures Includes(a + k + b, k)
  {
    IncludesSuffix(a, k);
    IncludesExtendRight(a + k, b, k);
  }

  // ---------------------------------------------------------------------------------------------
  // Instagram / WhatsApp
  // ---------------------------------------------------------------------------------------------

  /** Every direct message opens with the greeting, names the store, and describes the line that
      the biography suggests. */
  lemma InstagramDMShape(lead: LeadVariables)
    ensures DmGreeting(DmName(lead)) <= InstagramDM(lead)
    ensures Includes(InstagramDM(lead), RetailersLike(StoreName(lead)))
    ensures Includes(InstagramDM(lead), RangeOf(DetectLineFocus(lead.biography)))
  {
    var line := DetectLineFocus(lead.biography);
    var greeting := DmGreeting(DmName(lead));
    var p1 := greeting + "\n\nWe manufacture premium ";
    var p2 := p1 + RangeOf(line);
    var p3 := p2 + DmRangeDetail(line);
    var p4 := p3 + RetailersLike(StoreName(lead));
    assert InstagramDM(lead) == p4 + DmClosing(line);
    PrefixOfConcat(greeting, "\n\nWe manufacture premium ");
    PrefixExtend(greeting, p1, RangeOf(line));
    PrefixExtend(greeting, p2, DmRangeDetail(line));
    PrefixExtend(greeting, p3, RetailersLike(StoreName(lead)));
    PrefixExtend(greeting, p4, DmClosing(line));
    IncludesPiece(p1, RangeOf(line), DmRangeDetail(line));
    IncludesExtendRight(p3, RetailersLike(StoreName(lead)), RangeOf(line));
    IncludesExtendRight(p4, DmClosing(line), RangeOf(line));
    IncludesPiece(p3, RetailersLike(StoreName(lead)), DmClosing(line));
  }

  /** The first WhatsApp reminder names the store followed by " in " and the city when there is
      a city, and is the same as with no city at all otherwise. */
  lemma WhatsAppFollowUp1City(lead: LeadVariables)
    ensures Present(lead.city) ==> Includes(WhatsAppFollowUp1(lead), StoreName(lead) + " in " + lead.city.value)
    ensures !Present(lead.city) ==> Includes(WhatsAppFollowUp1(lead), StoreName(lead))
    ensures !Present(lead.city) ==> WhatsAppFollowUp1(lead) == WhatsAppFollowUp1(lead.(city := None))
  {
    var named := StoreName(lead) + InCity(lead.city);
    IncludesPiece("Hi " + DmName(lead) + WhatsAppCheckingIn, named, WhatsAppNoPressure);
    if Present(lead.city) {
      assert named == StoreName(lead) + " in " + lead.city.value;
    } else {
      assert named == StoreName(lead);
    }
  }

  /** The closing WhatsApp message greets like the others and names the store. */
  lemma WhatsAppFollowUp2Shape(lead: LeadVariables)
    ensures ("Hi " + DmName(lead)) <= WhatsAppFollowUp2(lead)
    ensures Includes(WhatsAppFollowUp2(lead), StoreName(lead))
  {
    var hi := "Hi " + DmName(lead);
    var p1 := hi + ", I'll assume now isn't the right time for ";
    var p2 := p1 + StoreName(lead);
    var post := WhatsAppSignOff;
    PrefixOfConcat(hi, ", I'll assume now isn't the right time for ");
    PrefixExtend(hi, p1, StoreName(lead));
    PrefixExtend(hi, p2, post);
    IncludesPiece(p1, StoreName(lead), post);
  }

  // ---------------------------------------------------------------------------------------------
  // Emails
  // ---------------------------------------------------------------------------------------------

  /** An explicit line always wins; without one, the product focus is classified when present
      and the biography otherwise. */
  lemma EmailLineChoice(lead: LeadVariables, lineType: Option<LineType>)
    ensures lineType.Some? ==> EmailLine(lead, lineType) == lineType.value
    ensures lineType.None? && Present(lead.productFocus) ==>
      EmailLine(lead, lineType) == DetectLineFocus(lead.productFocus)
    ensures lineType.None? && !Present(lead.productFocus) ==>
      EmailLine(lead, lineType) == DetectLineFocus(lead.biography)
  {
  }

  /** The introduction starts with the business and names the city clause, the product focus
      (or "Islamicwear") and the outreach notes clause. */
  lemma IntroLineShape(lead: LeadVariables)
    ensures ("I came across " + BusinessName(lead)) <= IntroLine(lead)
    ensures Includes(IntroLine(lead), InCity(lead.city))
    ensures Includes(IntroLine(lead), OrElse(lead.productFocus, "Islamicwear"))
    ensures Includes(IntroLine(lead), WithNotes(lead.notesForOutreach))
  {
    var head := "I came across " + BusinessName(lead);
    var p1 := head + InCity(lead.city);
    var p2 := p1 + " and saw you focus on ";
    var p3 := p2 + OrElse(lead.productFocus, "Islamicwear");
    var p4 := p3 + WithNotes(lead.notesForOutreach);
    assert IntroLine(lead) == p4 + ".";
    PrefixOfConcat(head, InCity(lead.city));
    PrefixExtend(head, p1, " and saw you focus on ");
    PrefixExtend(head, p2, OrElse(lead.productFocus, "Islamicwear"));
    PrefixExtend(head, p3, WithNotes(lead.notesForOutreach));
    PrefixExtend(head, p4, ".");
    IncludesPiece(head, InCity(lead.city), " and saw you focus on ");
    IncludesExtendRight(p2, OrElse(lead.productFocus, "Islamicwear"), InCity(lead.city));
    IncludesExtendRight(p3, WithNotes(lead.notesForOutreach), InCity(lead.city));
    IncludesExtendRight(p4, ".", InCity(lead.city));
    IncludesPiece(p2, OrElse(lead.productFocus, "Islamicwear"), WithNotes(lead.notesForOutreach));
    IncludesExtendRight(p4, ".", OrElse(lead.productFocus, "Islamicwear"));
    IncludesPiece(p3, WithNotes(lead.notesForOutreach), ".");
  }

  /** The city clause is " in " and the city exactly when there is a city; the notes clause is
      " – " and the notes exactly when there are notes. */
  lemma OptionalClauses(city: Option<string>, notes: Option<string>)
    ensures Present(city) ==> InCity(city) == " in " + city.value
    ensures !Present(city) ==> InCity(city) == ""
    ensures Present(notes) ==> WithNotes(notes) == " – " + notes.value
    ensures !Present(notes) ==> WithNotes(notes) == ""
  {
  }

  /** The offer starts with the phrase for its line. */
  lemma OfferStartsWithRange(line: LineType)
    ensures RangeOf(line) <= Offer(line)
  {
    var markets := " for retailers and online stores in the UK, Europe, North America and South Africa";
    match line
    case Mens =>
      PrefixOfConcat(RangeOf(line), markets);
      PrefixExtend(RangeOf(line), RangeOf(line) + markets, ", under our brand or yours");
    case Womens =>
      var detail := " (and men's thobes where needed)";
      PrefixOfConcat(RangeOf(line), detail);
      PrefixExtend(RangeOf(line), RangeOf(line) + detail, markets);
      PrefixExtend(RangeOf(line), RangeOf(line) + detail + markets, ", under our brand or your private label");
    case Family =>
      var detail := " (abayas, jilbabs, etc.)";
      PrefixOfConcat(RangeOf(line), detail);
      PrefixExtend(RangeOf(line), RangeOf(line) + detail, markets);
      PrefixExtend(RangeOf(line), RangeOf(line) + detail + markets, ", under our brand or as your private label");
  }

  /** An initial email offers two subject lines, the first naming the business; its body greets
      the contact, carries the introduction, describes the chosen line and names the country it
      ships to. */
  lemma InitialEmailShape(lead: LeadVariables, lineType: Option<LineType>)
    ensures |InitialEmail(lead, lineType).subjectOptions| == 2
    ensures Includes(InitialEmail(lead, lineType).subjectOptions[0], BusinessName(lead))
    ensures (EmailGreeting(FirstName(lead.contactFirstName)) + IntroLine(lead)) <= InitialEmail(lead, lineType).body
    ensures Includes(InitialEmail(lead, lineType).body, RangeOf(EmailLine(lead, lineType)))
    ensures Includes(InitialEmail(lead, lineType).body, ShippingClause(CountryName(lead)))
  {
    var line := EmailLine(lead, lineType);
    var business := BusinessName(lead);
    var email := InitialEmail(lead, lineType);
    var opening := EmailGreeting(FirstName(lead.contactFirstName)) + IntroLine(lead);
    var p1 := opening + AboutUs;
    var p2 := p1 + Offer(line);
    var p3 := p2 + CatalogAttached;
    var p4 := p3 + ShippingClause(CountryName(lead));
    var closing := CallToAction;
    PrefixOfConcat(opening, AboutUs);
    PrefixExtend(opening, p1, Offer(line));
    PrefixExtend(opening, p2, CatalogAttached);
    PrefixExtend(opening, p3, ShippingClause(CountryName(lead)));
    PrefixExtend(opening, p4, closing);
    OfferStartsWithRange(line);
    IncludesPrefix(RangeOf(line), Offer(line));
    IncludesSuffix(p1, Offer(line));
    IncludesTransitive(p2, Offer(line), RangeOf(line));
    IncludesExtendRight(p2, CatalogAttached, RangeOf(line));
    IncludesExtendRight(p3, ShippingClause(CountryName(lead)), RangeOf(line));
    IncludesExtendRight(p4, closing, RangeOf(line));
    IncludesPiece(p3, ShippingClause(CountryName(lead)), closing);
    InitialSubjectsName(line, business, lead.city);
  }

  /** Both lines' first subjects name the business. */
  lemma InitialSubjectsName(line: LineType, business: string, city: Option<string>)
    ensures |InitialSubjects(line, business, city)| == 2
    ensures Includes(InitialSubjects(line, business, city)[0], business)
  {
    match line
    case Mens => IncludesPiece("Thobes for ", business, InCity(city));
    case Womens => IncludesPiece("Abayas for ", business, InCity(city));
    case Family => IncludesSuffix("Men's & women's Islamicwear for ", business);
  }

  /** Every follow-up email offers two subject lines that both name the business and opens with
      the email greeting; it reads nothing of the lead's product focus, biography, notes, username
      or full name; the third stage is the break-up email. */
  lemma FollowUpEmailShape(lead: LeadVariables, followUpNumber: int)
    requires 1 <= followUpNumber <= 3
    ensures |FollowUpEmail(lead, followUpNumber).subjectOptions| == 2
    ensures forall i :: 0 <= i < 2 ==> Includes(FollowUpEmail(lead, followUpNumber).subjectOptions[i], BusinessName(lead))
    ensures EmailGreeting(FirstName(lead.contactFirstName)) <= FollowUpEmail(lead, followUpNumber).body
    ensures followUpNumber == 3 ==> Includes(FollowUpEmail(lead, followUpNumber).body, BreakUpLine)
    ensures FollowUpEmail(lead, followUpNumber) ==
      FollowUpEmail(lead.(productFocus := None, biography := None, notesForOutreach := None, username := None, fullname := None), followUpNumber)
  {
    var greeting := EmailGreeting(FirstName(lead.contactFirstName));
    var business := BusinessName(lead);
    var message := FollowUpMessage(followUpNumber, business, lead.city, CountryName(lead));
    PrefixOfConcat(greeting, message);
    FollowUpSubjectsMention(followUpNumber, business);
    if followUpNumber == 3 {
      BreakUpMentionsLine(greeting, business, lead.city, CountryName(lead));
    }
  }

  /** Both subject lines of every follow-up stage name the business. */
  lemma FollowUpSubjectsMention(followUpNumber: int, business: string)
    ensures |FollowUpSubjects(followUpNumber, business)| == 2
    ensures forall i :: 0 <= i < 2 ==> Includes(FollowUpSubjects(followUpNumber, business)[i], business)
  {
    if followUpNumber == 1 {
      IncludesSuffix("Quick follow-up for ", business);
      IncludesPiece("Did you see the catalog for ", business, "?");
    } else if followUpNumber == 2 {
      IncludesSuffix("Private-label options for ", business);
      IncludesPiece("Next collection at ", business, "?");
    } else {
      IncludesPiece("Should I close this for ", business, "?");
      IncludesSuffix("Quick yes/no for ", business);
    }
  }

  /** The break-up email carries the break-up line after its greeting. */
  lemma BreakUpMentionsLine(greeting: string, business: string, city: Option<string>, country: string)
    ensures Includes(greeting + FollowUpMessage(3, business, city, country), BreakUpLine)
  {
    IncludesPiece(BreakUpOpening + business + BreakUpReason, BreakUpLine, BreakUpClosing);
    IncludesExtendLeft(greeting, FollowUpMessage(3, business, city, country), BreakUpLine);
  }

  /** The first subject of the men's and women's initial emails carries the city clause right
      after the business; the family subjects read the same with or without a city. */
  lemma SubjectsCityClause(line: LineType, business: string, city: Option<string>)
    ensures line != Family ==> Includes(InitialSubjects(line, business, city)[0], business + InCity(city))
    ensures InitialSubjects(Family, business, city) == InitialSubjects(Family, business, None)
  {
    match line {
      case Mens =>
        assert InitialSubjects(line, business, city)[0] == "Thobes for " + (business + InCity(city));
        IncludesSuffix("Thobes for ", business + InCity(city));
      case Womens =>
        assert InitialSubjects(line, business, city)[0] == "Abayas for " + (business + InCity(city));
        IncludesSuffix("Abayas for ", business + InCity(city));
      case Family =>
    }
  }

  /** The first follow-up carries the city clause right after the business. */
  lemma FirstReminderCityClause(business: string, city: Option<string>, country: string)
    ensures Includes(FirstReminderMessage(business, city, country), business + InCity(city))
  {
    var named := business + InCity(city);
    var m1 := FirstReminder + business + InCity(city);
    var m2 := m1 + FirstReminderMoq;
    var m3 := m2 + country;
    assert m1 == FirstReminder + named;
    IncludesSuffix(FirstReminder, named);
    IncludesExtendRight(m1, FirstReminderMoq, named);
    IncludesExtendRight(m2, country, named);
    IncludesExtendRight(m3, FirstReminderClosing, named);
  }

  /** The first follow-up email is the greeting followed by the first reminder. */
  lemma FirstFollowUpIsReminder(lead: LeadVariables)
    ensures FollowUpEmail(lead, 1).body
      == EmailGreeting(FirstName(lead.contactFirstName)) + FirstReminderMessage(BusinessName(lead), lead.city, CountryName(lead))
  {
  }

  /** The second follow-up and the break-up email do not mention the city. */
  lemma LaterStagesIgnoreCity(lead: LeadVariables, followUpNumber: int)
    requires followUpNumber == 2 || followUpNumber == 3
    ensures FollowUpEmail(lead, followUpNumber) == FollowUpEmail(lead.(city := None), followUpNumber)
  {
  }

  // ---------------------------------------------------------------------------------------------
  // Status tables
  // ---------------------------------------------------------------------------------------------

  /** No value appears twice in either table. */
  lemma StatusValuesDistinct(isInstagram: bool)
    ensures DistinctValues(Options(isInstagram))
  {
  }

  /** A status listed in the channel's table shows that entry's label and style. */
  lemma StatusLookupFound(status: string, isInstagram: bool, i: int)
    requires 0 <= i < |Options(isInstagram)| && Options(isInstagram)[i].value == status
    ensures StatusLabel(Some(status), isInstagram) == Options(isInstagram)[i].title
    ensures StatusStyle(Some(status), isInstagram) == Options(isInstagram)[i].color
  {
    var options := Options(isInstagram);
    StatusValuesDistinct(isInstagram);
    var found := Find(options, Some(status));
    var j :| 0 <= j < |options| && options[j] == found.value && found.value.value == status;
    assert options[i].value == options[j].value;
  }

  /** An absent status, or one the channel's table does not list, shows as "New" in blue. */
  lemma StatusLookupDefault(status: Option<string>, isInstagram: bool)
    requires status.None? || forall i :: 0 <= i < |Options(isInstagram)| ==> Options(isInstagram)[i].value != status.value
    ensures StatusLabel(status, isInstagram) == "New"
    ensures StatusStyle(status, isInstagram) == BlueStyle
  {
  }

  /** A lead with no status looks exactly like one whose status is "new". */
  lemma NoStatusLooksNew(isInstagram: bool)
    ensures StatusLabel(None, isInstagram) == StatusLabel(Some("new"), isInstagram)
    ensures StatusStyle(None, isInstagram) == StatusStyle(Some("new"), isInstagram)
  {
    StatusLookupFound("new", isInstagram, 0);
  }

  /** Every Instagram entry is also an email entry, so a status the Instagram table lists looks
      the same on both channels. */
  lemma ChannelsAgree(status: string, i: int)
    requires 0 <= i < |InstagramStatusOptions| && InstagramStatusOptions[i].value == status
    ensures StatusLabel(Some(status), true) == StatusLabel(Some(status), false)
    ensures StatusStyle(Some(status), true) == StatusStyle(Some(status), false)
  {
    var j := if i < 2 then i else i + 3;
    assert EmailStatusOptions[j] == InstagramStatusOptions[i];
    StatusLookupFound(status, true, i);
    StatusLookupFound(status, false, j);
  }

  /** The email-only stages are unknown to the Instagram table and show as "New" there. */
  lemma EmailStagesUnknownOnInstagram(status: string)
    requires status in {"follow_up_1", "follow_up_2", "break_up"}
    ensures StatusLabel(Some(status), true) == "New"
    ensures StatusLabel(Some(status), false) != "New"
  {
    NotAnInstagramValue(status);
    StatusLookupDefault(Some(status), true);
    EmailStageListed(status);
  }

  /** The email-only stages are not values of the Instagram table. */
  lemma NotAnInstagramValue(status: string)
    requires status in {"follow_up_1", "follow_up_2", "break_up"}
    ensures forall i :: 0 <= i < |InstagramStatusOptions| ==> InstagramStatusOptions[i].value != status
  {
    forall i | 0 <= i < |InstagramStatusOptions|
      ensures InstagramStatusOptions[i].value != status
    {
      assert |status| == 8 || |status| == 11;
      assert |InstagramStatusOptions[i].value| != 8 && |InstagramStatusOptions[i].value| != 11;
    }
  }

  /** The email table lists the email-only stages under labels other than "New". */
  lemma EmailStageListed(status: string)
    requires status in {"follow_up_1", "follow_up_2", "break_up"}
    ensures StatusLabel(Some(status), false) != "New"
  {
    var j := if status == "follow_up_1" then 2 else if status == "follow_up_2" then 3 else 4;
    StatusLookupFound(status, false, j);
    assert EmailStatusOptions[j].title != "New";
  }

  // ---------------------------------------------------------------------------------------------
  // The classifier on concrete texts
  // ---------------------------------------------------------------------------------------------

  /** No keyword of the list occurs in the text when each one either has a letter, at the given
      position, that the text lacks, or is already known to be absent. */
  lemma NotMentioned(text: string, keywords: seq<string>, at: seq<int>)
    requires |at| == |keywords|
    requires forall i :: 0 <= i < |keywords| ==>
      (0 <= at[i] < |keywords[i]| && keywords[i][at[i]] !in text) || !Includes(text, keywords[i])
    ensures !Mentions(text, keywords)
  {
    forall i | 0 <= i < |keywords|
      ensures !Includes(text, keywords[i])
    {
      if 0 <= at[i] < |keywords[i]| && keywords[i][at[i]] !in text {
        NotIncludesMissingChar(text, keywords[i], at[i]);
      }
    }
  }

  lemma MensTextNotWomens()
    ensures !Mentions("mens thobe collection", WomensKeywords)
  {
    NotMentioned("mens thobe collection", WomensKeywords, [0, 0, 2, 2, 0, 0, 0, 5, 2, 2]);
  }

  /** "Mens thobe collection" is worded for men. */
  lemma ClassifyMensExample()
    ensures DetectLineFocus(Some("Mens thobe collection")) == Mens
  {
    var lower := ToLower("Mens thobe collection");
    assert lower == "mens thobe collection";
    MensTextNotWomens();
    IncludesAt(lower, "mens", 0);
    assert Includes(lower, MensKeywords[7]);
  }

  /** "Abaya and Jilbab" is worded for women. */
  lemma ClassifyWomensExample()
    ensures DetectLineFocus(Some("Abaya and Jilbab")) == Womens
  {
    var lower := ToLower("Abaya and Jilbab");
    assert lower == "abaya and jilbab";
    WomensTextNotMens();
    IncludesAt(lower, "abaya", 0);
    assert Includes(lower, WomensKeywords[0]);
  }

  lemma WomensTextNotMens()
    ensures !Mentions("abaya and jilbab", MensKeywords)
  {
    NotMentioned("abaya and jilbab", MensKeywords, [0, 0, 1, 1, 0, 2, 0, 0, 0, 2]);
  }

  /** "Clothing Store" mentions neither line and is worded for the whole family, although every
      letter of "sisters" occurs in it. */
  lemma ClassifyFamilyExample()
    ensures DetectLineFocus(Some("Clothing Store")) == Family
  {
    var lower := ToLower("Clothing Store");
    assert lower == "clothing" + " " + "store";
    FamilyTextNotMens();
    FamilyTextNotWomens();
  }

  lemma FamilyTextNotMens()
    ensures !Mentions("clothing" + " " + "store", MensKeywords)
  {
    NotMentioned("clothing" + " " + "store", MensKeywords, [3, 2, 0, 0, 0, 0, 0, 0, 0, 0]);
  }

  lemma FamilyTextNotWomens()
    ensures !Mentions("clothing" + " " + "store", WomensKeywords)
  {
    var lower := "clothing" + " " + "store";
    NotIncludesMissingChar("clothing", "sisters", 5);
    NotIncludesLonger("store", "sisters");
    NotIncludesAcrossSpace("clothing", "store", "sisters");
    NotMentioned(lower, WomensKeywords, [0, 0, 2, 2, 0, 0, 0, -1, 0, 0]);
  }

  /** "We sell premium abayas for women" is worded for women: "mens" and "male" occur in none of
      its words. */
  lemma ClassifyAbayaBiography()
    ensures DetectLineFocus(Some("We sell premium abayas for women")) == Womens
  {
    AbayaBiographyLower();
    AbayaBiographyHasNoMensKeyword();
    AbayaBiographyMentionsAbaya();
  }

  lemma AbayaBiographyLower()
    ensures ToLower("We sell premium abayas for women") == "we sell premium abayas for women"
  {
  }

  lemma AbayaBiographyMentionsAbaya()
    ensures Mentions("we sell premium abayas for women", WomensKeywords)
  {
    IncludesAt("we sell premium abayas for women", "abaya", 16);
    assert Includes("we sell premium abayas for women", WomensKeywords[0]);
  }

  lemma AbayaBiographyHasNoMensKeyword()
    ensures !Mentions("we sell premium abayas for women", MensKeywords)
  {
    AbayaBiographyWords();
    MensWordAbsent("mens", 3);
    MensWordAbsent("male", 1);
    assert !Includes("we sell premium abayas for women", MensKeywords[7]);
    assert !Includes("we sell premium abayas for women", MensKeywords[8]);
    NotMentioned("we sell premium abayas for women", MensKeywords, [0, 0, 0, 0, 0, 0, 3, -1, -1, 3]);
  }

  /** A lead with no names whose biography reads "We sell premium abayas for women" gets the
      women's direct message, greeted with "Hi there". */
  lemma AbayaStoreDMExample()
    ensures
      var lead := LeadVariables(None, None, None, None, None, None, None, None, Some("We sell premium abayas for women"));
      && DmGreeting("there") <= InstagramDM(lead)
      && Includes(InstagramDM(lead), WomensRange)
  {
    var lead := LeadVariables(None, None, None, None, None, None, None, None, Some("We sell premium abayas for women"));
    ClassifyAbayaBiography();
    assert DmName(lead) == "there";
    InstagramDMShape(lead);
  }

  /** The biography of the example, split into its words. */
  lemma AbayaBiographyWords()
    ensures "we sell premium abayas for women"
      == "we" + " " + ("sell" + " " + ("premium" + " " + ("abayas" + " " + ("for" + " " + "women"))))
  {
  }

  /** "mens" and "male" occur in none of the words of "we sell premium abayas for women": each
      word is shorter than the keyword or lacks one of its letters. */
  lemma MensWordAbsent(k: string, j: int)
    requires (k == "mens" && j == 3) || (k == "male" && j == 1)
    ensures !Includes("we" + " " + ("sell" + " " + ("premium" + " " + ("abayas" + " " + ("for" + " " + "women")))), k)
  {
    NotIncludesLonger("we", k);
    NotIncludesMissingChar("sell", k, 0);
    NotIncludesMissingChar("premium", k, j);
    NotIncludesMissingChar("abayas", k, 0);
    NotIncludesLonger("for", k);
    NotIncludesMissingChar("women", k, j);
    NotIncludesAcrossSpace("for", "women", k);
    NotIncludesAcrossSpace("abayas", "for" + " " + "women", k);
    NotIncludesAcrossSpace("premium", "abayas" + " " + ("for" + " " + "women"), k);
    NotIncludesAcrossSpace("sell", "premium" + " " + ("abayas" + " " + ("for" + " " + "women")), k);
    NotIncludesAcrossSpace("we", "sell" + " " + ("premium" + " " + ("abayas" + " " + ("for" + " " + "women"))), k);
  }
}
