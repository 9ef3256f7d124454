/** The campaign form: platform and country pickers that toggle values in and out of a list, the
    check that runs before anything is saved, the comma-separated keyword and niche fields, and
    the campaign row and webhook payload built from the form. */
module SearchConfig {
  import opened Wrappers
  import opened Strings
  import opened Seqs

  // ---------------------------------------------------------------------------------------------
  // Pickers
  // ---------------------------------------------------------------------------------------------

  /** `current.filter(item => item !== value)`: every occurrence of `value` dropped, the rest kept
      in order. */
  function Without(xs: seq<string>, value: string): (r: seq<string>)
    ensures value !in r
    ensures forall x :: x != value ==> (x in r <==> x in xs)
    ensures forall i :: 0 <= i < |xs| && xs[i] != value ==> multiset(r)[xs[i]] == multiset(xs)[xs[i]]
    ensures IsSubsequence(r, xs)
  {
    if |xs| == 0 then []
    else
      var rest := Without(xs[1..], value);
      assert xs == [xs[0]] + xs[1..];
      assert forall i :: 1 <= i < |xs| ==> xs[i] == xs[1..][i - 1];
      assert forall x :: x in xs <==> x == xs[0] || x in xs[1..];
      assert xs[0] !in xs[1..] ==> multiset(rest)[xs[0]] == 0 == multiset(xs[1..])[xs[0]];
      if xs[0] == value then rest else [xs[0]] + rest
  }

  /** Dropping a value the list does not hold changes nothing. */
  lemma {:induction false} WithoutAbsent(xs: seq<string>, value: string)
    requires value !in xs
    ensures Without(xs, value) == xs
  {
    if |xs| > 0 {
      assert value !in xs[1..];
      WithoutAbsent(xs[1..], value);
    }
  }

  /** `togglePlatform` / `toggleCountry`: a present value is removed (all its occurrences) and the
      rest keep their order and multiplicity; an absent one is appended at the end. Either way its
      membership flips and no other value's membership changes. */
  function Toggle(current: seq<string>, value: string): (r: seq<string>)
    ensures value in r <==> value !in current
    ensures forall x :: x != value ==> (x in r <==> x in current)
    ensures value in current ==> IsSubsequence(r, current)
    ensures value in current ==> forall i :: 0 <= i < |current| && current[i] != value ==>
      multiset(r)[current[i]] == multiset(current)[current[i]]
    ensures value !in current ==> r == current + [value]
  {
    if value in current then Without(current, value) else current + [value]
  }

  predicate NoDuplicates(xs: seq<string>) {
    forall i, j :: 0 <= i < j < |xs| ==> xs[i] != xs[j]
  }

  /** A list without duplicates keeps having none; removal keeps the order of the rest. */
  lemma {:induction false} WithoutKeepsDistinct(xs: seq<string>, value: string)
    requires NoDuplicates(xs)
    ensures NoDuplicates(Without(xs, value))
  {
    if |xs| > 0 {
      assert NoDuplicates(xs[1..]);
      WithoutKeepsDistinct(xs[1..], value);
      assert xs[0] !in xs[1..];
    }
  }

  /** Toggling keeps a list free of duplicates. */
  lemma ToggleKeepsDistinct(current: seq<string>, value: string)
    requires NoDuplicates(current)
    ensures NoDuplicates(Toggle(current, value))
  {
    if value in current {
      WithoutKeepsDistinct(current, value);
    }
  }

  /** Toggling an absent value twice restores the list. */
  lemma ToggleTwiceAbsent(current: seq<string>, value: string)
    requires value !in current
    ensures Toggle(Toggle(current, value), value) == current
  {
    var once := current + [value];
    assert Without(once, value) == Without(current, value) by {
      WithoutAppend(current, value, value);
    }
    WithoutAbsent(current, value);
  }

  /** Toggling a present value twice does not restore the list: it moves the value to the end. */
  lemma ToggleTwicePresent(current: seq<string>, value: string)
    requires value in current
    ensures Toggle(Toggle(current, value), value) == Without(current, value) + [value]
  {
  }

  /** Unticking the first of three values leaves the other two in their order. */
  lemma ToggleKeepsOrderExample()
    ensures Toggle(["a", "b", "c"], "a") == ["b", "c"]
  {
    assert ["a", "b", "c"][1..] == ["b", "c"] && ["b", "c"][1..] == ["c"] && ["c"][1..] == [];
  }

  /** Removal distributes over appending one element. */
  lemma {:induction false} WithoutAppend(xs: seq<string>, x: string, value: string)
    ensures Without(xs + [x], value) == Without(xs, value) + Without([x], value)
  {
    if |xs| == 0 {
      assert xs + [x] == [x];
    } else {
      assert (xs + [x])[1..] == xs[1..] + [x];
      WithoutAppend(xs[1..], x, value);
    }
  }

  // ---------------------------------------------------------------------------------------------
  // Comma lists
  // ---------------------------------------------------------------------------------------------

  /** Every piece trimmed: `.map(s => s.trim())`. */
  function TrimAll(parts: seq<string>): (r: seq<string>)
    ensures |r| == |parts|
    ensures forall j :: 0 <= j < |parts| ==> r[j] == Trim(parts[j])
  {
    seq(|parts|, j requires 0 <= j < |parts| => Trim(parts[j]))
  }

  /** `Boolean` as a filter on strings. */
  predicate NonEmpty(t: string) {
    |t| > 0
  }

  /** `text.split(',').map(s => s.trim()).filter(Boolean)`: the trimmed, non-empty pieces between
      the commas, in order, none of them lost. */
  function ParseCommaList(text: string): (r: seq<string>)
    ensures forall i :: 0 <= i < |r| ==> |r[i]| > 0 && ',' !in r[i]
    ensures forall i :: 0 <= i < |r| ==> !IsSpace(r[i][0]) && !IsSpace(r[i][|r[i]| - 1])
    ensures IsSubsequence(r, TrimAll(Split(text, ',')))
    ensures forall j :: 0 <= j < |Split(text, ',')| && |Trim(Split(text, ',')[j])| > 0 ==>
      multiset(r)[Trim(Split(text, ',')[j])] == multiset(TrimAll(Split(text, ',')))[Trim(Split(text, ',')[j])]
  {
    var parts := Split(text, ',');
    var r := Filter(TrimAll(parts), NonEmpty);
    CleanPieces(parts, r);
    r
  }

  /** Non-empty trimmed pieces of comma-free parts have no comma and no blank at either end. */
  lemma CleanPieces(parts: seq<string>, r: seq<string>)
    requires forall j :: 0 <= j < |parts| ==> ',' !in parts[j]
    requires forall i :: 0 <= i < |r| ==> |r[i]| > 0 && r[i] in TrimAll(parts)
    ensures forall i :: 0 <= i < |r| ==> ',' !in r[i] && !IsSpace(r[i][0]) && !IsSpace(r[i][|r[i]| - 1])
  {
    var trimmed := TrimAll(parts);
    forall i | 0 <= i < |r|
      ensures ',' !in r[i] && !IsSpace(r[i][0]) && !IsSpace(r[i][|r[i]| - 1])
    {
      var j :| 0 <= j < |trimmed| && trimmed[j] == r[i];
      TrimKeepsAbsence(parts[j], ',');
    }
  }

  /** A field of only commas and spaces is non-empty, so it passes the form check, but it parses
      to no keywords at all. */
  lemma BlankListPassesCheck()
    ensures |" , "| > 0 && ParseCommaList(" , ") == []
  {
    assert TakeUntil(" , ", ',') == " ";
    assert TakeUntil(" ", ',') == " ";
    assert Split(" , ", ',') == [" ", " "];
    assert Trim(" ") == "";
  }

  // ---------------------------------------------------------------------------------------------
  // Saving a campaign
  // ---------------------------------------------------------------------------------------------

  /** The form's fields. The slider holds one value. */
  datatype Form = Form(
    campaignName: string,
    niches: string,
    keywords: string,
    platforms: seq<string>,
    countries: seq<string>,
    quantity: int)

  /** The form as the page opens: Instagram picked, quantity 50, everything else empty. */
  const InitialForm := Form("", "", "", ["instagram"], [], 50)

  /** The check `handleGenerate` runs first, on the raw fields. */
  predicate Valid(form: Form) {
    |form.campaignName| > 0 && |form.niches| > 0 && |form.keywords| > 0
    && |form.platforms| > 0 && |form.countries| > 0
  }

  /** A row inserted into the `campaigns` table. */
  datatype CampaignRow = CampaignRow(
    campaignName: string,
    targetNiche: string,
    sources: seq<string>,
    regions: seq<string>,
    keywords: seq<string>,
    quantity: int,
    status: string)

  /** The body posted to the search webhook. */
  datatype Payload = Payload(
    campaignId: int,
    campaignName: string,
    niches: seq<string>,
    keywords: seq<string>,
    platforms: seq<string>,
    countries: seq<string>,
    quantity: int)

  /** What pressing "generate" does: nothing but a warning when the check fails; otherwise it
      inserts a row and, when the store returns the new campaign's id, posts a payload. */
  datatype Outcome = Refused | Submitted(row: CampaignRow, payload: Option<Payload>)

  /** `handleGenerate`, with the id the store assigns (`None` when the insert fails). */
  function Generate(form: Form, insertedId: Option<int>): (r: Outcome)
    ensures r.Refused? <==> !Valid(form)
    ensures r.Submitted? ==> r.row.status == "active" && r.row.quantity == form.quantity
    ensures r.Submitted? ==> r.row.campaignName == form.campaignName && r.row.targetNiche == form.niches
    ensures r.Submitted? ==> r.row.sources == form.platforms && r.row.regions == form.countries
    ensures r.Submitted? ==> r.row.keywords == ParseCommaList(form.keywords)
    ensures r.Submitted? ==> (r.payload.Some? <==> insertedId.Some?)
    ensures r.Submitted? && r.payload.Some? ==> r.payload.value.campaignId == insertedId.value
    ensures r.Submitted? && r.payload.Some? ==> r.payload.value.campaignName == r.row.campaignName
    ensures r.Submitted? && r.payload.Some? ==> r.payload.value.keywords == r.row.keywords
    ensures r.Submitted? && r.payload.Some? ==> r.payload.value.platforms == r.row.sources
    ensures r.Submitted? && r.payload.Some? ==> r.payload.value.countries == r.row.regions
    ensures r.Submitted? && r.payload.Some? ==> r.payload.value.quantity == r.row.quantity
    ensures r.Submitted? && r.payload.Some? ==> r.payload.value.niches == ParseCommaList(form.niches)
  {
    if !Valid(form) then Refused
    else
      var keywords := ParseCommaList(form.keywords);
      var row := CampaignRow(form.campaignName, form.niches, form.platforms, form.countries, keywords, form.quantity, "active");
      match insertedId
      case None => Submitted(row, None)
      case Some(id) =>
        Submitted(row, Some(Payload(id, form.campaignName, ParseCommaList(form.niches), keywords,
          form.platforms, form.countries, form.quantity)))
  }

  /** The opening form is refused until a name, niches, keywords and a country are filled in. */
  lemma InitialFormRefused(insertedId: Option<int>)
    ensures Generate(InitialForm, insertedId) == Refused
  {
  }

  /** A form whose keywords are only commas and blanks is saved with no keywords at all. */
  lemma BlankKeywordsSubmitted(form: Form, insertedId: Option<int>)
    requires Valid(form.(keywords := " , "))
    ensures Generate(form.(keywords := " , "), insertedId).Submitted?
    ensures Generate(form.(keywords := " , "), insertedId).row.keywords == []
  {
    BlankListPassesCheck();
  }

  // ---------------------------------------------------------------------------------------------
  // Countries
  // ---------------------------------------------------------------------------------------------

  /** `a <= b` in the order `Array.prototype.sort` uses on ASCII strings. */
  predicate LexLe(a: string, b: string) {
    |a| == 0 || (|b| > 0 && (a[0] < b[0] || (a[0] == b[0] && LexLe(a[1..], b[1..]))))
  }

  predicate Sorted(xs: seq<string>) {
    forall i :: 0 <= i < |xs| - 1 ==> LexLe(xs[i], xs[i + 1])
  }

  /** The countries as written in the source, before `.sort()`. */
  const CountriesAsWritten: seq<string> := [
    "United States", "United Kingdom", "Canada", "Australia",
    "Germany", "France", "United Arab Emirates", "Saudi Arabia",
    "Singapore", "Japan", "India", "Brazil"]

  /** The country picker's list: the same names, sorted. */
  const Countries: seq<string> := [
    "Australia", "Brazil", "Canada", "France", "Germany", "India",
    "Japan", "Saudi Arabia", "Singapore", "United Arab Emirates", "United Kingdom", "United States"]

  /** Where each picker entry sits in the list as written. */
  const SortOrder: seq<int> := [3, 11, 2, 5, 4, 10, 9, 7, 8, 6, 1, 0]

  /** The picker's list is the written list reordered: every position takes a different written
      entry, so each written country appears exactly once. */
  lemma CountriesReordered()
    ensures |Countries| == |CountriesAsWritten| == |SortOrder|
    ensures forall i :: 0 <= i < |SortOrder| ==> 0 <= SortOrder[i] < |CountriesAsWritten|
    ensures forall i, j :: 0 <= i < j < |SortOrder| ==> SortOrder[i] != SortOrder[j]
    ensures forall i :: 0 <= i < |Countries| ==> Countries[i] == CountriesAsWritten[SortOrder[i]]
  {
  }

  /** The picker's list is in ascending order. */
  lemma CountriesSorted()
    ensures Sorted(Countries)
  {
    forall i | 0 <= i < |Countries| - 1
      ensures LexLe(Countries[i], Countries[i + 1])
    {
      if i < 6 {
        FirstCountriesOrdered(i);
      } else {
        LastCountriesOrdered(i);
      }
    }
  }

  lemma FirstCountriesOrdered(i: int)
    requires 0 <= i < 6
    ensures LexLe(Countries[i], Countries[i + 1])
  {
    if i == 0 {
      assert Countries[i] == "Australia" && Countries[i + 1] == "Brazil";
      assert LexLe("Australia", "Brazil");
    } else if i == 1 {
      assert Countries[i] == "Brazil" && Countries[i + 1] == "Canada";
      assert LexLe("Brazil", "Canada");
    } else if i == 2 {
      assert Countries[i] == "Canada" && Countries[i + 1] == "France";
      assert LexLe("Canada", "France");
    } else if i == 3 {
      assert Countries[i] == "France" && Countries[i + 1] == "Germany";
      assert LexLe("France", "Germany");
    } else if i == 4 {
      assert Countries[i] == "Germany" && Countries[i + 1] == "India";
      assert LexLe("Germany", "India");
    } else {
      assert Countries[i] == "India" && Countries[i + 1] == "Japan";
      assert LexLe("India", "Japan");
    }
  }

  lemma LastCountriesOrdered(i: int)
    requires 6 <= i < |Countries| - 1
    ensures LexLe(Countries[i], Countries[i + 1])
  {
    if i == 6 {
      assert Countries[i] == "Japan" && Countries[i + 1] == "Saudi Arabia";
      assert LexLe("Japan", "Saudi Arabia");
    } else if i == 7 {
      assert Countries[i] == "Saudi Arabia" && Countries[i + 1] == "Singapore";
      LexLeSecondChar("Saudi Arabia", "Singapore");
    } else if i == 8 {
      assert Countries[i] == "Singapore" && Countries[i + 1] == "United Arab Emirates";
      assert LexLe("Singapore", "United Arab Emirates");
    } else if i == 9 {
      assert Countries[i] == "United Arab Emirates" && Countries[i + 1] == "United Kingdom";
      LexLeFirstDifference("United Arab Emirates", "United Kingdom", 7);
    } else {
      assert Countries[i] == "United Kingdom" && Countries[i + 1] == "United States";
      LexLeFirstDifference("United Kingdom", "United States", 7);
    }
  }

  /** Two words with the same first letter are ordered by their second. */
  lemma LexLeSecondChar(a: string, b: string)
    requires |a| > 1 && |b| > 1 && a[0] == b[0] && a[1] < b[1]
    ensures LexLe(a, b)
  {
    assert a[1..][0] == a[1] && b[1..][0] == b[1];
  }

  /** Two words that agree up to position `k` and differ there are ordered by that letter. */
  lemma {:induction false} LexLeFirstDifference(a: string, b: string, k: nat)
    requires k < |a| && k < |b| && a[..k] == b[..k] && a[k] < b[k]
    ensures LexLe(a, b)
  {
    if k > 0 {
      assert a[0] == a[..k][0] == b[..k][0] == b[0];
      assert a[1..][..k - 1] == a[1..k] == a[..k][1..];
      assert b[1..][..k - 1] == b[1..k] == b[..k][1..];
      LexLeFirstDifference(a[1..], b[1..], k - 1);
    }
  }
}
