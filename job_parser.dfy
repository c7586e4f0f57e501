/** The job-posting normaliser (`JobParser` in backend/utils/jobParser.js):
    the ordered-selector fallback that pulls a field out of a fetched page,
    the two classifiers that infer the job type and the experience band from
    free text, the 30-day deadline, the cleaning pass that strips markup and
    fills canonical defaults, and the two pipelines built from them (one
    fetched page, a batch of loosely-typed records). */
module JobParser {
  import opened Wrappers
  import opened JsText
  import opened ExperienceRules

  // ===========================================================================
  // Field extraction: ordered selector fallback
  // ===========================================================================

  /** A parsed page, as the selector engine sees it: for each selector, the
      texts of the elements it matches, in document order. A selector that is
      not a key matches nothing. */
  type Document = map<string, seq<string>>

  const TitleSelectors: seq<string> :=
    ["h1[class*=\"job-title\"]", "h1[class*=\"title\"]", ".job-title", ".title", "h1"]
  const CompanySelectors: seq<string> :=
    ["[class*=\"company-name\"]", "[class*=\"employer\"]", ".company", ".employer"]
  const LocationSelectors: seq<string> :=
    ["[class*=\"location\"]", "[class*=\"address\"]", ".location", ".address"]
  const DescriptionSelectors: seq<string> :=
    ["[class*=\"description\"]", "[class*=\"details\"]", ".description", ".details"]
  const RequirementsSelectors: seq<string> :=
    ["[class*=\"requirements\"]", "[class*=\"qualifications\"]", ".requirements", ".qualifications"]
  const SalarySelectors: seq<string> :=
    ["[class*=\"salary\"]", "[class*=\"compensation\"]", ".salary", ".compensation"]

  /** `$(selector).first().length` is non-zero: the selector matches at least
      one element (whatever its text). */
  predicate SelectorMatches(doc: Document, selector: string) {
    selector in doc && |doc[selector]| > 0
  }

  /** `selectors[i]` is the earliest selector that matches anything. */
  predicate FirstMatchingSelector(doc: Document, selectors: seq<string>, i: int) {
    && 0 <= i < |selectors|
    && SelectorMatches(doc, selectors[i])
    && forall j :: 0 <= j < i ==> !SelectorMatches(doc, selectors[j])
  }

  /** What `findContent` returns: the trimmed text of the first element of
      the first selector that matches, or "" when none does. */
  function FirstMatchText(doc: Document, selectors: seq<string>): string {
    if selectors == [] then ""
    else if SelectorMatches(doc, selectors[0]) then Trim(doc[selectors[0]][0])
    else FirstMatchText(doc, selectors[1..])
  }

  /** `findContent($, selectors)`: try the selectors in order and return at
      the first one that matches. */
  method FindContent(doc: Document, selectors: seq<string>) returns (text: string)
    ensures forall i :: FirstMatchingSelector(doc, selectors, i) ==> text == Trim(doc[selectors[i]][0])
    ensures (forall i :: 0 <= i < |selectors| ==> !SelectorMatches(doc, selectors[i])) ==> text == ""
    ensures text == FirstMatchText(doc, selectors)
  {
    for i := 0 to |selectors|
      invariant forall j :: 0 <= j < i ==> !SelectorMatches(doc, selectors[j])
      invariant FirstMatchText(doc, selectors) == FirstMatchText(doc, selectors[i..])
    {
      var selector := selectors[i];
      if selector in doc && |doc[selector]| > 0 {
        assert FirstMatchingSelector(doc, selectors, i);
        return Trim(doc[selector][0]);
      }
      assert selectors[i..][1..] == selectors[i + 1..];
    }
    return "";
  }

  /** Once some selector matches, the selectors after the first matching one
      are never consulted: dropping them or appending more changes nothing. */
  lemma {:induction false} LaterSelectorsIgnored(doc: Document, selectors: seq<string>, i: int, more: seq<string>)
    requires FirstMatchingSelector(doc, selectors, i)
    ensures FirstMatchText(doc, selectors + more) == FirstMatchText(doc, selectors[..i + 1])
    ensures FirstMatchText(doc, selectors) == Trim(doc[selectors[i]][0])
  {
    if i > 0 {
      assert FirstMatchingSelector(doc, selectors[1..], i - 1);
      LaterSelectorsIgnored(doc, selectors[1..], i - 1, more);
      assert (selectors + more)[1..] == selectors[1..] + more;
      assert selectors[..i + 1][1..] == selectors[1..][..i];
    }
  }

  /** The test is "matches an element", not "has text": a first matching
      selector whose first element is blank yields "" even when a later
      selector would have matched with text. */
  lemma BlankFirstMatchStops(doc: Document, selectors: seq<string>, i: int)
    requires FirstMatchingSelector(doc, selectors, i)
    requires AllWhitespace(doc[selectors[i]][0])
    ensures FirstMatchText(doc, selectors) == ""
  {
    LaterSelectorsIgnored(doc, selectors, i, []);
    TrimEmptyIff(doc[selectors[i]][0]);
  }

  // ===========================================================================
  // Job type
  // ===========================================================================

  const FullTime := "Full-time"
  const JobTypes: seq<string> := [FullTime, "Part-time", "Contract", "Internship"]

  /** The first label whose lower-case form occurs in `lowerText`, or Full-time. */
  function FirstLabelIn(lowerText: string, labels: seq<string>): (found: string)
    ensures found in labels || found == FullTime
  {
    if labels == [] then FullTime
    else if Contains(lowerText, ToLower(labels[0])) then labels[0]
    else FirstLabelIn(lowerText, labels[1..])
  }

  /** What `detectJobType` returns for a description. */
  function JobType(description: string): string {
    FirstLabelIn(ToLower(description), JobTypes)
  }

  /** `JobTypes[k]` is the first label, in table order, found in `lowerText`. */
  predicate FirstLabelFound(lowerText: string, k: int) {
    && 0 <= k < |JobTypes|
    && Contains(lowerText, ToLower(JobTypes[k]))
    && forall j :: 0 <= j < k ==> !Contains(lowerText, ToLower(JobTypes[j]))
  }

  /** The loop of `detectJobType` over a label table: the first label whose
      lower-case form occurs in `lowerText`, Full-time when none does. */
  method FindLabel(lowerText: string, labels: seq<string>) returns (found: string)
    ensures found == FirstLabelIn(lowerText, labels)
  {
    for i := 0 to |labels|
      invariant FirstLabelIn(lowerText, labels) == FirstLabelIn(lowerText, labels[i..])
    {
      var rest := labels[i..];
      assert rest[0] == labels[i] && rest[1..] == labels[i + 1..];
      if Contains(lowerText, ToLower(labels[i])) {
        return labels[i];
      }
    }
    assert labels[|labels|..] == [];
    return FullTime;
  }

  /** `detectJobType(description)`: a case-insensitive substring search over
      the four labels in their fixed order, Full-time when none occurs. */
  method DetectJobType(description: string) returns (jobType: string)
    ensures jobType == JobType(description)
  {
    var lowerDesc := ToLower(description);
    jobType := FindLabel(lowerDesc, JobTypes);
  }

  /** The search over a label list returns the first label found, and the
      fallback when none is. */
  lemma {:induction false} FirstLabelInIsFirst(lowerText: string, labels: seq<string>, k: int)
    requires 0 <= k < |labels| && Contains(lowerText, ToLower(labels[k]))
    requires forall j :: 0 <= j < k ==> !Contains(lowerText, ToLower(labels[j]))
    ensures FirstLabelIn(lowerText, labels) == labels[k]
  {
    if k > 0 {
      assert !Contains(lowerText, ToLower(labels[0]));
      assert forall j :: 0 <= j < k - 1 ==> labels[1..][j] == labels[j + 1];
      FirstLabelInIsFirst(lowerText, labels[1..], k - 1);
    }
  }

  lemma {:induction false} FirstLabelInNone(lowerText: string, labels: seq<string>)
    requires forall j :: 0 <= j < |labels| ==> !Contains(lowerText, ToLower(labels[j]))
    ensures FirstLabelIn(lowerText, labels) == FullTime
  {
    if labels != [] {
      assert !Contains(lowerText, ToLower(labels[0]));
      assert forall j :: 0 <= j < |labels| - 1 ==> labels[1..][j] == labels[j + 1];
      FirstLabelInNone(lowerText, labels[1..]);
    }
  }

  /** The job type is always one of the four canonical labels: the first, in
      table order, whose lower-case form occurs in the lower-cased
      description, and Full-time when none occurs. */
  lemma JobTypeIsFirstLabel(description: string)
    ensures JobType(description) in JobTypes
    ensures forall k :: FirstLabelFound(ToLower(description), k) ==> JobType(description) == JobTypes[k]
    ensures (forall k :: 0 <= k < |JobTypes| ==> !Contains(ToLower(description), ToLower(JobTypes[k])))
              ==> JobType(description) == FullTime
  {
    forall k | FirstLabelFound(ToLower(description), k)
      ensures JobType(description) == JobTypes[k]
    {
      FirstLabelInIsFirst(ToLower(description), JobTypes, k);
    }
    if forall k :: 0 <= k < |JobTypes| ==> !Contains(ToLower(description), ToLower(JobTypes[k])) {
      FirstLabelInNone(ToLower(description), JobTypes);
    }
  }

  // ===========================================================================
  // Experience band
  // ===========================================================================

  const NotSpecified := "Not specified"
  const ExperiencePatterns: seq<Pattern> := [DigitsYears, RangeYears, EntryLevel, Senior, Lead]

  /** The rewritten match of the first pattern, in table order, that matches. */
  function FirstRuleValue(patterns: seq<Pattern>, text: string): string {
    if patterns == [] then NotSpecified
    else match Apply(patterns[0], text)
      case Some(v) => v
      case None => FirstRuleValue(patterns[1..], text)
  }

  /** What `detectExperience` returns for a requirements text. */
  function ExperienceLevel(requirements: string): string {
    FirstRuleValue(ExperiencePatterns, requirements)
  }

  /** `ExperiencePatterns[k]` is the first rule, in table order, that matches. */
  predicate FirstRuleMatches(text: string, k: int) {
    && 0 <= k < |ExperiencePatterns|
    && Apply(ExperiencePatterns[k], text).Some?
    && forall j :: 0 <= j < k ==> Apply(ExperiencePatterns[j], text).None?
  }

  /** `detectExperience(requirements)`: the rules in table order, first match
      wins, "Not specified" when none matches. */
  method DetectExperience(requirements: string) returns (experience: string)
    ensures experience == ExperienceLevel(requirements)
  {
    for i := 0 to |ExperiencePatterns|
      invariant ExperienceLevel(requirements) == FirstRuleValue(ExperiencePatterns[i..], requirements)
    {
      var rest := ExperiencePatterns[i..];
      assert rest[0] == ExperiencePatterns[i] && rest[1..] == ExperiencePatterns[i + 1..];
      var matched := Apply(ExperiencePatterns[i], requirements);
      if matched.Some? {
        return matched.value;
      }
    }
    assert ExperiencePatterns[|ExperiencePatterns|..] == [];
    return NotSpecified;
  }

  /** A rule table yields the rewrite of its first matching rule. */
  lemma {:induction false} FirstRuleValueIsFirst(patterns: seq<Pattern>, text: string, k: int)
    requires 0 <= k < |patterns| && Apply(patterns[k], text).Some?
    requires forall j :: 0 <= j < k ==> Apply(patterns[j], text).None?
    ensures FirstRuleValue(patterns, text) == Apply(patterns[k], text).value
  {
    if k > 0 {
      assert Apply(patterns[0], text).None?;
      assert forall j :: 0 <= j < k - 1 ==> patterns[1..][j] == patterns[j + 1];
      FirstRuleValueIsFirst(patterns[1..], text, k - 1);
    }
  }

  /** A rule table none of whose rules match yields "Not specified". */
  lemma {:induction false} FirstRuleValueNone(patterns: seq<Pattern>, text: string)
    requires forall j :: 0 <= j < |patterns| ==> Apply(patterns[j], text).None?
    ensures FirstRuleValue(patterns, text) == NotSpecified
  {
    if patterns != [] {
      assert Apply(patterns[0], text).None?;
      assert forall j :: 0 <= j < |patterns| - 1 ==> patterns[1..][j] == patterns[j + 1];
      FirstRuleValueNone(patterns[1..], text);
    }
  }

  /** The experience band is the rewrite of the first rule, in table order,
      that matches, and "Not specified" when none does. */
  lemma ExperienceIsFirstRule(requirements: string)
    ensures forall k :: FirstRuleMatches(requirements, k) ==>
      Some(ExperienceLevel(requirements)) == Apply(ExperiencePatterns[k], requirements)
    ensures (forall k :: 0 <= k < |ExperiencePatterns| ==> Apply(ExperiencePatterns[k], requirements).None?)
              ==> ExperienceLevel(requirements) == NotSpecified
  {
    forall k | FirstRuleMatches(requirements, k)
      ensures Some(ExperienceLevel(requirements)) == Apply(ExperiencePatterns[k], requirements)
    {
      FirstRuleValueIsFirst(ExperiencePatterns, requirements, k);
    }
    if forall k :: 0 <= k < |ExperiencePatterns| ==> Apply(ExperiencePatterns[k], requirements).None? {
      FirstRuleValueNone(ExperiencePatterns, requirements);
    }
  }

  /** The outcome of the rule table, rule by rule. The range rule does not
      appear: whatever it matches, the digits rule has matched first (so
      "2 - 4 years" gives "4+ years"). */
  lemma ExperienceClassification(requirements: string)
    ensures ExperienceLevel(requirements) ==
      if Apply(DigitsYears, requirements).Some? then Apply(DigitsYears, requirements).value
      else if Apply(EntryLevel, requirements).Some? then "Entry Level"
      else if Apply(Senior, requirements).Some? then "5+ years"
      else if Apply(Lead, requirements).Some? then "3+ years"
      else NotSpecified
  {
    var s := requirements;
    RangeRuleShadowed(s);
    ConstantRuleValues(s);
    var t1 := [RangeYears, EntryLevel, Senior, Lead];
    var t2 := [EntryLevel, Senior, Lead];
    var t3 := [Senior, Lead];
    var t4 := [Lead];
    assert ExperiencePatterns[0] == DigitsYears && ExperiencePatterns[1..] == t1;
    assert t1[1..] == t2 && t2[1..] == t3 && t3[1..] == t4 && t4[1..] == [];
    if Apply(DigitsYears, s).None? {
      assert ExperienceLevel(s) == FirstRuleValue(t1, s);
      assert FirstRuleValue(t1, s) == FirstRuleValue(t2, s);
      if Apply(EntryLevel, s).None? {
        assert FirstRuleValue(t2, s) == FirstRuleValue(t3, s);
        if Apply(Senior, s).None? {
          assert FirstRuleValue(t3, s) == FirstRuleValue(t4, s);
          if Apply(Lead, s).None? {
            assert FirstRuleValue(t4, s) == FirstRuleValue([], s);
          }
        }
      }
    }
  }

  // ===========================================================================
  // Deadline
  // ===========================================================================

  const DeadlineDays := 30

  /** A JavaScript `Date`, reduced to a day number. */
  class Date {
    var day: int

    constructor (day: int)
      ensures this.day == day
    {
      this.day := day;
    }

    /** `setDate`: move this date to another day. */
    method SetDate(day: int)
      modifies this
      ensures this.day == day
    {
      this.day := day;
    }
  }

  /** The day a posting made on `postedDay` closes. */
  function DeadlineFor(postedDay: int): int {
    postedDay + DeadlineDays
  }

  /** `calculateDeadline(postedDate)`: a new date 30 days after the posted
      date; the posted date itself is not modified. */
  method CalculateDeadline(postedDate: Date) returns (deadline: Date)
    ensures fresh(deadline)
    ensures deadline.day == DeadlineFor(postedDate.day)
    ensures postedDate.day == old(postedDate.day)
  {
    deadline := new Date(postedDate.day);
    deadline.SetDate(deadline.day + DeadlineDays);
  }

  // ===========================================================================
  // Job records, cleaning and defaults
  // ===========================================================================

  /** A property of a job object: a string or a date. */
  datatype Value = Text(text: string) | Day(day: int)

  /** The properties of a job object that the parser sets. */
  datatype Property =
    | Title | Company | Location | Description | Requirements | Salary
    | Type | Experience | PostedDate | Deadline

  /** A job object as a dictionary from property to value; a property that
      is not a key is `undefined`. */
  type Fields = map<Property, Value>

  const UntitledPosition := "Untitled Position"
  const CompanyNotSpecified := "Company Not Specified"
  const LocationNotSpecified := "Location Not Specified"
  const NoDescription := "No description provided"
  const NoRequirements := "No specific requirements listed"
  const SalaryNotSpecified := "Salary not specified"

  /** The canonical default of each defaulted property. */
  function DefaultFor(key: Property): Option<string> {
    match key
    case Title => Some(UntitledPosition)
    case Company => Some(CompanyNotSpecified)
    case Location => Some(LocationNotSpecified)
    case Description => Some(NoDescription)
    case Requirements => Some(NoRequirements)
    case Salary => Some(SalaryNotSpecified)
    case _ => None
  }

  /** The markup-to-text pass applied to one property: strings are converted
      and trimmed, dates are left alone. */
  function CleanValue(v: Value, convert: string -> string): Value {
    match v
    case Text(s) => Text(Trim(convert(s)))
    case Day(_) => v
  }

  /** The first half of `cleanJobData`: every string property converted and trimmed. */
  function ConvertAll(fields: Fields, convert: string -> string): Fields {
    map k | k in fields :: CleanValue(fields[k], convert)
  }

  /** `!jobData[key]`: the property is missing or the empty string. */
  predicate Falsy(fields: Fields, key: Property) {
    key !in fields || fields[key] == Text("")
  }

  /** `if (!jobData[key]) jobData[key] = fallback`. */
  function WithDefault(fields: Fields, key: Property, fallback: string): Fields {
    if Falsy(fields, key) then fields[key := Text(fallback)] else fields
  }

  /** The six defaulted properties of `cleanJobData` with their defaults, in
      source order. */
  const Defaults: seq<(Property, string)> := [
    (Title, UntitledPosition), (Company, CompanyNotSpecified), (Location, LocationNotSpecified),
    (Description, NoDescription), (Requirements, NoRequirements), (Salary, SalaryNotSpecified)
  ]

  /** The defaults of `defaults` applied one after the other. */
  function FillFrom(fields: Fields, defaults: seq<(Property, string)>): Fields
    decreases |defaults|
  {
    if defaults == [] then fields
    else FillFrom(WithDefault(fields, defaults[0].0, defaults[0].1), defaults[1..])
  }

  /** The second half of `cleanJobData`: the six defaults, in source order. */
  function FillDefaults(fields: Fields): Fields {
    FillFrom(fields, Defaults)
  }

  /** What `cleanJobData` leaves in a job object. */
  function Cleaned(fields: Fields, convert: string -> string): Fields {
    FillDefaults(ConvertAll(fields, convert))
  }

  /** The property is present and a non-empty string. */
  predicate HasText(fields: Fields, key: Property) {
    key in fields && fields[key].Text? && fields[key].text != ""
  }

  /** The record invariant of a normalised job: the six text properties are
      present and non-empty. */
  predicate Canonical(fields: Fields) {
    && HasText(fields, Title) && HasText(fields, Company) && HasText(fields, Location)
    && HasText(fields, Description) && HasText(fields, Requirements) && HasText(fields, Salary)
  }

  /** One default: only `key` can change, and only when it is falsy. */
  lemma WithDefaultAt(fields: Fields, key: Property, fallback: string, other: Property)
    ensures other == key ==>
      (other in WithDefault(fields, key, fallback) &&
       WithDefault(fields, key, fallback)[other] == if Falsy(fields, key) then Text(fallback) else fields[other])
    ensures other != key ==>
      (other in WithDefault(fields, key, fallback) <==> other in fields) &&
      (other in fields ==> WithDefault(fields, key, fallback)[other] == fields[other])
  {
  }

  /** A property no entry of the table names is left as it was. */
  lemma {:induction false} FillFromOther(fields: Fields, defaults: seq<(Property, string)>, key: Property)
    requires forall j :: 0 <= j < |defaults| ==> defaults[j].0 != key
    ensures key in FillFrom(fields, defaults) <==> key in fields
    ensures key in fields ==> FillFrom(fields, defaults)[key] == fields[key]
    decreases |defaults|
  {
    if defaults != [] {
      WithDefaultAt(fields, defaults[0].0, defaults[0].1, key);
      FillFromOther(WithDefault(fields, defaults[0].0, defaults[0].1), defaults[1..], key);
    }
  }

  /** A property exactly one entry of the table names gets that entry's
      default when it was falsy, and keeps its value otherwise. */
  lemma {:induction false} FillFromAt(fields: Fields, defaults: seq<(Property, string)>, j: int)
    requires 0 <= j < |defaults|
    requires forall h :: 0 <= h < |defaults| && h != j ==> defaults[h].0 != defaults[j].0
    ensures defaults[j].0 in FillFrom(fields, defaults)
    ensures FillFrom(fields, defaults)[defaults[j].0] ==
      if Falsy(fields, defaults[j].0) then Text(defaults[j].1) else fields[defaults[j].0]
    decreases |defaults|
  {
    var key := defaults[j].0;
    var next := WithDefault(fields, defaults[0].0, defaults[0].1);
    WithDefaultAt(fields, defaults[0].0, defaults[0].1, key);
    if j == 0 {
      FillFromOther(next, defaults[1..], key);
    } else {
      assert defaults[1..][j - 1] == defaults[j];
      FillFromAt(next, defaults[1..], j - 1);
    }
  }

  /** Filling defaults changes a property only when it is falsy and has a
      default, and then sets it to that default; every other property keeps
      its value, and no property other than the six is added. */
  lemma FillDefaultsField(fields: Fields, key: Property)
    ensures DefaultFor(key).Some? ==>
      key in FillDefaults(fields) &&
      FillDefaults(fields)[key] == if Falsy(fields, key) then Text(DefaultFor(key).value) else fields[key]
    ensures DefaultFor(key).None? ==>
      (key in FillDefaults(fields) <==> key in fields) &&
      (key in fields ==> FillDefaults(fields)[key] == fields[key])
  {
    match key
    case Title => FillFromAt(fields, Defaults, 0);
    case Company => FillFromAt(fields, Defaults, 1);
    case Location => FillFromAt(fields, Defaults, 2);
    case Description => FillFromAt(fields, Defaults, 3);
    case Requirements => FillFromAt(fields, Defaults, 4);
    case Salary => FillFromAt(fields, Defaults, 5);
    case _ => FillFromOther(fields, Defaults, key);
  }

  /** The table applied in order is the six `if` statements of `cleanJobData`. */
  lemma FillDefaultsInOrder(fields: Fields)
    ensures FillDefaults(fields) ==
      var f1 := WithDefault(fields, Title, UntitledPosition);
      var f2 := WithDefault(f1, Company, CompanyNotSpecified);
      var f3 := WithDefault(f2, Location, LocationNotSpecified);
      var f4 := WithDefault(f3, Description, NoDescription);
      var f5 := WithDefault(f4, Requirements, NoRequirements);
      WithDefault(f5, Salary, SalaryNotSpecified)
  {
    var d := Defaults;
    var f1 := WithDefault(fields, Title, UntitledPosition);
    var f2 := WithDefault(f1, Company, CompanyNotSpecified);
    var f3 := WithDefault(f2, Location, LocationNotSpecified);
    var f4 := WithDefault(f3, Description, NoDescription);
    var f5 := WithDefault(f4, Requirements, NoRequirements);
    var f6 := WithDefault(f5, Salary, SalaryNotSpecified);
    assert FillFrom(fields, d) == FillFrom(f1, d[1..]);
    assert d[1..][0] == d[1] && d[1..][1..] == d[2..];
    assert FillFrom(f1, d[1..]) == FillFrom(f2, d[2..]);
    assert d[2..][0] == d[2] && d[2..][1..] == d[3..];
    assert FillFrom(f2, d[2..]) == FillFrom(f3, d[3..]);
    assert d[3..][0] == d[3] && d[3..][1..] == d[4..];
    assert FillFrom(f3, d[3..]) == FillFrom(f4, d[4..]);
    assert d[4..][0] == d[4] && d[4..][1..] == d[5..];
    assert FillFrom(f4, d[4..]) == FillFrom(f5, d[5..]);
    assert d[5..][0] == d[5] && d[5..][1..] == [];
    assert FillFrom(f5, d[5..]) == FillFrom(f6, []);
  }

  /** The property is a string or is missing. */
  predicate TextOrMissing(fields: Fields, key: Property) {
    key in fields ==> fields[key].Text?
  }

  /** The defaulted properties hold strings (or are missing), as in every
      job object the parser builds. */
  predicate TextUnderDefaults(fields: Fields) {
    && TextOrMissing(fields, Title) && TextOrMissing(fields, Company) && TextOrMissing(fields, Location)
    && TextOrMissing(fields, Description) && TextOrMissing(fields, Requirements) && TextOrMissing(fields, Salary)
  }

  /** After filling, the six text properties are present and non-empty. */
  lemma FillDefaultsCanonical(fields: Fields)
    requires TextUnderDefaults(fields)
    ensures Canonical(FillDefaults(fields))
  {
    FillDefaultsField(fields, Title);
    FillDefaultsField(fields, Company);
    FillDefaultsField(fields, Location);
    FillDefaultsField(fields, Description);
    FillDefaultsField(fields, Requirements);
    FillDefaultsField(fields, Salary);
  }

  /** Filling defaults twice is filling them once. */
  lemma FillDefaultsIdempotent(fields: Fields)
    ensures FillDefaults(FillDefaults(fields)) == FillDefaults(fields)
  {
    var once := FillDefaults(fields);
    forall key
      ensures (key in FillDefaults(once) <==> key in once)
      ensures key in once ==> FillDefaults(once)[key] == once[key]
    {
      FillDefaultsField(fields, key);
      FillDefaultsField(once, key);
    }
  }

  /** What cleaning does to one property: a string is converted and trimmed,
      and if that leaves nothing (or the property is missing) a defaulted
      property takes its default; dates are untouched. */
  lemma CleanedField(fields: Fields, convert: string -> string, key: Property)
    ensures DefaultFor(key).Some? ==>
      key in Cleaned(fields, convert) &&
      Cleaned(fields, convert)[key] ==
        if key !in fields || CleanValue(fields[key], convert) == Text("") then Text(DefaultFor(key).value)
        else CleanValue(fields[key], convert)
    ensures DefaultFor(key).None? ==>
      (key in Cleaned(fields, convert) <==> key in fields) &&
      (key in fields ==> Cleaned(fields, convert)[key] == CleanValue(fields[key], convert))
    ensures key in fields && fields[key].Day? ==> Cleaned(fields, convert)[key] == fields[key]
  {
    FillDefaultsField(ConvertAll(fields, convert), key);
  }

  /** A string property without a default comes out of cleaning converted
      and trimmed, whatever that leaves. */
  lemma CleanedPlainText(fields: Fields, convert: string -> string, key: Property, text: string)
    requires DefaultFor(key).None? && key in fields && fields[key] == Text(text)
    ensures key in Cleaned(fields, convert) && Cleaned(fields, convert)[key] == Text(Trim(convert(text)))
  {
    CleanedField(fields, convert, key);
  }

  /** A cleaned job object satisfies the record invariant. */
  lemma CleanedCanonical(fields: Fields, convert: string -> string)
    requires TextUnderDefaults(fields)
    ensures Canonical(Cleaned(fields, convert))
  {
    FillDefaultsCanonical(ConvertAll(fields, convert));
  }

  /** A job object that `cleanJobData` updates in place. */
  class JobData {
    var fields: Fields

    constructor (fields: Fields)
      ensures this.fields == fields
    {
      this.fields := fields;
    }
  }

  /** The `forEach` of `cleanJobData`: every string property converted and
      trimmed in place, in whatever order the keys come (each key is handled
      on its own). */
  method ConvertStrings(jobData: JobData, convert: string -> string)
    modifies jobData
    ensures jobData.fields == ConvertAll(old(jobData.fields), convert)
  {
    ghost var original := jobData.fields;
    var pending := jobData.fields.Keys;
    while pending != {}
      invariant pending <= original.Keys
      invariant jobData.fields.Keys == original.Keys
      invariant forall k :: k in original ==>
        jobData.fields[k] == if k in pending then original[k] else CleanValue(original[k], convert)
      decreases pending
    {
      var key :| key in pending;
      match jobData.fields[key] {
        case Text(s) => jobData.fields := jobData.fields[key := Text(Trim(convert(s)))];
        case Day(_) =>
      }
      pending := pending - {key};
    }
  }

  /** `if (!jobData[key]) jobData[key] = fallback`, in place. */
  method DefaultIfFalsy(jobData: JobData, key: Property, fallback: string)
    modifies jobData
    ensures jobData.fields == WithDefault(old(jobData.fields), key, fallback)
  {
    if Falsy(jobData.fields, key) {
      jobData.fields := jobData.fields[key := Text(fallback)];
    }
  }

  /** `cleanJobData(jobData)`: convert and trim every string property, then
      give each of the six text properties its default when it is falsy. */
  method CleanJobData(jobData: JobData, convert: string -> string)
    modifies jobData
    ensures jobData.fields == Cleaned(old(jobData.fields), convert)
  {
    ConvertStrings(jobData, convert);
    FillDefaultsInOrder(jobData.fields);
    DefaultIfFalsy(jobData, Title, UntitledPosition);
    DefaultIfFalsy(jobData, Company, CompanyNotSpecified);
    DefaultIfFalsy(jobData, Location, LocationNotSpecified);
    DefaultIfFalsy(jobData, Description, NoDescription);
    DefaultIfFalsy(jobData, Requirements, NoRequirements);
    DefaultIfFalsy(jobData, Salary, SalaryNotSpecified);
  }

  // ===========================================================================
  // One page: parseJobFromURL after the fetch
  // ===========================================================================

  /** What the HTTP fetch and markup load produce for a URL. */
  datatype FetchOutcome = Fetched(document: Document) | FetchFailed(message: string)

  /** The ten-property job object both parsing paths build before cleaning. */
  function JobFields(title: string, company: string, location: string, description: string,
                     requirements: string, salary: string, jobType: string, experience: string,
                     postedDate: int, deadline: int): Fields {
    map[
      Title := Text(title), Company := Text(company), Location := Text(location),
      Description := Text(description), Requirements := Text(requirements),
      Salary := Text(salary), Type := Text(jobType), Experience := Text(experience),
      PostedDate := Day(postedDate), Deadline := Day(deadline)
    ]
  }

  /** A freshly built job object satisfies the record invariant once cleaned. */
  lemma CleanedJobFieldsCanonical(title: string, company: string, location: string, description: string,
                                  requirements: string, salary: string, jobType: string, experience: string,
                                  postedDate: int, deadline: int, convert: string -> string)
    ensures Canonical(Cleaned(JobFields(title, company, location, description, requirements, salary,
                                        jobType, experience, postedDate, deadline), convert))
  {
    CleanedCanonical(JobFields(title, company, location, description, requirements, salary,
                               jobType, experience, postedDate, deadline), convert);
  }

  /** Cleaning a freshly built job object converts and trims its type and
      experience like any other text. */
  lemma CleanedJobFieldsClassification(title: string, company: string, location: string, description: string,
                                       requirements: string, salary: string, jobType: string, experience: string,
                                       postedDate: int, deadline: int, convert: string -> string)
    ensures var r := Cleaned(JobFields(title, company, location, description, requirements, salary,
                                       jobType, experience, postedDate, deadline), convert);
      && Type in r && r[Type] == Text(Trim(convert(jobType)))
      && Experience in r && r[Experience] == Text(Trim(convert(experience)))
  {
    var fields := JobFields(title, company, location, description, requirements, salary,
                            jobType, experience, postedDate, deadline);
    assert Type in fields && fields[Type] == Text(jobType);
    assert Experience in fields && fields[Experience] == Text(experience);
    CleanedPlainText(fields, convert, Type, jobType);
    CleanedPlainText(fields, convert, Experience, experience);
  }

  /** Cleaning a freshly built job object keeps its two dates. */
  lemma CleanedJobFieldsDates(title: string, company: string, location: string, description: string,
                              requirements: string, salary: string, jobType: string, experience: string,
                              postedDate: int, deadline: int, convert: string -> string)
    ensures var r := Cleaned(JobFields(title, company, location, description, requirements, salary,
                                       jobType, experience, postedDate, deadline), convert);
      && PostedDate in r && r[PostedDate] == Day(postedDate)
      && Deadline in r && r[Deadline] == Day(deadline)
  {
    var fields := JobFields(title, company, location, description, requirements, salary,
                            jobType, experience, postedDate, deadline);
    CleanedField(fields, convert, PostedDate);
    CleanedField(fields, convert, Deadline);
  }

  /** The job object assembled from a page before cleaning. */
  function ExtractedFields(doc: Document, now: int): Fields {
    JobFields(
      FirstMatchText(doc, TitleSelectors), FirstMatchText(doc, CompanySelectors),
      FirstMatchText(doc, LocationSelectors), FirstMatchText(doc, DescriptionSelectors),
      FirstMatchText(doc, RequirementsSelectors), FirstMatchText(doc, SalarySelectors),
      JobType(FirstMatchText(doc, DescriptionSelectors)),
      ExperienceLevel(FirstMatchText(doc, RequirementsSelectors)),
      now, DeadlineFor(now))
  }

  /** The normalised record for a fetched page. */
  function ParsedJob(doc: Document, now: int, convert: string -> string): Fields {
    Cleaned(ExtractedFields(doc, now), convert)
  }

  /** `parseJobFromURL(url)`, with the fetch given as `fetch` and the clock
      reading as `now`: a failed fetch becomes an error carrying its message;
      otherwise the page is extracted, classified and cleaned. */
  method ParseJobFromURL(url: string, fetch: string -> FetchOutcome, now: int, convert: string -> string)
    returns (result: Result<JobData, string>)
    ensures fetch(url).FetchFailed? ==>
      result == Failure("Failed to parse job from URL: " + fetch(url).message)
    ensures fetch(url).Fetched? ==>
      result.Success? && fresh(result.value) &&
      result.value.fields == ParsedJob(fetch(url).document, now, convert)
  {
    var response := fetch(url);
    if response.FetchFailed? {
      return Failure("Failed to parse job from URL: " + response.message);
    }
    var doc := response.document;
    var title := FindContent(doc, TitleSelectors);
    var company := FindContent(doc, CompanySelectors);
    var location := FindContent(doc, LocationSelectors);
    var description := FindContent(doc, DescriptionSelectors);
    var requirements := FindContent(doc, RequirementsSelectors);
    var salary := FindContent(doc, SalarySelectors);
    var descriptionAgain := FindContent(doc, DescriptionSelectors);
    var jobType := DetectJobType(descriptionAgain);
    var requirementsAgain := FindContent(doc, RequirementsSelectors);
    var experience := DetectExperience(requirementsAgain);
    var postedDate := new Date(now);
    var today := new Date(now);
    var deadline := CalculateDeadline(today);
    var jobData := new JobData(JobFields(title, company, location, description, requirements,
                                         salary, jobType, experience, postedDate.day, deadline.day));
    assert jobData.fields == ExtractedFields(doc, now);
    CleanJobData(jobData, convert);
    return Success(jobData);
  }

  /** A parsed page always satisfies the record invariant; its type and
      experience are the classifiers' answers on the extracted description
      and requirements, passed through the same markup cleaning; its
      deadline is 30 days after its posting date. */
  lemma ParsedJobProperties(doc: Document, now: int, convert: string -> string)
    ensures Canonical(ParsedJob(doc, now, convert))
    ensures Type in ParsedJob(doc, now, convert) && ParsedJob(doc, now, convert)[Type] ==
      Text(Trim(convert(JobType(FirstMatchText(doc, DescriptionSelectors)))))
    ensures Experience in ParsedJob(doc, now, convert) && ParsedJob(doc, now, convert)[Experience] ==
      Text(Trim(convert(ExperienceLevel(FirstMatchText(doc, RequirementsSelectors)))))
    ensures PostedDate in ParsedJob(doc, now, convert) && ParsedJob(doc, now, convert)[PostedDate] == Day(now)
    ensures Deadline in ParsedJob(doc, now, convert) && ParsedJob(doc, now, convert)[Deadline] == Day(now + 30)
  {
    var title, company, location := FirstMatchText(doc, TitleSelectors),
      FirstMatchText(doc, CompanySelectors), FirstMatchText(doc, LocationSelectors);
    var description, requirements, salary := FirstMatchText(doc, DescriptionSelectors),
      FirstMatchText(doc, RequirementsSelectors), FirstMatchText(doc, SalarySelectors);
    CleanedJobFieldsCanonical(title, company, location, description, requirements, salary,
      JobType(description), ExperienceLevel(requirements), now, DeadlineFor(now), convert);
    CleanedJobFieldsClassification(title, company, location, description, requirements, salary,
      JobType(description), ExperienceLevel(requirements), now, DeadlineFor(now), convert);
    CleanedJobFieldsDates(title, company, location, description, requirements, salary,
      JobType(description), ExperienceLevel(requirements), now, DeadlineFor(now), convert);
  }

  // ===========================================================================
  // A batch of loosely-typed records: parseBulkJobs
  // ===========================================================================

  /** One element of the bulk input; any property may be missing. */
  datatype RawJob = RawJob(
    title: Option<string>, company: Option<string>, location: Option<string>,
    description: Option<string>, requirements: Option<string>, salary: Option<string>,
    jobType: Option<string>, experience: Option<string>)

  /** `value || fallback` on a string property: a missing or empty value gives the fallback. */
  function OrElse(value: Option<string>, fallback: string): (r: string)
    ensures value.Some? && value.value != "" ==> r == value.value
    ensures value.None? || value.value == "" ==> r == fallback
  {
    if value.Some? && value.value != "" then value.value else fallback
  }

  /** The job object `parseBulkJobs` builds for one input before cleaning. */
  function BulkFields(job: RawJob, now: int): Fields {
    JobFields(
      OrElse(job.title, UntitledPosition), OrElse(job.company, CompanyNotSpecified),
      OrElse(job.location, LocationNotSpecified), OrElse(job.description, NoDescription),
      OrElse(job.requirements, NoRequirements), OrElse(job.salary, SalaryNotSpecified),
      JobType(OrElse(job.description, "")), ExperienceLevel(OrElse(job.requirements, "")),
      now, DeadlineFor(now))
  }

  /** `parseBulkJobs(jobsData)`: one cleaned record per input, in input order. */
  function ParseBulkJobs(jobs: seq<RawJob>, now: int, convert: string -> string): (parsed: seq<Fields>)
    ensures |parsed| == |jobs|
    ensures forall i :: 0 <= i < |jobs| ==> parsed[i] == Cleaned(BulkFields(jobs[i], now), convert)
  {
    seq(|jobs|, i requires 0 <= i < |jobs| => Cleaned(BulkFields(jobs[i], now), convert))
  }

  /** Every record of a batch satisfies the record invariant, and its type and
      experience are detected from the input's description and requirements
      (missing ones read as ""), never taken from the input. */
  lemma BulkRecordProperties(jobs: seq<RawJob>, now: int, convert: string -> string, i: int)
    requires 0 <= i < |jobs|
    ensures Canonical(ParseBulkJobs(jobs, now, convert)[i])
    ensures Type in ParseBulkJobs(jobs, now, convert)[i] && ParseBulkJobs(jobs, now, convert)[i][Type] ==
      Text(Trim(convert(JobType(OrElse(jobs[i].description, "")))))
    ensures Experience in ParseBulkJobs(jobs, now, convert)[i] && ParseBulkJobs(jobs, now, convert)[i][Experience] ==
      Text(Trim(convert(ExperienceLevel(OrElse(jobs[i].requirements, "")))))
    ensures Deadline in ParseBulkJobs(jobs, now, convert)[i] && ParseBulkJobs(jobs, now, convert)[i][Deadline] == Day(now + 30)
  {
    var job := jobs[i];
    var title, company, location := OrElse(job.title, UntitledPosition),
      OrElse(job.company, CompanyNotSpecified), OrElse(job.location, LocationNotSpecified);
    var description, requirements, salary := OrElse(job.description, NoDescription),
      OrElse(job.requirements, NoRequirements), OrElse(job.salary, SalaryNotSpecified);
    var jobType, experience := JobType(OrElse(job.description, "")), ExperienceLevel(OrElse(job.requirements, ""));
    CleanedJobFieldsCanonical(title, company, location, description, requirements, salary,
      jobType, experience, now, DeadlineFor(now), convert);
    CleanedJobFieldsClassification(title, company, location, description, requirements, salary,
      jobType, experience, now, DeadlineFor(now), convert);
    CleanedJobFieldsDates(title, company, location, description, requirements, salary,
      jobType, experience, now, DeadlineFor(now), convert);
  }

  /** The job object built for one input does not read its type or experience. */
  lemma BulkFieldsIgnoreClassification(job: RawJob, jobType: Option<string>, experience: Option<string>, now: int)
    ensures BulkFields(job.(jobType := jobType, experience := experience), now) == BulkFields(job, now)
  {
    var edited := job.(jobType := jobType, experience := experience);
    assert edited.title == job.title && edited.company == job.company && edited.location == job.location;
    assert edited.description == job.description && edited.requirements == job.requirements;
    assert edited.salary == job.salary;
  }

  /** A type or experience supplied in the input has no effect on the batch. */
  lemma BulkIgnoresSuppliedClassification(jobs: seq<RawJob>, i: int, jobType: Option<string>,
                                          experience: Option<string>, now: int, convert: string -> string)
    requires 0 <= i < |jobs|
    ensures ParseBulkJobs(jobs[i := jobs[i].(jobType := jobType, experience := experience)], now, convert)
         == ParseBulkJobs(jobs, now, convert)
  {
    var edited := jobs[i := jobs[i].(jobType := jobType, experience := experience)];
    BulkFieldsIgnoreClassification(jobs[i], jobType, experience, now);
    forall k | 0 <= k < |jobs|
      ensures ParseBulkJobs(edited, now, convert)[k] == ParseBulkJobs(jobs, now, convert)[k]
    {
      if k != i {
        assert edited[k] == jobs[k];
      }
    }
  }
}
