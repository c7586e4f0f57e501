/** The request-shaping logic of the job handlers
    (backend/controllers/jobController.js): the filter that `getAllJobs`
    builds from its query parameters, its salary-range parse and its
    pagination arithmetic, the tag disjunction of `getJobsByTags`, the
    record `createJobWithTemplate` fills in, the love-reaction counter of
    `updateLoveReactions`, and the per-URL failure filtering of
    `createJobsFromURLs`. The database calls themselves are not modelled:
    a filter is a value describing the query that would be sent. */
module JobController {
  import opened Wrappers
  import opened JsText
  import JobParser

  /** A query or body value in a JavaScript condition: present and not the
      empty string. */
  predicate Truthy(v: Option<string>) {
    v.Some? && v.value != ""
  }

  // ===========================================================================
  // The filter of getAllJobs
  // ===========================================================================

  /** The job columns a filter can constrain. */
  datatype Column =
    | Title | Description | Requirements | Company | Location
    | Type | Experience | Salary | PostedDate | Deadline | Tags

  /** `{ column: { [Op.like]: pattern } }`, one disjunct of an `[Op.or]`. */
  datatype Condition = Like(column: Column, pattern: string)

  /** What a filter key is bound to. Dates are kept as the strings handed to
      `new Date(...)`. */
  datatype Clause =
    | AnyOf(conditions: seq<Condition>)    // [Op.or]: [...]
    | Equals(value: string)                // column = value
    | Matches(pattern: string)             // [Op.like]: pattern
    | Between(low: string, high: string)   // [Op.between]: [low, high]
    | AtLeast(bound: string)               // [Op.gte]: bound
    | NotBefore(date: string)              // [Op.gte]: new Date(date)
    | NotAfter(date: string)               // [Op.lte]: new Date(date)

  /** A key of the `where` object: the `Op.or` symbol or a column name. */
  datatype WhereKey = Or | On(column: Column)

  type Where = map<WhereKey, Clause>

  /** The query parameters `getAllJobs` reads; a missing parameter is `None`.
      `page` and `limit` are the numbers their strings denote. */
  datatype Query = Query(
    search: Option<string>, jobType: Option<string>, location: Option<string>,
    experience: Option<string>, salary: Option<string>, postedDate: Option<string>,
    deadline: Option<string>, company: Option<string>,
    page: Option<int>, limit: Option<int>)

  /** The four columns a free-text search looks in, each as `%term%`. */
  function SearchConditions(term: string): seq<Condition> {
    var pattern := "%" + term + "%";
    [Like(Title, pattern), Like(Description, pattern), Like(Requirements, pattern), Like(Company, pattern)]
  }

  /** The location disjunction: anywhere, as a prefix, as a suffix. */
  function LocationConditions(place: string): seq<Condition> {
    [Like(Location, "%" + place + "%"), Like(Location, place + "%"), Like(Location, "%" + place)]
  }

  /** `$` followed by at least one digit: the form of both salary bounds. */
  predicate IsAmount(s: string) {
    |s| >= 2 && s[0] == '$' && AllDigits(s[1..])
  }

  /** The text has at least one decimal digit. */
  predicate HasDigit(s: string) {
    exists i :: 0 <= i < |s| && IsDigit(s[i])
  }

  /** The salary condition for a salary parameter: the parameter is split on
      '-', the first two pieces lose every non-digit, and then both bounds
      give a range, the first alone a minimum, and no first bound nothing. */
  function SalaryCondition(salary: string): (c: Option<Clause>)
    ensures c.None? <==> !HasDigit(Split(salary, '-')[0])
    ensures c.Some? ==>
      (c.value.Between? && IsAmount(c.value.low) && IsAmount(c.value.high)) || (c.value.AtLeast? && IsAmount(c.value.bound))
    ensures c.Some? && c.value.Between? <==>
      c.Some? && |Split(salary, '-')| >= 2 && HasDigit(Split(salary, '-')[1])
    ensures c.Some? && c.value.AtLeast? ==> c.value.bound == "$" + StripNonDigits(Split(salary, '-')[0])
    ensures c.Some? && c.value.Between? ==>
      && c.value.low == "$" + StripNonDigits(Split(salary, '-')[0])
      && c.value.high == "$" + StripNonDigits(Split(salary, '-')[1])
  {
    var pieces := Split(salary, '-');
    var minSalary := StripNonDigits(pieces[0]);
    var maxSalary := if |pieces| >= 2 then StripNonDigits(pieces[1]) else "";
    assert minSalary != "" <==> HasDigit(pieces[0]);
    assert maxSalary != "" <==> |pieces| >= 2 && HasDigit(pieces[1]);
    if minSalary != "" && maxSalary != "" then Some(Between("$" + minSalary, "$" + maxSalary))
    else if minSalary != "" then Some(AtLeast("$" + minSalary))
    else None
  }

  /** `min-max` with digits on both sides gives the range between them, with
      any other characters (currency signs, separators, spaces) dropped. */
  lemma SalaryRange(low: string, high: string)
    requires '-' !in low && '-' !in high
    requires HasDigit(low) && HasDigit(high)
    ensures SalaryCondition(low + "-" + high) == Some(Between("$" + StripNonDigits(low), "$" + StripNonDigits(high)))
  {
    SplitAtFirst(low, '-', high);
    SplitNoSeparator(high, '-');
  }

  /** A single amount, with or without a trailing '-', is a minimum. */
  lemma SalaryMinimumOnly(low: string)
    requires '-' !in low && HasDigit(low)
    ensures SalaryCondition(low) == Some(AtLeast("$" + StripNonDigits(low)))
    ensures SalaryCondition(low + "-") == Some(AtLeast("$" + StripNonDigits(low)))
  {
    SplitNoSeparator(low, '-');
    SplitAtFirst(low, '-', "");
    assert low + "-" == low + ['-'] + "";
  }

  /** A minimum followed by a second piece without digits (`50000-USD`) is
      still a minimum: the second piece is dropped. */
  lemma SalaryMinimumWithoutMaximum(low: string, high: string)
    requires '-' !in low && HasDigit(low) && !HasDigit(Split(high, '-')[0])
    ensures SalaryCondition(low + "-" + high) == Some(AtLeast("$" + StripNonDigits(low)))
  {
    SplitAtFirst(low, '-', high);
    assert low + "-" + high == low + ['-'] + high;
    SplitNoSeparator(low, '-');
  }

  /** A maximum without a minimum (`-80000`) adds no salary condition. */
  lemma SalaryMaximumOnlyIgnored(high: string)
    ensures SalaryCondition("-" + high) == None
  {
    SplitAtFirst("", '-', high);
    assert "-" + high == "" + ['-'] + high;
  }

  /** Pieces after the second are never looked at. */
  lemma SalaryExtraPiecesIgnored(low: string, high: string, rest: string)
    requires '-' !in low && '-' !in high
    ensures SalaryCondition(low + "-" + high + "-" + rest) == SalaryCondition(low + "-" + high)
  {
    SplitAtFirst(low, '-', high + "-" + rest);
    SplitAtFirst(high, '-', rest);
    SplitAtFirst(low, '-', high);
    SplitNoSeparator(high, '-');
    assert low + "-" + high + "-" + rest == low + ['-'] + (high + ['-'] + rest);
  }

  /** None of the filtering parameters is set (or the salary has no first
      bound): the filter is empty. */
  predicate NoFilters(q: Query) {
    && !Truthy(q.search) && !Truthy(q.jobType) && !Truthy(q.location) && !Truthy(q.experience)
    && (!Truthy(q.salary) || SalaryCondition(q.salary.value).None?)
    && !Truthy(q.postedDate) && !Truthy(q.deadline) && !Truthy(q.company)
  }

  /** `where` binds `key` to `clause` when `present`, and leaves it out otherwise. */
  predicate Binds(where: Where, key: WhereKey, present: bool, clause: Clause) {
    if present then key in where && where[key] == clause else key !in where
  }

  /** The first four steps of `getAllJobs`'s filter: search, type, location
      and experience, in that order. A location replaces the search
      disjunction under `Op.or`. */
  method TextFilters(q: Query) returns (where: Where)
    ensures Truthy(q.location) ==> Binds(where, Or, true, AnyOf(LocationConditions(q.location.value)))
    ensures !Truthy(q.location) && Truthy(q.search) ==> Binds(where, Or, true, AnyOf(SearchConditions(q.search.value)))
    ensures !Truthy(q.location) && !Truthy(q.search) ==> Or !in where
    ensures Binds(where, On(Type), Truthy(q.jobType), Equals(q.jobType.GetOr("")))
    ensures Binds(where, On(Experience), Truthy(q.experience), Equals(q.experience.GetOr("")))
    ensures where.Keys <= {Or, On(Type), On(Experience)}
  {
    where := map[];
    if Truthy(q.search) {
      where := where[Or := AnyOf(SearchConditions(q.search.value))];
    }
    if Truthy(q.jobType) {
      where := where[On(Type) := Equals(q.jobType.value)];
    }
    if Truthy(q.location) {
      where := where[Or := AnyOf(LocationConditions(q.location.value))];
    }
    if Truthy(q.experience) {
      where := where[On(Experience) := Equals(q.experience.value)];
    }
  }

  /** The last four steps: salary, posting date, deadline and company, each
      under its own column; keys set before are left as they were. */
  method RangeFilters(q: Query, before: Where) returns (where: Where)
    requires before.Keys <= {Or, On(Type), On(Experience)}
    ensures Truthy(q.salary) && SalaryCondition(q.salary.value).Some? ==>
      Binds(where, On(Salary), true, SalaryCondition(q.salary.value).value)
    ensures !(Truthy(q.salary) && SalaryCondition(q.salary.value).Some?) ==> On(Salary) !in where
    ensures Binds(where, On(PostedDate), Truthy(q.postedDate), NotBefore(q.postedDate.GetOr("")))
    ensures Binds(where, On(Deadline), Truthy(q.deadline), NotAfter(q.deadline.GetOr("")))
    ensures Binds(where, On(Company), Truthy(q.company), Matches("%" + q.company.GetOr("") + "%"))
    ensures forall key :: key in before ==> key in where && where[key] == before[key]
    ensures forall key :: key in where ==> key in before || key.On?
    ensures where.Keys <= before.Keys + {On(Salary), On(PostedDate), On(Deadline), On(Company)}
  {
    where := before;
    if Truthy(q.salary) {
      var condition := SalaryCondition(q.salary.value);
      if condition.Some? {
        where := where[On(Salary) := condition.value];
      }
    }
    if Truthy(q.postedDate) {
      where := where[On(PostedDate) := NotBefore(q.postedDate.value)];
    }
    if Truthy(q.deadline) {
      where := where[On(Deadline) := NotAfter(q.deadline.value)];
    }
    if Truthy(q.company) {
      where := where[On(Company) := Matches("%" + q.company.value + "%")];
    }
  }

  /** The `where` object of `getAllJobs`: an absent or empty parameter adds
      no condition, and no parameter set means no filter at all. */
  method BuildWhere(q: Query) returns (where: Where)
    ensures Or in where <==> Truthy(q.search) || Truthy(q.location)
    ensures Truthy(q.location) ==> where[Or] == AnyOf(LocationConditions(q.location.value))
    ensures !Truthy(q.location) && Truthy(q.search) ==> where[Or] == AnyOf(SearchConditions(q.search.value))
    ensures Binds(where, On(Type), Truthy(q.jobType), Equals(q.jobType.GetOr("")))
    ensures Binds(where, On(Experience), Truthy(q.experience), Equals(q.experience.GetOr("")))
    ensures Truthy(q.salary) && SalaryCondition(q.salary.value).Some? ==>
      Binds(where, On(Salary), true, SalaryCondition(q.salary.value).value)
    ensures !(Truthy(q.salary) && SalaryCondition(q.salary.value).Some?) ==> On(Salary) !in where
    ensures Binds(where, On(PostedDate), Truthy(q.postedDate), NotBefore(q.postedDate.GetOr("")))
    ensures Binds(where, On(Deadline), Truthy(q.deadline), NotAfter(q.deadline.GetOr("")))
    ensures Binds(where, On(Company), Truthy(q.company), Matches("%" + q.company.GetOr("") + "%"))
    ensures where.Keys <= {Or, On(Type), On(Experience), On(Salary), On(PostedDate), On(Deadline), On(Company)}
    ensures where == map[] <==> NoFilters(q)
  {
    var text := TextFilters(q);
    where := RangeFilters(q, text);
    if !NoFilters(q) {
      assert Or in where || On(Type) in where || On(Experience) in where || On(Salary) in where
          || On(PostedDate) in where || On(Deadline) in where || On(Company) in where;
    }
  }

  // ===========================================================================
  // Pagination
  // ===========================================================================

  const DefaultPage := 1
  const DefaultLimit := 10

  /** The pagination block of the response, with the offset handed to the
      query. `pages` is `None` where `Math.ceil(total / limit)` is not a
      number (`Infinity` or `NaN`, for a zero limit). */
  datatype Pagination = Pagination(total: nat, page: int, pages: Option<int>, limit: int, offset: int)

  /** `Math.ceil(total / limit)`: the least integer at or above the quotient. */
  function CeilDiv(total: nat, limit: int): (pages: Option<int>)
    ensures pages.None? <==> limit == 0
    ensures limit > 0 ==> (pages.value - 1) * limit < total <= pages.value * limit
    ensures limit < 0 ==> pages.value * limit <= total < (pages.value - 1) * limit
  {
    if limit > 0 then
      var c := (total + limit - 1) / limit;
      assert c * limit <= total + limit - 1 < c * limit + limit;
      Some(c)
    else if limit < 0 then
      var q := total / -limit;
      assert q * -limit <= total < q * -limit - limit;
      Some(-q)
    else None
  }

  /** The pagination of `getAllJobs` for a count of `total` matching jobs:
      `page` and `limit` default to 1 and 10 only when they are not given. */
  function Paginate(total: nat, page: Option<int>, limit: Option<int>): (p: Pagination)
    ensures page.None? ==> p.page == DefaultPage
    ensures page.Some? ==> p.page == page.value
    ensures limit.None? ==> p.limit == DefaultLimit
    ensures limit.Some? ==> p.limit == limit.value
    ensures p.offset == (p.page - 1) * p.limit
    ensures p.pages == CeilDiv(total, p.limit) && p.total == total
  {
    var pg := page.GetOr(DefaultPage);
    var lim := limit.GetOr(DefaultLimit);
    Pagination(total, pg, CeilDiv(total, lim), lim, (pg - 1) * lim)
  }

  /** Multiplying by a positive number keeps the order. */
  lemma MultiplyMonotone(a: int, b: int, limit: int)
    requires a <= b && limit > 0
    ensures a * limit <= b * limit
  {
    assert b * limit - a * limit == (b - a) * limit;
  }

  /** With a positive limit, page `page` (counting from 1) starts before the
      end of the results exactly when it is one of the `pages` pages. */
  lemma PageHasResultsIff(total: nat, page: int, limit: int)
    requires limit > 0 && page >= 1
    ensures var p := Paginate(total, Some(page), Some(limit));
      p.offset < total <==> page <= p.pages.value
  {
    var c := CeilDiv(total, limit).value;
    if page <= c {
      MultiplyMonotone(page - 1, c - 1, limit);
    } else {
      MultiplyMonotone(c, page - 1, limit);
    }
  }

  /** The first page starts at offset 0, and with the default limit there
      are `ceil(total / 10)` pages. */
  lemma DefaultPagination(total: nat)
    ensures var p := Paginate(total, None, None);
      p.page == 1 && p.limit == 10 && p.offset == 0 && p.pages == Some((total + 9) / 10)
  {
  }

  // ===========================================================================
  // getJobsByTags
  // ===========================================================================

  /** `tags.split(',').map(tag => tag.trim())`. */
  function TagList(tags: string): (list: seq<string>)
    ensures |list| == Count(tags, ',') + 1
    ensures forall i :: 0 <= i < |list| ==> ',' !in list[i] && list[i] == Trim(Split(tags, ',')[i])
  {
    var pieces := Split(tags, ',');
    seq(|pieces|, i requires 0 <= i < |pieces| => Trim(pieces[i]))
  }

  /** The filter of `getJobsByTags`: one `%tag%` disjunct on the tags column
      per comma-separated tag, or the error for a missing parameter. */
  function TagsWhere(tags: Option<string>): (r: Result<Where, string>)
    ensures r.Failure? <==> !Truthy(tags)
    ensures r.Failure? ==> r.error == "Tags parameter is required"
    ensures r.Success? ==>
      && r.value.Keys == {Or} && r.value[Or].AnyOf?
      && |r.value[Or].conditions| == Count(tags.value, ',') + 1
      && forall i :: 0 <= i < |r.value[Or].conditions| ==>
           r.value[Or].conditions[i] == Like(Tags, "%" + TagList(tags.value)[i] + "%")
  {
    if !Truthy(tags) then Failure("Tags parameter is required")
    else
      var list := TagList(tags.value);
      Success(map[Or := AnyOf(seq(|list|, i requires 0 <= i < |list| => Like(Tags, "%" + list[i] + "%")))])
  }

  /** No tag in the list carries a comma or whitespace at either end. */
  lemma TagsAreTrimmed(tags: string, i: int)
    requires 0 <= i < |TagList(tags)|
    ensures ',' !in TagList(tags)[i]
    ensures TagList(tags)[i] == [] || (!IsWhitespace(TagList(tags)[i][0]) && !IsWhitespace(TagList(tags)[i][|TagList(tags)[i]| - 1]))
  {
    TrimCut(Split(tags, ',')[i]);
  }

  /** When no tag has surrounding whitespace, the tag list joined back with
      commas is the parameter itself: splitting loses nothing. */
  lemma TagListJoin(tags: string)
    requires forall i :: 0 <= i < |Split(tags, ',')| ==> Trim(Split(tags, ',')[i]) == Split(tags, ',')[i]
    ensures Join(TagList(tags), ',') == tags
  {
    assert TagList(tags) == Split(tags, ',');
    JoinSplit(tags, ',');
  }

  // ===========================================================================
  // createJobWithTemplate
  // ===========================================================================

  /** The body fields `createJobWithTemplate` reads. */
  datatype TemplateBody = TemplateBody(
    title: Option<string>, company: Option<string>, location: Option<string>,
    description: Option<string>, requirements: Option<string>, salary: Option<string>,
    jobType: Option<string>, experience: Option<string>, deadline: Option<string>)

  /** The job record of the template handler, with `now` the day of the
      request and `dayOf` the day `new Date(s)` denotes. */
  function TemplateJob(body: TemplateBody, now: int, dayOf: string -> int): JobParser.Fields {
    JobParser.JobFields(
      JobParser.OrElse(body.title, JobParser.UntitledPosition),
      JobParser.OrElse(body.company, JobParser.CompanyNotSpecified),
      JobParser.OrElse(body.location, JobParser.LocationNotSpecified),
      JobParser.OrElse(body.description, JobParser.NoDescription),
      JobParser.OrElse(body.requirements, JobParser.NoRequirements),
      JobParser.OrElse(body.salary, JobParser.SalaryNotSpecified),
      JobParser.OrElse(body.jobType, JobParser.FullTime),
      JobParser.OrElse(body.experience, JobParser.NotSpecified),
      now,
      if Truthy(body.deadline) then dayOf(body.deadline.value) else JobParser.DeadlineFor(now))
  }

  /** The body's value for a text property the parser defaults. */
  function BodyField(body: TemplateBody, key: JobParser.Property): Option<string> {
    match key
    case Title => body.title
    case Company => body.company
    case Location => body.location
    case Description => body.description
    case Requirements => body.requirements
    case Salary => body.salary
    case _ => None
  }

  /** The six text properties take exactly the parser's defaults: a supplied
      non-empty value is kept, anything else becomes the parser's default. */
  lemma TemplateUsesParserDefaults(body: TemplateBody, now: int, dayOf: string -> int, key: JobParser.Property)
    requires JobParser.DefaultFor(key).Some?
    ensures key in TemplateJob(body, now, dayOf)
    ensures Truthy(BodyField(body, key)) ==> TemplateJob(body, now, dayOf)[key] == JobParser.Text(BodyField(body, key).value)
    ensures !Truthy(BodyField(body, key)) ==>
      TemplateJob(body, now, dayOf)[key] == JobParser.Text(JobParser.DefaultFor(key).value)
  {
  }

  /** A template record satisfies the parser's record invariant and is left
      unchanged by the parser's default filling. */
  lemma TemplateCanonical(body: TemplateBody, now: int, dayOf: string -> int)
    ensures JobParser.Canonical(TemplateJob(body, now, dayOf))
    ensures JobParser.FillDefaults(TemplateJob(body, now, dayOf)) == TemplateJob(body, now, dayOf)
  {
    var t := TemplateJob(body, now, dayOf);
    assert JobParser.Canonical(t);
    forall key | key in t
      ensures key in JobParser.FillDefaults(t) && JobParser.FillDefaults(t)[key] == t[key]
    {
      JobParser.FillDefaultsField(t, key);
    }
    forall key | key in JobParser.FillDefaults(t) ensures key in t {
      JobParser.FillDefaultsField(t, key);
    }
  }

  /** Type and experience come from the body, never from the classifiers:
      a supplied value is kept as given, a missing one is the fixed
      fallback whatever the description and requirements say. */
  lemma TemplateClassificationFromBody(body: TemplateBody, now: int, dayOf: string -> int)
    ensures var t := TemplateJob(body, now, dayOf);
      && JobParser.Type in t && JobParser.Experience in t
      && t[JobParser.Type] == JobParser.Text(if Truthy(body.jobType) then body.jobType.value else "Full-time")
      && t[JobParser.Experience] == JobParser.Text(if Truthy(body.experience) then body.experience.value else "Not specified")
  {
  }

  /** The deadline is the supplied date, or 30 days after the request. */
  lemma TemplateDeadline(body: TemplateBody, now: int, dayOf: string -> int)
    ensures var t := TemplateJob(body, now, dayOf);
      && JobParser.Deadline in t && JobParser.PostedDate in t
      && t[JobParser.PostedDate] == JobParser.Day(now)
      && t[JobParser.Deadline] == JobParser.Day(if Truthy(body.deadline) then dayOf(body.deadline.value) else now + 30)
  {
  }

  // ===========================================================================
  // updateLoveReactions
  // ===========================================================================

  /** `parseInt(job.lovereactions) || 0`: the stored count, 0 when it is
      missing or not a number. */
  function CurrentReactions(stored: Option<string>): int {
    if stored.None? then 0 else ParseInt(stored.value).GetOr(0)
  }

  /** The count after one reaction: up when `increment` is truthy, down
      otherwise, with no lower bound. */
  function NewReactions(stored: Option<string>, increment: bool): int {
    if increment then CurrentReactions(stored) + 1 else CurrentReactions(stored) - 1
  }

  /** A job row as far as its reaction counter goes; the count is stored as a string. */
  class JobRow {
    var lovereactions: Option<string>

    constructor (lovereactions: Option<string>)
      ensures this.lovereactions == lovereactions
    {
      this.lovereactions := lovereactions;
    }
  }

  /** `updateLoveReactions`: compute the new count, store it as its decimal
      string, and answer with the number. */
  method UpdateLoveReactions(job: JobRow, increment: bool) returns (newReactions: int)
    modifies job
    ensures newReactions == NewReactions(old(job.lovereactions), increment)
    ensures job.lovereactions == Some(IntToString(newReactions))
    ensures CurrentReactions(job.lovereactions) == newReactions
  {
    var currentReactions := CurrentReactions(job.lovereactions);
    newReactions := if increment then currentReactions + 1 else currentReactions - 1;
    job.lovereactions := Some(IntToString(newReactions));
    ParseIntToString(newReactions);
  }

  /** Storing a count and reading it back gives the same count. */
  lemma StoredCountRoundTrip(n: int)
    ensures CurrentReactions(Some(IntToString(n))) == n
  {
    ParseIntToString(n);
  }

  /** Number of `true` entries. */
  function Ups(clicks: seq<bool>): nat {
    if clicks == [] then 0 else (if clicks[0] then 1 else 0) + Ups(clicks[1..])
  }

  /** The stored value after a sequence of reactions, each one read, updated
      and written back as a string. */
  function AfterReactions(stored: Option<string>, clicks: seq<bool>): Option<string>
    decreases |clicks|
  {
    if clicks == [] then stored
    else AfterReactions(Some(IntToString(NewReactions(stored, clicks[0]))), clicks[1..])
  }

  /** After any sequence of reactions the count is the starting count plus
      the increments minus the decrements; it goes below zero when the
      decrements outnumber them. */
  lemma {:induction false} ReactionsTally(stored: Option<string>, clicks: seq<bool>)
    ensures CurrentReactions(AfterReactions(stored, clicks)) ==
      CurrentReactions(stored) + Ups(clicks) - (|clicks| - Ups(clicks))
    decreases |clicks|
  {
    if clicks != [] {
      var next := Some(IntToString(NewReactions(stored, clicks[0])));
      StoredCountRoundTrip(NewReactions(stored, clicks[0]));
      ReactionsTally(next, clicks[1..]);
    }
  }

  /** A count that was never stored, or is not a number, starts from 0, so a
      first decrement gives -1. */
  lemma UnreadableCountStartsAtZero(stored: Option<string>)
    requires stored.None? || ParseInt(stored.value).None?
    ensures NewReactions(stored, true) == 1 && NewReactions(stored, false) == -1
  {
  }

  // ===========================================================================
  // createJobsFromURLs
  // ===========================================================================

  /** `jobs.filter(job => job !== null)`: the successes, in input order. */
  function SuccessfulJobs<T>(outcomes: seq<Option<T>>): (jobs: seq<T>)
    ensures |jobs| <= |outcomes|
  {
    if outcomes == [] then []
    else if outcomes[0].Some? then [outcomes[0].value] + SuccessfulJobs(outcomes[1..])
    else SuccessfulJobs(outcomes[1..])
  }

  /** The filter keeps exactly the successes: every kept job is one of the
      outcomes, and every success is kept. */
  lemma {:induction false} SuccessfulJobsMembers<T>(outcomes: seq<Option<T>>)
    ensures forall i :: 0 <= i < |SuccessfulJobs(outcomes)| ==> Some(SuccessfulJobs(outcomes)[i]) in outcomes
    ensures forall i :: 0 <= i < |outcomes| && outcomes[i].Some? ==> outcomes[i].value in SuccessfulJobs(outcomes)
  {
    if outcomes != [] {
      var tail := outcomes[1..];
      var kept, rest := SuccessfulJobs(outcomes), SuccessfulJobs(tail);
      SuccessfulJobsMembers(tail);
      forall i | 0 <= i < |kept| ensures Some(kept[i]) in outcomes {
        if outcomes[0].Some? && i == 0 {
          assert Some(kept[0]) == outcomes[0];
        } else {
          var j := if outcomes[0].Some? then i - 1 else i;
          assert kept[i] == rest[j];
          var h :| 0 <= h < |tail| && tail[h] == Some(rest[j]);
          assert outcomes[h + 1] == Some(kept[i]);
        }
      }
      forall i | 0 <= i < |outcomes| && outcomes[i].Some? ensures outcomes[i].value in kept {
        if i == 0 {
          assert kept[0] == outcomes[0].value;
        } else {
          assert outcomes[i] == tail[i - 1];
          var h :| 0 <= h < |rest| && rest[h] == outcomes[i].value;
          assert kept[if outcomes[0].Some? then h + 1 else h] == rest[h];
        }
      }
    }
  }

  /** Filtering a concatenation filters each part and keeps them in order. */
  lemma {:induction false} SuccessfulJobsAppend<T>(a: seq<Option<T>>, b: seq<Option<T>>)
    ensures SuccessfulJobs(a + b) == SuccessfulJobs(a) + SuccessfulJobs(b)
  {
    if a == [] {
      assert a + b == b;
    } else {
      assert (a + b)[0] == a[0];
      assert (a + b)[1..] == a[1..] + b;
      SuccessfulJobsAppend(a[1..], b);
    }
  }

  /** When no URL fails, every one gives a job. */
  lemma {:induction false} SuccessfulJobsAll<T>(outcomes: seq<Option<T>>)
    requires forall i :: 0 <= i < |outcomes| ==> outcomes[i].Some?
    ensures |SuccessfulJobs(outcomes)| == |outcomes|
  {
    if outcomes != [] {
      SuccessfulJobsAll(outcomes[1..]);
    }
  }

  /** The record a URL yields, or `None` (the handler's `null`) when parsing it fails. */
  function UrlOutcome(url: string, fetch: string -> JobParser.FetchOutcome, now: int,
                      convert: string -> string): Option<JobParser.Fields> {
    match fetch(url)
    case Fetched(doc) => Some(JobParser.ParsedJob(doc, now, convert))
    case FetchFailed(_) => None
  }

  function Outcomes(urls: seq<string>, fetch: string -> JobParser.FetchOutcome, now: int,
                    convert: string -> string): seq<Option<JobParser.Fields>> {
    seq(|urls|, i requires 0 <= i < |urls| => UrlOutcome(urls[i], fetch, now, convert))
  }

  /** The records of the URLs that parse, in URL order. */
  function BatchRecords(urls: seq<string>, fetch: string -> JobParser.FetchOutcome, now: int,
                        convert: string -> string): seq<JobParser.Fields> {
    SuccessfulJobs(Outcomes(urls, fetch, now, convert))
  }

  /** When the job objects `jobs` hold, position by position, the records of
      `outcomes` (a `null` where an outcome is missing), the surviving job
      objects hold the surviving records, in the same order. */
  lemma {:induction false} SuccessfulJobsMirror(jobs: seq<Option<JobParser.JobData>>,
                                                outcomes: seq<Option<JobParser.Fields>>)
    requires |jobs| == |outcomes|
    requires forall k :: 0 <= k < |jobs| ==> (jobs[k].Some? <==> outcomes[k].Some?)
    requires forall k :: 0 <= k < |jobs| && jobs[k].Some? ==> jobs[k].value.fields == outcomes[k].value
    ensures |SuccessfulJobs(jobs)| == |SuccessfulJobs(outcomes)|
    ensures forall k :: 0 <= k < |SuccessfulJobs(jobs)| ==> SuccessfulJobs(jobs)[k].fields == SuccessfulJobs(outcomes)[k]
  {
    if jobs != [] {
      var js, os := jobs[1..], outcomes[1..];
      assert forall k :: 0 <= k < |js| ==> js[k] == jobs[k + 1] && os[k] == outcomes[k + 1];
      SuccessfulJobsMirror(js, os);
      if jobs[0].Some? {
        var kept, records := SuccessfulJobs(jobs), SuccessfulJobs(outcomes);
        assert kept == [jobs[0].value] + SuccessfulJobs(js);
        assert records == [outcomes[0].value] + SuccessfulJobs(os);
        forall k | 0 <= k < |kept| ensures kept[k].fields == records[k] {
          if k > 0 {
            assert kept[k] == SuccessfulJobs(js)[k - 1] && records[k] == SuccessfulJobs(os)[k - 1];
          }
        }
      } else {
        assert SuccessfulJobs(jobs) == SuccessfulJobs(js);
        assert SuccessfulJobs(outcomes) == SuccessfulJobs(os);
      }
    }
  }

  /** The success response of `createJobsFromURLs`. */
  datatype BatchReply = BatchReply(message: string, jobs: seq<JobParser.JobData>)

  /** `outcome` tells, for every URL, what parsing it yields. */
  ghost predicate ParsesAs(outcome: string -> Option<JobParser.Fields>, fetch: string -> JobParser.FetchOutcome,
                           now: int, convert: string -> string) {
    forall u {:trigger UrlOutcome(u, fetch, now, convert)} :: outcome(u) == UrlOutcome(u, fetch, now, convert)
  }

  /** One URL of `createJobsFromURLs`: the parsed job, or `null` when
      parsing throws. Storing the job is taken to succeed; a rejected
      `Job.create`, which the same `catch` also turns into `null`, is not
      part of this model. */
  method ParseOrNull(url: string, fetch: string -> JobParser.FetchOutcome, now: int, convert: string -> string,
                     ghost outcome: string -> Option<JobParser.Fields>)
    returns (job: Option<JobParser.JobData>)
    requires ParsesAs(outcome, fetch, now, convert)
    ensures job.Some? <==> outcome(url).Some?
    ensures job.Some? ==> fresh(job.value) && job.value.fields == outcome(url).value
  {
    var parsed := JobParser.ParseJobFromURL(url, fetch, now, convert);
    job := if parsed.Success? then Some(parsed.value) else None;
    assert outcome(url) == UrlOutcome(url, fetch, now, convert);
  }

  /** The `Promise.all` over the URLs: one job object or `null` per URL, in
      URL order. */
  method ParseAll(urls: seq<string>, fetch: string -> JobParser.FetchOutcome, now: int, convert: string -> string,
                  ghost outcome: string -> Option<JobParser.Fields>)
    returns (jobs: seq<Option<JobParser.JobData>>)
    requires ParsesAs(outcome, fetch, now, convert)
    ensures |jobs| == |urls|
    ensures forall k :: 0 <= k < |urls| ==> (jobs[k].Some? <==> outcome(urls[k]).Some?)
    ensures forall k :: 0 <= k < |urls| && jobs[k].Some? ==> jobs[k].value.fields == outcome(urls[k]).value
  {
    jobs := [];
    for i := 0 to |urls|
      invariant |jobs| == i
      invariant forall k :: 0 <= k < i ==> (jobs[k].Some? <==> outcome(urls[k]).Some?)
      invariant forall k :: 0 <= k < i && jobs[k].Some? ==> jobs[k].value.fields == outcome(urls[k]).value
    {
      var job := ParseOrNull(urls[i], fetch, now, convert, outcome);
      jobs := jobs + [job];
    }
  }

  /** `createJobsFromURLs`: parse each URL in order, turn a failure into a
      `null` and drop the `null`s. `None` is a body whose `urls` is not an
      array. */
  method CreateJobsFromURLs(urls: Option<seq<string>>, fetch: string -> JobParser.FetchOutcome, now: int,
                            convert: string -> string)
    returns (reply: Result<BatchReply, string>)
    ensures reply.Failure? <==> urls.None? || urls.value == []
    ensures reply.Failure? ==> reply.error == "Array of URLs is required"
    ensures reply.Success? ==>
      var records := BatchRecords(urls.value, fetch, now, convert);
      && |reply.value.jobs| == |records| <= |urls.value|
      && (forall i :: 0 <= i < |records| ==> reply.value.jobs[i].fields == records[i])
      && reply.value.message == "Successfully created " + IntToString(|records|) + " jobs"
  {
    if urls.None? || |urls.value| == 0 {
      return Failure("Array of URLs is required");
    }
    var list := urls.value;
    var jobs := ParseAll(list, fetch, now, convert, u => UrlOutcome(u, fetch, now, convert));
    SuccessfulJobsMirror(jobs, Outcomes(list, fetch, now, convert));
    var successfulJobs := SuccessfulJobs(jobs);
    reply := Success(BatchReply("Successfully created " + IntToString(|successfulJobs|) + " jobs", successfulJobs));
  }
}
