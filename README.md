# Job board parser and job controller, modelled in Dafny

This project models the core of a job board backend. It covers two parts.

- The `JobParser` utility. It scrapes a job posting page. It picks the
  first selector that matches for each field (`findContent`). It classifies
  the job type from the description (`detectJobType`) and the experience
  level from the requirements (`detectExperience`). It sets a deadline 30
  days after posting (`calculateDeadline`). It converts and trims every
  string field and fills in six defaults (`cleanJobData`). It also normalises
  bulk uploads (`parseBulkJobs`).
- The pure parts of the job controller:
  - the `where` object that `getAllJobs` builds from the query string, its
    salary-range parsing and its pagination numbers;
  - the comma split in `getJobsByTags`;
  - the record `createJobWithTemplate` builds from defaults;
  - the love-reaction counter of `updateLoveReactions`, stored as a string;
  - the dropping of failed URLs in `createJobsFromURLs`.

Files:

- `wrappers.dfy` (`Wrappers`) holds `Option` and `Result`.
- `js_text.dfy` (`JsText`) holds the JavaScript string operations the core
  relies on, written out with their own contracts. These are `trim` (with
  the ECMAScript whitespace set), ASCII `toLowerCase`, `includes`,
  `split`/`join`, `replace(/[^0-9]/g, '')`, `parseInt` and integer-to-string
  conversion.
- `experience_rules.dfy` (`ExperienceRules`) holds the five experience
  regular expressions. Each is a deterministic scanner, and a pattern's
  leftmost match is a first-found search over positions.
- `job_parser.dfy` (`JobParser`) holds the parser. A page is a map from CSS
  selector to the texts of the matched elements, in document order. A job
  record is a map from property to value, where a value is text or a day
  number. The job record object is the class `JobData`, and a JavaScript
  `Date` is the class `Date`. Both are updated in place, as in the source.
- `job_controller.dfy` (`JobController`) holds the controller fragments.

The page fetch, the HTML-to-text converter and the clock are parameters.
`fetch` maps a URL to a page or to an error message. `convert` maps a string
to its plain text. `now` is today's day number.

## Model

| member | source | states |
|---|---|---|
| JsText.Trim | backend/utils/jobParser.js:75 | `trim()` removes leading and trailing whitespace: never longer, and every character of the result occurs in the input |
| JsText.TrimCut | backend/utils/jobParser.js:75 | the trimmed text is a contiguous slice of the input, only whitespace lies outside it, and it neither starts nor ends with whitespace |
| JsText.TrimEmptyIff | backend/utils/jobParser.js:73-75 | trimming gives the empty string exactly when the text is all whitespace, so such a match yields `''` |
| JsText.TrimIdempotent | backend/utils/jobParser.js:126 | trimming twice is trimming once |
| JsText.ToLower | backend/utils/jobParser.js:83-86 | `toLowerCase()` keeps the length and lowers each character position by position |
| JsText.ContainsIff | backend/utils/jobParser.js:86 | `includes` holds exactly when the needle occurs at some position |
| JsText.Split | backend/controllers/jobController.js:404 | `split(',')` gives one more piece than there are separators, and no piece holds a separator |
| JsText.JoinSplit | backend/controllers/jobController.js:404 | joining the pieces of a split with the separator gives back the original text |
| JsText.SplitNoSeparator | backend/controllers/jobController.js:82 | text without the separator splits into itself alone |
| JsText.SplitAtFirst | backend/controllers/jobController.js:82 | the first piece of a split is the text up to the first separator |
| JsText.StripNonDigits | backend/controllers/jobController.js:82 | `replace(/[^0-9]/g, '')` gives only digits, is never longer than its input, leaves an all-digit text unchanged and is empty exactly when the text has no digit |
| JsText.StripNonDigitsChar | backend/controllers/jobController.js:82 | a single character is kept exactly when it is a digit |
| JsText.StripNonDigitsAppend | backend/controllers/jobController.js:82 | the digits of `a + b` are the digits of `a` followed by those of `b`; with the previous row this makes the result the input's digits, in order |
| JsText.NatToString | backend/controllers/jobController.js:384 | the decimal form of a number is all digits, non-empty, with no leading zero |
| JsText.ParseIntToString | backend/controllers/jobController.js:381-384 | `parseInt` of a count written with `toString()` is that count, negative counts included |
| ExperienceRules.FirstSomeIsFirst | backend/utils/jobParser.js:103 | a left-to-right search finds something exactly when some position has it, and then returns the first such |
| ExperienceRules.ApplyIsFirst | backend/utils/jobParser.js:103-105 | `match` followed by `replace` on the match gives the rewrite at the leftmost matching position, or nothing when the pattern matches nowhere |
| ExperienceRules.ConstantRuleValues | backend/utils/jobParser.js:97-99 | the entry-level, senior and lead rules give 'Entry Level', '5+ years' and '3+ years' |
| ExperienceRules.RangeRuleShadowed | backend/utils/jobParser.js:95-96 | any text the range rule `N-M years` matches is already matched by the earlier `N+ years` rule |
| ExperienceRules.DigitsRuleResult | backend/utils/jobParser.js:95 | the `N+ years` rule gives `N+ years` for a whole digit run N that is followed by an optional '+', optional whitespace and 'year', at the leftmost position where such a run starts |
| JobParser.FindContent | backend/utils/jobParser.js:71-79 | gives the trimmed text of the first element of the first selector that matches anything, and `''` when none matches |
| JobParser.LaterSelectorsIgnored | backend/utils/jobParser.js:72-77 | selectors after the first matching one never affect the result |
| JobParser.BlankFirstMatchStops | backend/utils/jobParser.js:73-75 | a first match whose text is all whitespace gives `''`, and later selectors are not consulted |
| JobParser.FindLabel | backend/utils/jobParser.js:85-90 | the loop returns the first label whose lower-case form occurs in the text, else 'Full-time' |
| JobParser.DetectJobType | backend/utils/jobParser.js:81-91 | the job type is the first of Full-time, Part-time, Contract and Internship found in the lower-cased description |
| JobParser.JobTypeIsFirstLabel | backend/utils/jobParser.js:81-91 | the type is always one of the four labels; it is the first label found, and 'Full-time' when none is found |
| JobParser.DetectExperience | backend/utils/jobParser.js:93-109 | the experience level is the rewrite of the first of the five patterns that matches, else 'Not specified' |
| JobParser.ExperienceIsFirstRule | backend/utils/jobParser.js:102-108 | when some rule matches, the level is that first rule's rewrite; when none does, it is 'Not specified' |
| JobParser.ExperienceClassification | backend/utils/jobParser.js:93-109 | rule by rule: the digits rule's rewrite when it matches, else 'Entry Level', '5+ years' or '3+ years' for the first of those rules that matches, else 'Not specified'; the range rule never decides ("2 - 4 years" gives "4+ years") |
| JobParser.Date.SetDate | backend/utils/jobParser.js:113 | `setDate` moves the date to the given day and nothing else changes |
| JobParser.CalculateDeadline | backend/utils/jobParser.js:111-115 | the deadline is a new date 30 days after the posting date, and the posting date is unchanged |
| JobParser.FillFromAt | backend/utils/jobParser.js:131-136 | when the defaults name distinct fields, each one ends up as its default if it was missing or empty, and as its old value otherwise |
| JobParser.FillDefaultsField | backend/utils/jobParser.js:131-136 | title, company, location, description, requirements and salary get 'Untitled Position', 'Company Not Specified', 'Location Not Specified', 'No description provided', 'No specific requirements listed' and 'Salary not specified' when falsy; every other field is untouched |
| JobParser.FillDefaultsInOrder | backend/utils/jobParser.js:131-136 | filling from the defaults table is the six `if (!x) x = d` assignments in the source's order |
| JobParser.FillDefaultsCanonical | backend/utils/jobParser.js:131-136 | after the defaults, each of the six fields is present and is non-empty text |
| JobParser.FillDefaultsIdempotent | backend/utils/jobParser.js:131-136 | applying the defaults twice is applying them once |
| JobParser.CleanedField | backend/utils/jobParser.js:117-139 | after cleaning, a string field holds `convert(v).trim()`, replaced by its default when that is empty; date fields are untouched |
| JobParser.CleanedPlainText | backend/utils/jobParser.js:119-128 | a text field without a default holds exactly `convert(v).trim()` |
| JobParser.CleanedCanonical | backend/utils/jobParser.js:117-139 | a cleaned job always has the six defaulted fields as non-empty text |
| JobParser.ConvertStrings | backend/utils/jobParser.js:119-128 | the loop over the keys replaces every string value by its converted, trimmed text and leaves other values as they were |
| JobParser.DefaultIfFalsy | backend/utils/jobParser.js:131 | one `if (!data.x) data.x = d` statement: the field becomes d when missing or empty, and nothing else changes |
| JobParser.CleanJobData | backend/utils/jobParser.js:117-139 | the object's new fields are the converted, trimmed and defaulted fields of the old ones |
| JobParser.ParseJobFromURL | backend/utils/jobParser.js:6-69 | on a fetch error it fails with 'Failed to parse job from URL: ' and the message; otherwise it gives a new object holding the cleaned record of the extracted fields, with today as posting day |
| JobParser.ParsedJobProperties | backend/utils/jobParser.js:52-63 | a parsed job has the six fields as non-empty text, type and experience derived from the extracted description and requirements, posting day today and deadline in 30 days |
| JobParser.OrElse | backend/utils/jobParser.js:144-151 | `v \|\| d` for a string: the value when it is non-empty, d otherwise |
| JobParser.ParseBulkJobs | backend/utils/jobParser.js:141-158 | gives one cleaned record per input, in the same order |
| JobParser.BulkRecordProperties | backend/utils/jobParser.js:141-158 | each bulk record has the six fields filled, type and experience detected from its description and requirements, and a deadline 30 days out |
| JobParser.BulkIgnoresSuppliedClassification | backend/utils/jobParser.js:143-154 | a supplied type or experience level in a bulk entry never changes the result: both are always recomputed |
| JobController.SalaryCondition | backend/controllers/jobController.js:81-92 | the salary filter exists exactly when the part before the first '-' has a digit; it is a range exactly when the second part has one too, otherwise a minimum; the lower bound is '$' and the digits of the first part, and a range's upper bound is '$' and the digits of the second part |
| JobController.SalaryRange | backend/controllers/jobController.js:82-86 | 'low-high' with digits on both sides gives a between filter on both digit strings |
| JobController.SalaryMinimumOnly | backend/controllers/jobController.js:87-90 | 'low' or 'low-' gives an at-least filter |
| JobController.SalaryMinimumWithoutMaximum | backend/controllers/jobController.js:82-90 | 'low-rest' where the piece after the dash has no digit (as in '50000-USD') gives an at-least filter on the digits of low |
| JobController.SalaryMaximumOnlyIgnored | backend/controllers/jobController.js:82-91 | '-high' with no minimum adds no salary filter at all |
| JobController.SalaryExtraPiecesIgnored | backend/controllers/jobController.js:82 | pieces after the second '-' are ignored |
| JobController.TextFilters | backend/controllers/jobController.js:52-78 | the search term gives an OR of `%term%` over title, description, requirements and company, and the location replaces it with an OR over location; type and experience are exact matches, each present exactly when given |
| JobController.RangeFilters | backend/controllers/jobController.js:81-113 | adds the salary, posted-since, deadline-before and company filters, each exactly when given, and keeps the earlier filters |
| JobController.BuildWhere | backend/controllers/jobController.js:49-113 | the where object holds exactly the filters of the given parameters, and it is empty exactly when no filter is given |
| JobController.CeilDiv | backend/controllers/jobController.js:145 | `Math.ceil(total / limit)`: the smallest page count covering all results; a zero limit gives no number |
| JobController.Paginate | backend/controllers/jobController.js:45-147 | a given page and limit are used as they are, and page defaults to 1 and limit to 10 when absent; the offset is `(page - 1) * limit`, and pages and total follow the count |
| JobController.PageHasResultsIff | backend/controllers/jobController.js:116 | with a positive limit, a page starts before the end of the results exactly when its number is at most the page count |
| JobController.DefaultPagination | backend/controllers/jobController.js:45-46 | without page and limit, the offset is 0 and there are ⌈total/10⌉ pages |
| JobController.TagList | backend/controllers/jobController.js:404 | the tag list has one trimmed entry per comma-separated piece, and no entry holds a comma |
| JobController.TagsWhere | backend/controllers/jobController.js:397-409 | missing or empty tags fail with 'Tags parameter is required'; otherwise the filter is an OR of a LIKE on the tag list for each tag |
| JobController.TagsAreTrimmed | backend/controllers/jobController.js:404 | no tag starts or ends with whitespace |
| JobController.TagListJoin | backend/controllers/jobController.js:404 | when no piece has whitespace at either end, joining the tag list with ',' gives back the parameter |
| JobController.TemplateUsesParserDefaults | backend/controllers/jobController.js:441-452 | each of the six fields is the body's value when truthy and the parser's default otherwise |
| JobController.TemplateCanonical | backend/controllers/jobController.js:441-452 | a template job already satisfies the parser's defaults: filling them changes nothing |
| JobController.TemplateClassificationFromBody | backend/controllers/jobController.js:447-448 | type and experience are taken from the body, with 'Full-time' and 'Not specified' as fallbacks; they are not detected from the text |
| JobController.TemplateDeadline | backend/controllers/jobController.js:449-450 | the posting day is today, and the deadline is the given date or 30 days out |
| JobController.UpdateLoveReactions | backend/controllers/jobController.js:381-384 | the stored count is read with `parseInt` (0 when unreadable), moved by one in the requested direction and stored back as a string that reads back as the new count |
| JobController.StoredCountRoundTrip | backend/controllers/jobController.js:381-384 | a stored count reads back as itself |
| JobController.ReactionsTally | backend/controllers/jobController.js:381-384 | after any sequence of reactions the count is the start plus the increments minus the decrements, and it can go negative |
| JobController.UnreadableCountStartsAtZero | backend/controllers/jobController.js:381 | a missing or non-numeric count counts as 0, so one reaction gives 1 or -1 |
| JobController.SuccessfulJobs | backend/controllers/jobController.js:247 | `filter(job => job !== null)` keeps at most as many entries as it is given |
| JobController.SuccessfulJobsMembers | backend/controllers/jobController.js:247 | every kept job was a non-null outcome, and every non-null outcome is kept |
| JobController.SuccessfulJobsAppend | backend/controllers/jobController.js:247 | filtering distributes over concatenation, so order is preserved |
| JobController.SuccessfulJobsAll | backend/controllers/jobController.js:247 | when nothing failed, nothing is dropped |
| JobController.SuccessfulJobsMirror | backend/controllers/jobController.js:235-247 | the created jobs are, in order, the records of the URLs that parsed |
| JobController.ParseOrNull | backend/controllers/jobController.js:236-244 | a URL that parses becomes a new job with the parsed fields, and a URL that fails becomes null |
| JobController.ParseAll | backend/controllers/jobController.js:235-245 | one outcome per URL, each null exactly when that URL failed |
| JobController.CreateJobsFromURLs | backend/controllers/jobController.js:228-255 | a missing or empty URL list fails with 'Array of URLs is required'; otherwise the reply holds, in order, the jobs of the URLs that parsed, and the message counts them |

## Left out

- Fetching and HTML loading are left out. `axios.get` becomes the `fetch` parameter, and `cheerio.load` plus `.text()` become a map from selector to element texts.
- The HTML-to-text conversion is not modelled. `html-to-text`'s `convert` is an uninterpreted parameter.
- JsText.ToLower: only ASCII letters are lowered. `toLowerCase` also lowers other letters, and U+0130 becomes two characters, so the model's lower-cased text can differ from the real one. The job type that `detectJobType` picks is the same either way. Only U+0130 and U+212A lower to ASCII characters: an 'i' followed by U+0307, and a 'k'. None of the four labels contains a 'k' or an 'i' followed by U+0307.
- The experience rules use the regular expressions' `i` flag. Without the `u` flag this folds non-ASCII letters too (é matches É), but it never equates a non-ASCII character with an ASCII one. Every letter in the five patterns is ASCII, so comparing ASCII-lowered text decides the same matches.
- Dates and time zones are not modelled. Dates are whole day numbers, and `setDate(getDate() + 30)` is adding 30 days.
- One clock reading `now` serves each operation, where the source calls `new Date()` separately for the posting date and the deadline.
- Bulk entries are modelled as optional strings. A non-string value (a number, an object) is not modelled.
- Non-string query and body values are not modelled. Every query parameter of `getAllJobs` and `getJobsByTags` and every body field of `createJobWithTemplate` is an optional string. A repeated query key arrives as an array: `salary.split` and `tags.split` then throw and the handler answers 500, `%${search}%` joins the array with commas, and `where.type` becomes an array. A JSON body may carry numbers: `title: 0` is falsy and becomes 'Untitled Position', while `title: 5` is stored as a number.
- Several parts of `getAllJobs` are left out: the `sortBy`/`sortOrder` ordering, the `count` and `findAll` queries, and the location statistics query. The total count is a parameter.
- JobController.Paginate: `page` and `limit` are integers. The string-to-number coercion of query parameters and `NaN` are not modelled.
- JsText.ParseInt: integers are unbounded. The loss of precision of JavaScript numbers beyond 2^53 and the exponent form of `toString` are not modelled.
- JobController.UpdateLoveReactions: `increment` is a boolean, standing for the truthiness of the request value.
- Database persistence is not modelled. `Job.create` and `job.update` are the in-memory result, their failures and the HTTP status codes are left out, and `Promise.all` over the URLs runs in order.
- JobController.ParseOrNull: a job whose parse succeeds is always stored. The `catch` in `createJobsFromURLs` also turns a rejected `Job.create` into null, and that path is not modelled. backend/models/Job.js declares `category`, `occupation`, `tags` and `lovereactions` with `allowNull: false` and no default, and a parsed record supplies none of them. So in the source every such create would be rejected, and the reply would be 'Successfully created 0 jobs'.
- The remaining endpoints are not part of this model: `createJob`, `getJobById`, `createJobFromURL`, `createBulkJobs`, `getJobsByLocation`, `getJobsByCategory`, `updateJob`, `deleteJob` and `getTodayJobs`. Neither are the other controllers and routes.
- Logging with `console.error` is left out.
