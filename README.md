# Raven crawler core, modelled in Dafny

Raven takes a municipal web site's URL and runs a background job on it. The
job crawls the site for pages about public finance and stores every page it
found in the database. Each stored page carries a relevance score, a guessed
file type and the finance keywords it mentions. This project models three
parts of that core and proves properties about each:

- **The high-value-link spider** (`app/crawler/spiders/high_value_link_spider.py`):
  - the link filter `should_follow_link`;
  - the case-insensitive keyword matcher `extract_keywords`;
  - the file-type fallback `guess_file_type`;
  - the constructor's keyword fallback;
  - the `start_requests`, `parse` and `parse_link` callbacks.
- **The item pipeline** (`app/crawler/pipelines.py`): `ResultCollectorPipeline`.
  It buffers every yielded item and hands the buffer to the spider when the
  spider closes.
- **The job lifecycle** (`app/tasks.py`): `scrape_and_store`. It does four things:
  - commits a PENDING job row;
  - runs the crawl;
  - stores one result row per crawled item, in the same commit that marks
    the job COMPLETE;
  - tries to mark the job FAILED when anything raises (as written, the change is
    lost; see Findings).

The model has these modules:

| module | contents |
|---|---|
| `Wrappers` | `Option` |
| `Text` | ASCII lower-casing, `startswith`, `endswith`, substring `in`, `count` of one character |
| `Sequences` | `zip` and list-comprehension filtering |
| `Settings` | the constants of `app/crawler/settings.py` |
| `Spider` | the spider |
| `SpiderExamples` | concrete consequences of the link filter |
| `Pipelines` | the pipeline |
| `Store` | the `SourcePage` and `TargetPage` tables, and a session whose commit is all-or-nothing |
| `Tasks` | the job |

Some collaborators are outside the model and appear as parameters instead.
They are the foreign libraries (trafilatura, `urljoin`, `mimetypes`, the
language-model score), the crawl as a whole (`run_spider`), the ids that
`uuid4` returns, and whether the database accepts a commit. The model
assumes nothing about them beyond their types.

The code stores every crawl result, whatever its score. It has no minimum
relevance score, so the model has none either.

## Model

| member | source | states |
|---|---|---|
| Text.ContainsIff | app/crawler/spiders/high_value_link_spider.py:94 | Python's substring test holds exactly when the pattern occurs at some position of the text |
| Text.NotContainsMissingChar | app/crawler/spiders/high_value_link_spider.py:94 | a pattern that has a character the text lacks is not contained in the text |
| Text.CountPositiveIff | app/crawler/spiders/high_value_link_spider.py:97 | a character's count is positive exactly when the character occurs |
| Text.CountAboveOneIff | app/crawler/spiders/high_value_link_spider.py:97 | `link.count('?') > 1` holds exactly when '?' occurs at two distinct positions |
| Sequences.Zip | app/crawler/spiders/high_value_link_spider.py:35 | `zip` pairs elements by position and stops at the shorter list |
| Sequences.Filter | app/crawler/spiders/high_value_link_spider.py:73 | filtering never lengthens a list |
| Sequences.FilterCount | app/crawler/spiders/high_value_link_spider.py:73 | a kept value keeps all its occurrences; any other value keeps none |
| Sequences.FilterIsSubsequence | app/crawler/spiders/high_value_link_spider.py:73 | filtering keeps the relative order of what it keeps |
| Sequences.FilterMembership | app/crawler/spiders/high_value_link_spider.py:73 | a value is in the filtered list exactly when it is in the input and passes the test |
| Sequences.FilterSnoc | app/crawler/spiders/high_value_link_spider.py:35-39 | filtering a list extended by one element extends the filtered list by that element exactly when it passes |
| Spider.AnyEndsWithIff | app/crawler/spiders/high_value_link_spider.py:81 | the `any(link.endswith(ext) ...)` test holds exactly when some listed extension is a suffix of the link |
| Spider.AnyOccursInIff | app/crawler/spiders/high_value_link_spider.py:90 | the `any(word in text ...)` test holds exactly when some listed word occurs in the text |
| Spider.ShouldFollowLinkIff | app/crawler/spiders/high_value_link_spider.py:79-99 | a link is followed exactly when all five rules pass: no ignored extension (case-sensitive); no leading '#', 'mailto:' or 'tel:'; no skip word in the lower-cased anchor text, checked only when the text is non-empty; no social-media domain in the link; at most one '?' |
| Spider.ExtractKeywords | app/crawler/spiders/high_value_link_spider.py:72-73 | the matched keywords are a subsequence of the target keywords, in their order; a keyword is matched exactly when it occurs in the text, ignoring case; a matching keyword keeps its multiplicity |
| Spider.Truncate | app/crawler/spiders/high_value_link_spider.py:45 | slicing to 4000 gives a prefix of the text, of length min(length, 4000) |
| Spider.GuessFileType | app/crawler/spiders/high_value_link_spider.py:75-77 | the file type is never empty; it is the guessed type when there is a non-empty one, and "html" otherwise |
| Spider.FollowedPairsSound | app/crawler/spiders/high_value_link_spider.py:33-37 | the followed (link, text) pairs are an ordered selection of the zipped anchors; each anchor pair is in it exactly when the filter accepts it |
| Spider.HighValueLinkSpider.constructor | app/crawler/spiders/high_value_link_spider.py:21-25 | one start URL; a missing or empty keyword list falls back to the default keywords, so the keyword list is never empty |
| Spider.HighValueLinkSpider.StartRequests | app/crawler/spiders/high_value_link_spider.py:28-30 | one request per start URL, in order, each handled by `parse` |
| Spider.HighValueLinkSpider.Parse | app/crawler/spiders/high_value_link_spider.py:32-39 | one `parse_link` request per followable anchor pair, in anchor order, for the link resolved against the page URL; never more requests than zipped pairs |
| Spider.HighValueLinkSpider.ParseLink | app/crawler/spiders/high_value_link_spider.py:42-53 | no item when extraction finds no text or scoring raises; otherwise: the text is the extracted text capped at 4000 characters; the score and keywords are computed from that capped text; the URL is the page's; the file type comes from the guess with its "html" fallback |
| SpiderExamples.NoIgnoredExtension | app/crawler/settings.py:11 | every ignored extension ends in 'g', 'f' or 's' |
| SpiderExamples.NoQuestionMark | app/crawler/spiders/high_value_link_spider.py:97-98 | a link without '?' never trips the query-parameter rule |
| SpiderExamples.NoSkipWordWithout | app/crawler/spiders/high_value_link_spider.py:86-89 | every skip word contains one of l, s, r, p, c, a, h |
| SpiderExamples.NoNavPatternWithout | app/crawler/spiders/high_value_link_spider.py:93 | every navigation pattern contains 'm', so a link without 'm' matches none |
| SpiderExamples.MailtoRejected | app/crawler/spiders/high_value_link_spider.py:83-84 | a `mailto:` link is dropped whatever its anchor text |
| SpiderExamples.FragmentRejected | app/crawler/spiders/high_value_link_spider.py:83-84 | a `#` fragment link is dropped whatever its anchor text |
| SpiderExamples.PngRejected | app/crawler/spiders/high_value_link_spider.py:81-82 | a `.png` link is dropped whatever its anchor text |
| SpiderExamples.UpperCasePngFollowed | app/crawler/spiders/high_value_link_spider.py:81-82 | a `.PNG` link without anchor text is followed, because the extension test is case-sensitive |
| SpiderExamples.UpperCaseSkipWordRejected | app/crawler/spiders/high_value_link_spider.py:90-91 | an anchor reading "LOGIN" is dropped, because skip words match after lower-casing |
| SpiderExamples.FollowedWithout | app/crawler/spiders/high_value_link_spider.py:79-99 | a sufficient condition on letters for a link to pass all five rules |
| SpiderExamples.BudgetLinkFollowed | app/crawler/spiders/high_value_link_spider.py:79-99 | a plain content link whose anchor reads "Budget" is followed |
| Pipelines.ResultCollectorPipeline.constructor | app/crawler/pipelines.py:5-6 | a new collector holds no items |
| Pipelines.ResultCollectorPipeline.ProcessItem | app/crawler/pipelines.py:8-10 | the item is appended at the end, the earlier items are unchanged, and the same item is passed on |
| Pipelines.ResultCollectorPipeline.CloseSpider | app/crawler/pipelines.py:12-13 | the spider's collected items become exactly the buffered items; the collector is unchanged |
| Pipelines.CollectAll | app/crawler/pipelines.py:1-13 | after processing the yielded items and closing, the spider holds exactly those items, in yield order |
| Store.Inserts | app/tasks.py:50 | one insertion per result row, in order |
| Store.ApplyInserts | app/tasks.py:41-52 | a batch of result insertions commits exactly when the new ids are pairwise distinct and unused; it then appends the rows in order and leaves the job table alone |
| Store.FreshIdsCons | app/tasks.py:43 | freshness of a batch of ids, checked one row at a time |
| Store.Session.constructor | app/tasks.py:26 | a new session has nothing staged and tracks no rows |
| Store.Session.AddJob | app/tasks.py:27 | adding a job row stages its insertion |
| Store.Session.AddResult | app/tasks.py:50 | adding a result row stages its insertion |
| Store.Session.FindSource | app/tasks.py:36-38 | the lookup by uid returns the committed row, or none; a found row becomes tracked |
| Store.Session.AssignStatus | app/tasks.py:39 | assigning a status stages an update only for a row this session tracks |
| Store.Session.Commit | app/tasks.py:52 | the staged changes take effect all together, or, on a constraint violation or database fault, not at all |
| Store.Session.Close | app/tasks.py:35-52 | leaving the `with` block drops uncommitted changes and detaches the loaded rows |
| Tasks.ResultRows | app/tasks.py:41-49 | one result row per crawl result, in order; the i-th takes the i-th id drawn from `uuid4`, belongs to the job, and copies the URL, file type, score and keywords of its result |
| Tasks.StoredResultsConsistent | app/tasks.py:39-52 | marking the job and appending its fresh rows keeps every key, foreign key and id-uniqueness constraint |
| Tasks.CreateJob | app/tasks.py:22-28 | the PENDING job row is committed exactly when the database accepts it and the uid is new; otherwise nothing changes |
| Tasks.StoreResults | app/tasks.py:35-52 | a missing job raises and changes nothing. Otherwise the job becomes COMPLETE and all rows are appended in one commit, which succeeds exactly when the database accepts it and the ids are fresh; a failed commit changes nothing. `result_count` is the number of crawl results |
| Tasks.RunJob | app/tasks.py:19-54 | the `try` block, case by case: job row not created (nothing stored); crawl raised (job left PENDING, no results); results stored with the job COMPLETE; results commit failed (job left PENDING) |
| Tasks.MarkFailed | app/tasks.py:57-63 | with the handler as intended, an existing job row becomes FAILED and nothing else changes |
| Tasks.MarkFailedAsWritten | app/tasks.py:58-62 | as written, the handler changes nothing in the database |
| Tasks.ScrapeAndStore | app/tasks.py:18-63 | with the handler as intended: success exactly when the job row is new, both commits are accepted, the crawl succeeds and the ids are fresh. On success the job is COMPLETE with one row per result; on failure no result row is stored, a job row created by this run is FAILED with its URL, and a pre-existing row changes only its status. The job never ends PENDING, other jobs are untouched, and table consistency is preserved |
| Tasks.ScrapeAndStoreAsWritten | app/tasks.py:18-63 | as written: the same success behaviour; on failure the tables are exactly as before, except that a job row created before the failure stays PENDING |
| Tasks.CrawlFailureOutcome | app/tasks.py:57-63 | when a crawl raises on an empty database, the code as written leaves the job PENDING and the intended handler leaves it FAILED |

## Left out

- Network access, Scrapy's scheduler, duplicate filtering, `DEPTH_LIMIT`, `DOWNLOAD_DELAY` and robots.txt handling (app/crawler/settings.py:7-10) are left out. The crawl is modelled by `Tasks.Crawl`, the result of `run_spider`, and by the per-page callbacks.
- `rank_relevance` is left out: it calls a remote language model and parses a float. The model takes it as the `rankRelevance` field of `Spider.Libraries`, with `None` standing for an exception. The `-1.0` placeholder for an empty reply belongs to that foreign function. Floating point is modelled as `real`.
- `trafilatura.extract`, `urljoin` and `mimetypes.guess_type` are left out. They are parameters of `Spider.Libraries`, and nothing is assumed about them.
- The CSS selectors `a::attr(href)` and `a::text` are left out. `Spider.Response` carries their two result lists. An anchor without text makes the text list shorter, so `zip` then pairs a link with another anchor's text. The model keeps this positional pairing as the code does (`Sequences.Zip`).
- `Text.Lower`: lower-casing covers ASCII only. Python's full Unicode case mapping is not modelled.
- `app/crawler/run_spider.py`, `app/main.py`, `app/testing.py`, `app/celeryconfig.py`, the secrets and the engine setup are left out. They are I/O, configuration and entry points outside the core. The result collection of `run_spider` is summarised by `Tasks.Crawl`.
- `Pipelines.ResultCollectorPipeline.CloseSpider`: the spider receives a copy of the item sequence. The aliasing of the Python list between the pipeline and the spider is not captured.
- `Tasks.MarkFailed`: the handler's own commit is assumed to be accepted. A fault in the handler itself would escape the task, and that is not modelled.
- `Tasks.TaskReturn`: the error is a tag naming the step that raised, not the text of `str(e)`.
- Converting the Celery request id with `uuid.UUID` (app/tasks.py:20) is left out. A malformed id would make the handler itself fail, since `task_id` would be unbound. The model takes `taskId` as an already-parsed value.
- `Store` models UUIDs as natural numbers, compared only for equality. It enforces primary keys but not the foreign key from a result to its job, following SQLite's default. The foreign key is stated instead as part of `Store.Consistent`, which `Tasks.ScrapeAndStore` preserves.
- The status strings are the three values `Pending`, `Complete` and `Failed`. Other strings that the `status` column would accept are not modelled.

## Findings

| source | as written | input that shows it | evidently intended | confidence | as-written member | corrected member |
|---|---|---|---|---|---|---|
| app/tasks.py:58-62 | The `with Session` block closes right after the lookup. The status is then set on a detached row, and the commit that follows writes nothing. | The job row is committed, then `run_spider` raises. | The job row ends FAILED. | not executed; high | Tasks.MarkFailedAsWritten, Tasks.ScrapeAndStoreAsWritten, Tasks.CrawlFailureOutcome | Tasks.MarkFailed, Tasks.ScrapeAndStore |
