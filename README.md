# A verified model of the portfolio content pipeline

This project models, in Dafny, the content curation pipeline of the
`portfolio-theo` site and the two file-backed stores the site reads. The
pipeline pulls articles from RSS feeds, classifies them by topic, drops the
ones already handled, asks a text generator for blog and social posts,
cleans and validates what comes back and writes it to disk. A review queue
then lets an editor approve, reject or clean drafts.

One module models each source file:

| module | source file |
|---|---|
| `Sources` | `scripts/content-generator/feeds/sources.ts` (the feed table and the topic keyword table) |
| `Classifier` | `matchesTopic` and `detectTopics`, which `run-daily.ts` and `curate.ts` both define, identically |
| `Ledger` | `utils/deduplication.ts`: the fingerprint ledger `.content-cache.json`, as the class `ContentCache` |
| `Validator` | `utils/validator.ts`: metrics, verdicts, the directory check and `cleanContent` |
| `ReviewQueue` | `review-queue.ts`: the front-matter parser, `updateStatus`, the draft list, the review actions and `publishApproved` |
| `Ingestion` | the feed loop and the duplicate filter shared by `run-daily.ts` and `curate.ts` |
| `RunDaily` | `run-daily.ts`: arguments, search mode, the cap, the dry run and the isolated per-article loop |
| `Curate` | `curate.ts`: arguments, output selection and the loop that stops at the first failure |
| `FromUrl`, `Html` | `from-url.ts`: arguments, the HTML-to-text chain, prompt filling and the writes |
| `CopyReview` | `copy-review.ts`: the report formatter, the fallback results and the `--drafts` filter |
| `Content` | `src/lib/content.ts`: post lookup, defaults, slugs and the post listing |
| `Topics` | `src/app/api/admin/topics/route.ts`: the topic list behind GET, POST, PUT and DELETE |

`Pipeline` holds the disk shared by the three scripts: the blog folder, the
social folder and the ledger, in a `Workspace` class with write methods.
`JsString` models the JavaScript string operations the sources use:
`toLowerCase`, `includes`, `indexOf`, `replace` with a string (first
match only) and with a global pattern, `trim`, `split`, `join`, `slice` and
`parseInt`. `Sorting` is an insertion sort that specifies `Array.sort` with
a comparator. `Files` models a folder as a map from file name to text, with
a `readdirSync` listing given as a sequence. `Wrappers` holds `Option`.

The code that mutates state is modelled as methods and classes. The
ledger, the workspace, the review queue's folders and the topic store are
classes whose fields the methods reassign. The loops of the sources
(argument parsing, the feed and item loops, keyword scans, phrase search,
report building, draft listing and publishing) are `while` loops with
invariants. Each is proved equal to a function that states the whole
outcome, and the properties are lemmas about those functions.

The text generator, the feed fetcher, the clock, `slugify`, md5,
`gray-matter`, `JSON.parse`, JavaScript date parsing and `new URL(...)`
are parameters of the model. A generator is a function from the request
number and the prompt to a reply that is text or a failure. That covers
the backend's own failures: no key (`utils/grok.ts:51-53`), a status that
is not OK (`utils/grok.ts:90-93`) and a reply with no choices
(`utils/grok.ts:97-99`).

## Model

| member | source | states |
|---|---|---|
| Sources.FeedsWellFormed | portfolio-theo/scripts/content-generator/feeds/sources.ts:8-124 | every feed has a non-empty name, an https URL and at least one topic tag |
| Sources.TopicOrder | portfolio-theo/scripts/content-generator/feeds/sources.ts:127-134 | the keyword table has exactly the six topics seo, cro, speed, ai, shopify, development, in that order |
| Sources.UnlistedTagsHaveNoKeywords | portfolio-theo/scripts/content-generator/feeds/sources.ts:127-134 | the tags ecommerce, performance, business, conversion, ux, llm and design have no keyword list |
| Sources.UnlistedTagsAreFeedTags | portfolio-theo/scripts/content-generator/feeds/sources.ts:15-122 | each of those tags is used by some feed |
| Sources.CheckoutListedTwice | portfolio-theo/scripts/content-generator/feeds/sources.ts:129-132 | 'checkout' is a keyword of both cro and shopify |
| Sources.KeywordsAreLower | portfolio-theo/scripts/content-generator/feeds/sources.ts:128-133 | every keyword is already lower case |
| Sources.LookupIn | portfolio-theo/scripts/content-generator/feeds/sources.ts:127-134 | a record lookup gives nothing exactly when no row has the key, and otherwise the list of a row with that key |
| Sources.KeyNames | portfolio-theo/scripts/content-generator/feeds/sources.ts:127-134 | `Object.keys` gives the row names in declaration order, one per row |
| Classifier.FindHit | portfolio-theo/scripts/content-generator/run-daily.ts:93-98 | the keyword loop stops with true exactly when one of the keywords occurs in the lower-cased text |
| Classifier.MatchesIn | portfolio-theo/scripts/content-generator/run-daily.ts:91-100 | the topic loop is true exactly when some requested topic has a keyword (or, if the topic is unlisted, its own name) in the text |
| Classifier.MatchesTopic | portfolio-theo/scripts/content-generator/run-daily.ts:88-101 | `matchesTopic` is true whenever 'all' is requested, and otherwise exactly when some requested topic matches |
| Classifier.UnlistedTagMatchesItself | portfolio-theo/scripts/content-generator/run-daily.ts:93 | a topic without a keyword list matches exactly when its own name occurs in the text, ignoring case |
| Classifier.ListedTopicMatchesKeywords | portfolio-theo/scripts/content-generator/run-daily.ts:91-100 | a declared topic matches exactly when one of its keywords, as written, occurs in the lower-cased text |
| Classifier.DetectIn | portfolio-theo/scripts/content-generator/run-daily.ts:107-115 | the detection loop collects, in table order, the rows with a keyword in the text |
| Classifier.DetectTopics | portfolio-theo/scripts/content-generator/run-daily.ts:103-119 | `detectTopics` returns the detected topics of the keyword table, or `['general']` when there are none |
| Classifier.DetectedIff | portfolio-theo/scripts/content-generator/run-daily.ts:107-115 | a declared topic is reported exactly when one of its keywords occurs in the text, ignoring case |
| Classifier.GeneralIffNothingHits | portfolio-theo/scripts/content-generator/run-daily.ts:118 | `['general']` is reported exactly when no keyword of any topic occurs |
| Classifier.DetectedOrderedAndDistinct | portfolio-theo/scripts/content-generator/run-daily.ts:103-119 | reported topics follow the declaration order of the table, and none is reported twice |
| Classifier.CheckoutIsCroAndShopify | portfolio-theo/scripts/content-generator/feeds/sources.ts:129-132 | a text mentioning 'checkout' is classified as both cro and shopify |
| Classifier.TopicNamesDistinct | portfolio-theo/scripts/content-generator/feeds/sources.ts:127-134 | the keyword table has no repeated topic name and no topic named 'general' or 'all' |
| Ledger.FingerprintIgnoresPadding | portfolio-theo/scripts/content-generator/utils/deduplication.ts:25-28 | white space around the title or the source never changes a fingerprint |
| Ledger.FingerprintIgnoresCase | portfolio-theo/scripts/content-generator/utils/deduplication.ts:25-28 | texts that agree once lower-cased have the same fingerprint |
| Ledger.Load | portfolio-theo/scripts/content-generator/utils/deduplication.ts:33-48 | a version-1 file loads its entries; a missing or corrupt file, or any other version, loads as empty |
| Ledger.Trimmed | portfolio-theo/scripts/content-generator/utils/deduplication.ts:61-64 | the eviction keeps `min(n, 500)` entries, the newest ones, as a suffix |
| Ledger.SaveKeepsNewest | portfolio-theo/scripts/content-generator/utils/deduplication.ts:53-67 | after any save, the next load gives the newest `min(n, 500)` entries in insertion order |
| Ledger.ContentCache.IsDuplicate | portfolio-theo/scripts/content-generator/utils/deduplication.ts:72-81 | an article is a duplicate exactly when the loaded ledger holds its fingerprint |
| Ledger.ContentCache.SaveCache | portfolio-theo/scripts/content-generator/utils/deduplication.ts:53-67 | the file becomes a version-1 ledger with the trimmed entries |
| Ledger.ContentCache.MarkAsProcessed | portfolio-theo/scripts/content-generator/utils/deduplication.ts:86-109 | the file becomes the marked ledger; the lemmas below say what that holds |
| Ledger.MarkExistingIsNoOp | portfolio-theo/scripts/content-generator/utils/deduplication.ts:92-98 | marking an article already recorded leaves the file exactly as it was, so the first write wins |
| Ledger.MarkThenDuplicate | portfolio-theo/scripts/content-generator/utils/deduplication.ts:100-108 | after marking, the article is a duplicate, and a new entry is the last one, so the same save cannot evict it |
| Ledger.MarkIdempotent | portfolio-theo/scripts/content-generator/utils/deduplication.ts:86-109 | marking the same article twice is marking it once |
| Ledger.MarkKeepsHashesUnique | portfolio-theo/scripts/content-generator/utils/deduplication.ts:96-106 | when every write goes through marking, no two entries share a fingerprint |
| Ledger.TallyExact | portfolio-theo/scripts/content-generator/utils/deduplication.ts:121-124 | the per-source counts are exact, name each source once, and add up to the number of entries |
| Ledger.LastProcessedAt | portfolio-theo/scripts/content-generator/utils/deduplication.ts:126-130 | the newest entry's timestamp, or null when there is no entry or its timestamp is empty |
| Ledger.StatsConsistent | portfolio-theo/scripts/content-generator/utils/deduplication.ts:114-133 | the total is the number of entries, the per-source counts add up to it, and an empty ledger has no last timestamp |
| Ledger.ContentCache.GetCacheStats | portfolio-theo/scripts/content-generator/utils/deduplication.ts:114-133 | the counting loop yields the statistics of the loaded ledger |
| Ledger.ContentCache.ClearCache | portfolio-theo/scripts/content-generator/utils/deduplication.ts:138-143 | the file is removed |
| Ledger.ClearThenEmpty | portfolio-theo/scripts/content-generator/utils/deduplication.ts:138-143 | after clearing, the next load is empty and the statistics are all zero |
| Validator.FrontmatterIff | portfolio-theo/scripts/content-generator/utils/validator.ts:34-49 | front matter is detected exactly when the text opens with `---` and has another `---` at index 4 or later |
| Validator.FrontmatterThenBody | portfolio-theo/scripts/content-generator/utils/validator.ts:34-38 | with front matter, the text is its front matter followed by its body |
| Validator.WordCountJoin | portfolio-theo/scripts/content-generator/utils/validator.ts:43 | words joined by single spaces are counted one each |
| Validator.StatusLineRecognised | portfolio-theo/scripts/content-generator/utils/validator.ts:39 | a `status:` field with value draft, review or published, quoted or not, is recognised wherever it stands |
| Validator.CaptureOfQuotedLine | portfolio-theo/scripts/content-generator/utils/validator.ts:40-41 | for the first line `<key> "<text>"` of a key ending in its only colon (`title:`, `description:`), the measured length is the length of the text |
| Validator.FindPhrases | portfolio-theo/scripts/content-generator/utils/validator.ts:59-70 | the phrase loop yields the phrases of the list found in the lower-cased text, in list order |
| Validator.AIPhrasesFound | portfolio-theo/scripts/content-generator/utils/validator.ts:59-70 | an AI phrase is reported exactly when it occurs, ignoring case, and reports follow the order of the list |
| Validator.ValidateContentWith | portfolio-theo/scripts/content-generator/utils/validator.ts:75-128 | the pushes of `validateContent` yield the verdict of the text |
| Validator.ValidIffNoErrors | portfolio-theo/scripts/content-generator/utils/validator.ts:76-103 | a text is valid exactly when it has no error; warnings never block |
| Validator.ErrorCases | portfolio-theo/scripts/content-generator/utils/validator.ts:84-103 | each error is raised exactly in its case: no front matter, an emoji, fewer than 100 words, more than 2000 words |
| Validator.WordCountBoundaries | portfolio-theo/scripts/content-generator/utils/validator.ts:95-103 | 100 and 2000 words raise no length error, while 99 and 2001 do |
| Validator.WarningCases | portfolio-theo/scripts/content-generator/utils/validator.ts:105-125 | each warning is raised exactly in its case: a typographic glyph, an AI phrase, a title over 60, a description over 155, no status |
| Validator.ValidateFile | portfolio-theo/scripts/content-generator/utils/validator.ts:133-150 | an existing file gets the verdict of its text, and a missing one is invalid with the single error `File not found` |
| Validator.ValidateDirectory | portfolio-theo/scripts/content-generator/utils/validator.ts:155-170 | a missing directory gives no result, and otherwise one result per `.md`/`.mdx` file in listing order |
| Validator.ValidateFiles | portfolio-theo/scripts/content-generator/utils/validator.ts:164-167 | the file loop yields one verdict per selected file, in order, under the directory joined with the name (without `path.join`'s normalisation) |
| Validator.DirectoryCoverage | portfolio-theo/scripts/content-generator/utils/validator.ts:155-170 | every `.md` and `.mdx` file of the directory is validated once, in listing order, and nothing else is |
| Validator.CleanContent | portfolio-theo/scripts/content-generator/utils/validator.ts:175-190 | the chain of reassignments yields the per-character rewrite of the text |
| Validator.CleanChainSteps | portfolio-theo/scripts/content-generator/utils/validator.ts:177-189 | the global replacements, in source order, compose to the character chain |
| Validator.ChainIsCleaned | portfolio-theo/scripts/content-generator/utils/validator.ts:177-189 | the chain maps curly quotes to straight quotes, the ellipsis to `...`, the em dash to ` - `, the en dash and the bullet to `-`, and drops emoji |
| Validator.CleanedIsClean | portfolio-theo/scripts/content-generator/utils/validator.ts:175-190 | cleaned text holds no emoji-range code point and no typographic glyph |
| Validator.CleanedOfClean | portfolio-theo/scripts/content-generator/utils/validator.ts:175-190 | clean text is left as it is |
| Validator.CleanedIdempotent | portfolio-theo/scripts/content-generator/utils/validator.ts:175-190 | cleaning twice is cleaning once |
| Validator.CleanedPassesGlyphChecks | portfolio-theo/scripts/content-generator/utils/validator.ts:90-108 | cleaned text never raises the emoji error or the special-character warning |
| ReviewQueue.ParseFrontmatter | portfolio-theo/scripts/content-generator/review-queue.ts:28-48 | the line loop yields the front-matter map of the text |
| ReviewQueue.ParseLines | portfolio-theo/scripts/content-generator/review-queue.ts:34-48 | the loop over the block's lines keeps, for every line with a key before its first colon, the unquoted trimmed value, a later line overwriting an earlier one with the same key |
| ReviewQueue.BlockIff | portfolio-theo/scripts/content-generator/review-queue.ts:28-29 | the block is found exactly when the text opens with `---` and a line break and some line break at or after the end of that opening is followed by `---`, whatever follows the three dashes on that line (`----` and `--- notes` close it too) |
| ReviewQueue.NoBlockNoFields | portfolio-theo/scripts/content-generator/review-queue.ts:29 | without the fences there are no fields |
| ReviewQueue.FieldOfIgnored | portfolio-theo/scripts/content-generator/review-queue.ts:35-36 | a line is ignored exactly when it has no colon or starts with one |
| ReviewQueue.UnquoteQuoted | portfolio-theo/scripts/content-generator/review-queue.ts:40-44 | a value written in matching quotes loses them |
| ReviewQueue.FieldsKeys | portfolio-theo/scripts/content-generator/review-queue.ts:32-48 | a key is present exactly when some line gives it |
| ReviewQueue.FieldsLastWins | portfolio-theo/scripts/content-generator/review-queue.ts:46 | a key's value comes from the last line giving that key |
| ReviewQueue.StatusLineRewritten | portfolio-theo/scripts/content-generator/review-queue.ts:56-65 | the first status line, quoted or not, after a prefix holding no `status:` in any case, becomes `status: "<new>"` and nothing else changes |
| ReviewQueue.RewriteToSameStatus | portfolio-theo/scripts/content-generator/review-queue.ts:56-65 | rewriting the first `status: "<w>"`, after a prefix holding no `status:` in any case, to `w` itself leaves the text as it is |
| ReviewQueue.StatusInsertedAfterDate | portfolio-theo/scripts/content-generator/review-queue.ts:66-72 | without any `status:` text, a status line is inserted right after the first `date:` line, whatever other fields come before it |
| ReviewQueue.UpdateStatusKeepsClean | portfolio-theo/scripts/content-generator/review-queue.ts:56-72 | glyph-free text with a glyph-free status stays glyph-free |
| ReviewQueue.MdxFiles | portfolio-theo/scripts/content-generator/review-queue.ts:84 | the listing filtered to the names ending in `.mdx` |
| ReviewQueue.DraftOfCases | portfolio-theo/scripts/content-generator/review-queue.ts:87-106 | a post is left out exactly when its lower-cased status is `published`; a listed draft carries its slug, path, status and verdict |
| ReviewQueue.DraftDefaults | portfolio-theo/scripts/content-generator/review-queue.ts:92-100 | a post without front matter is listed as an untitled, uncategorised draft |
| ReviewQueue.DraftsMembers | portfolio-theo/scripts/content-generator/review-queue.ts:84-113 | `getDrafts` lists exactly the unpublished `.mdx` posts of the folder |
| ReviewQueue.DraftsOrdered | portfolio-theo/scripts/content-generator/review-queue.ts:110 | the draft list is newest first and a permutation of the unsorted entries |
| ReviewQueue.ReviewQueue.GetDrafts | portfolio-theo/scripts/content-generator/review-queue.ts:84-113 | the listing loop yields the draft list of the folder |
| ReviewQueue.CollectDrafts | portfolio-theo/scripts/content-generator/review-queue.ts:87-107 | the file loop yields, in listing order, one entry for each file whose status is not published, with its title, date and category defaults and its validation verdict, and no other entry |
| ReviewQueue.ReviewQueue.ReviewDraft | portfolio-theo/scripts/content-generator/review-queue.ts:122-148 | the folders and the reply become those of the review action |
| ReviewQueue.ReviewedNotFound | portfolio-theo/scripts/content-generator/review-queue.ts:122-126 | a review succeeds exactly when the draft's file exists; otherwise nothing changes and the reply names the slug |
| ReviewQueue.ReviewedFrame | portfolio-theo/scripts/content-generator/review-queue.ts:128-152 | only the draft's file is touched: approve and clean rewrite it, reject moves it unchanged to the archive |
| ReviewQueue.RejectThenNotFound | portfolio-theo/scripts/content-generator/review-queue.ts:122-140 | after a reject, every later review of that slug is not found and changes nothing |
| ReviewQueue.CleanActionGlyphFree | portfolio-theo/scripts/content-generator/review-queue.ts:142-148 | after the clean action, the file raises neither the emoji error nor the special-character warning |
| ReviewQueue.ApproveMarksPublished | portfolio-theo/scripts/content-generator/review-queue.ts:129-131 | approving a draft whose first status line, quoted or not, follows a prefix holding no `status:` in any case marks that line `status: "published"` and changes nothing else; approving again changes nothing |
| ReviewQueue.PublishPartition | portfolio-theo/scripts/content-generator/review-queue.ts:158-173 | every draft is published if it is in review without errors, and skipped otherwise; every published slug is a ready draft's and every skipped slug a non-ready draft's; the two lists partition the drafts |
| ReviewQueue.ApproveAllFrame | portfolio-theo/scripts/content-generator/review-queue.ts:163-170 | publishing touches only the published drafts' files, keeps every file name, and leaves the archive alone |
| ReviewQueue.ReviewQueue.PublishApproved | portfolio-theo/scripts/content-generator/review-queue.ts:158-173 | the two lists are the published and skipped slugs of the draft list, and only the published ones are approved |
| Ingestion.ReadFeed | portfolio-theo/scripts/content-generator/run-daily.ts:137-153 | the item loop yields the accepted items of one feed |
| Ingestion.FetchAllFeeds | portfolio-theo/scripts/content-generator/run-daily.ts:121-161 | the feed loop yields the sorted collection of the selected feeds' accepted items |
| Ingestion.ReadFeeds | portfolio-theo/scripts/content-generator/run-daily.ts:128-157 | the loop over the feed list collects, in feed order, the accepted items of every selected feed whose fetch succeeds, skipping unselected and failing feeds |
| Ingestion.FailingFeedSkipped | portfolio-theo/scripts/content-generator/run-daily.ts:134-156 | a feed whose fetch throws gives nothing, and the feeds after it are still read |
| Ingestion.UnselectedFeedSkipped | portfolio-theo/scripts/content-generator/run-daily.ts:128-132 | a feed sharing no tag with the filter is skipped, unless 'all' is asked for |
| Ingestion.FetchAllMembers | portfolio-theo/scripts/content-generator/run-daily.ts:121-161 | the items are exactly the accepted items of the readable selected feeds, labelled with the feed's name and detected topics |
| Ingestion.FetchAllNewestFirst | portfolio-theo/scripts/content-generator/run-daily.ts:159 | the list is newest first and a permutation of what the feeds gave |
| Ingestion.RecencyCases | portfolio-theo/scripts/content-generator/run-daily.ts:123-139 | an undated item counts as new; a NaN day count drops nothing; otherwise an item is kept when not older than `daysBack` fixed-length days before now |
| Ingestion.TopicListNormalised | portfolio-theo/scripts/content-generator/run-daily.ts:73 | the `--topics` value gives one trimmed, lower-case, comma-free topic per comma-separated piece |
| Ingestion.FilterNew | portfolio-theo/scripts/content-generator/run-daily.ts:254 | the duplicate loop yields the items the ledger does not hold |
| Ingestion.NewItemsExactlyUnseen | portfolio-theo/scripts/content-generator/run-daily.ts:254 | the filter keeps exactly the unseen items, in order |
| Sorting.SortDescSorted | portfolio-theo/scripts/content-generator/run-daily.ts:159 | the comparator sort yields a list ordered newest first |
| Sorting.SortDescStable | portfolio-theo/scripts/content-generator/run-daily.ts:159 | the sort is stable: for every key, the elements with that key come out in their input order, so ties in the later cut (run-daily.ts:264, curate.ts:153) are decided by collection order |
| Sorting.SortDescPermutes | portfolio-theo/scripts/content-generator/run-daily.ts:159 | the comparator sort neither loses nor adds an element |
| RunDaily.ParseArgs | portfolio-theo/scripts/content-generator/run-daily.ts:58-86 | the index loop yields the configuration the flags describe, starting from articles 2, topics all, days 3, no dry run, no search |
| RunDaily.FlagWithoutValueSkipped | portfolio-theo/scripts/content-generator/run-daily.ts:68-83 | a value flag with nothing usable after it is skipped on its own |
| RunDaily.ArticlesFlag | portfolio-theo/scripts/content-generator/run-daily.ts:69-71 | `--articles n` sets the article count to n |
| RunDaily.DaysFlag | portfolio-theo/scripts/content-generator/run-daily.ts:75-77 | `--days n` sets the look-back window to n days |
| RunDaily.ValueFlagTakesNext | portfolio-theo/scripts/content-generator/run-daily.ts:69-71 | a value flag takes the next argument even when it looks like a flag, so the count becomes NaN |
| RunDaily.ParsedTopicsNormal | portfolio-theo/scripts/content-generator/run-daily.ts:72-74 | every requested topic is trimmed, lower case and free of commas |
| RunDaily.FetchWithSearch | portfolio-theo/scripts/content-generator/run-daily.ts:204-225 | search mode yields the search results, topics detected from title and summary |
| Pipeline.SlugCut | portfolio-theo/scripts/content-generator/run-daily.ts:293 | a cut slug is a prefix of the slugified text of at most n characters |
| Pipeline.SocialFilesDistinct | portfolio-theo/scripts/content-generator/run-daily.ts:311-312 | the LinkedIn file and the tweet file never share a name |
| Pipeline.Workspace.WriteBlog | portfolio-theo/scripts/content-generator/run-daily.ts:295 | a post write replaces one file of the blog folder and nothing else |
| Pipeline.Workspace.WriteSocial | portfolio-theo/scripts/content-generator/run-daily.ts:311-312 | a social write replaces one file of the social folder and nothing else |
| RunDaily.CapAfterDedupe | portfolio-theo/scripts/content-generator/run-daily.ts:254-264 | the run takes the first `articles` items the ledger does not hold, or all of them when fewer remain |
| RunDaily.ProcessOne | portfolio-theo/scripts/content-generator/run-daily.ts:290-318 | the `try` block yields the disk and outcome of one article |
| RunDaily.ProcessItems | portfolio-theo/scripts/content-generator/run-daily.ts:287-323 | the loop yields the disk and both counters of processing the chosen articles |
| RunDaily.Run | portfolio-theo/scripts/content-generator/run-daily.ts:227-340 | the script yields the disk and outcome of the run |
| RunDaily.CountsAddUp | portfolio-theo/scripts/content-generator/run-daily.ts:284-323 | every chosen article is counted once, as a success or an error, so a failure never stops later articles |
| RunDaily.MarkedOnlyAfterWrites | portfolio-theo/scripts/content-generator/run-daily.ts:290-317 | an article succeeds exactly when its three requests give text; it is then recorded, after its cleaned post and both social files are written |
| RunDaily.FailedItemNotMarked | portfolio-theo/scripts/content-generator/run-daily.ts:319-322 | a failed article is not recorded and writes no social file; when its first request fails nothing is written |
| RunDaily.TweetLinkFirstOnly | portfolio-theo/scripts/content-generator/run-daily.ts:197 | only the first `[LINK]` of the tweet becomes the article's link |
| RunDaily.OnlyCompletedRunsWrite | portfolio-theo/scripts/content-generator/run-daily.ts:258-273 | a dry run, a run with nothing new and a failed search change no file |
| RunDaily.NoGenerationUnlessCompleted | portfolio-theo/scripts/content-generator/run-daily.ts:258-273 | a run that does not reach the loop does not depend on the generator at all |
| Curate.ParseArgs | portfolio-theo/scripts/content-generator/curate.ts:31-76 | the index loop yields the configuration, starting from topics all, limit 5, output blog, days 7; `--help` ends the script |
| Curate.ArgStep | portfolio-theo/scripts/content-generator/curate.ts:41-72 | one turn moves past the flag and, for a flag with a non-empty value, past the value too; `--help` ends the parse with no configuration; otherwise the rest of the loop yields the same configuration from the new position |
| Curate.HelpAndOutput | portfolio-theo/scripts/content-generator/curate.ts:47-53 | a leading `--help` always ends the script, while `--output` takes any non-empty next argument as the output |
| Curate.ParsedTopicsNormal | portfolio-theo/scripts/content-generator/curate.ts:41-43 | every requested topic is trimmed, lower case and free of commas |
| Curate.CurateArticle | portfolio-theo/scripts/content-generator/curate.ts:156-216 | the three steps yield the disk and outcome of curating one article |
| Curate.OutputSelection | portfolio-theo/scripts/content-generator/curate.ts:166-196 | the ledger is untouched; the post is written iff blog or all is asked, from its reply; the LinkedIn file iff linkedin or all, from the reply to its own request; the tweet file iff twitter or all, from its reply with the link; the social file not asked for is left alone; a success makes one request per requested output |
| Curate.TweetCarriesLink | portfolio-theo/scripts/content-generator/curate.ts:212 | when the tweet reply holds `[LINK]`, the written tweet holds the article's link |
| Curate.CurateItems | portfolio-theo/scripts/content-generator/curate.ts:255-263 | the loop yields the disk and outcome of curating and recording the new articles until the first failure |
| Curate.Run | portfolio-theo/scripts/content-generator/curate.ts:218-273 | the script yields the disk and outcome of the run |
| Curate.AbortAbsorbs | portfolio-theo/scripts/content-generator/curate.ts:255-272 | after a failure, later articles are neither curated nor recorded |
| Curate.ProcessedCount | portfolio-theo/scripts/content-generator/curate.ts:255-263 | a completed loop recorded every article, and a stopped one only those before the failure |
| Curate.UnknownOutputStillMarked | portfolio-theo/scripts/content-generator/curate.ts:259-262 | an output the script does not know makes no request and writes no file, yet every article is recorded |
| Curate.CapBeforeDedupe | portfolio-theo/scripts/content-generator/curate.ts:152-153 | the limit is applied before duplicates are removed, so a finished run handles at most `limit` articles |
| FromUrl.ParseArgs | portfolio-theo/scripts/content-generator/from-url.ts:149-187 | the index loop yields the configuration, or the usage text |
| FromUrl.ParsedFacts | portfolio-theo/scripts/content-generator/from-url.ts:149-187 | usage is shown exactly for no arguments or a leading `--help`; otherwise the URL is the first argument and a set title is non-empty |
| FromUrl.TitleTakesNext | portfolio-theo/scripts/content-generator/from-url.ts:172-184 | `--title` takes the next argument, even `--social`, and social defaults to false |
| Html.TitleOfSimplePage | portfolio-theo/scripts/content-generator/from-url.ts:206-207 | a page whose first element is a plain `<title>` has that element's trimmed text as its title |
| Html.UntitledWithoutTitle | portfolio-theo/scripts/content-generator/from-url.ts:207 | with no `<title` anywhere, the title is `Untitled` |
| Html.StripWholeBlock | portfolio-theo/scripts/content-generator/from-url.ts:211-212 | a complete script block at the front, whose body holds no `</script>` in any case, is removed with its tags |
| Html.PageTextShape | portfolio-theo/scripts/content-generator/from-url.ts:210-216 | the text is at most 8000 characters, does not start with white space, is single-spaced and holds no tag |
| Html.PlainPage | portfolio-theo/scripts/content-generator/from-url.ts:210-216 | a page without `<` is only collapsed, trimmed and cut |
| FromUrl.FetchUrlContent | portfolio-theo/scripts/content-generator/from-url.ts:189-232 | a URL that does not parse throws (one with an empty host name, such as `mailto:x`, goes on with an empty source); otherwise the source is the host name with its first `www.` removed, and a fetched text is at most 8000 characters |
| FromUrl.FetchedFields | portfolio-theo/scripts/content-generator/from-url.ts:204-231 | a page that answers gives its title and its shaped text; any other gives `Unknown Article` and text naming the URL |
| FromUrl.SourceDropsWww | portfolio-theo/scripts/content-generator/from-url.ts:219-220 | the source of `www.<host>` is the host, and a host without `www.` is its own source |
| FromUrl.CustomTitleWins | portfolio-theo/scripts/content-generator/from-url.ts:241 | a non-empty `--title` names the post and the ledger entry |
| FromUrl.PageTitleByDefault | portfolio-theo/scripts/content-generator/from-url.ts:241 | without `--title`, the page's title is used |
| FromUrl.DateOfIso | portfolio-theo/scripts/content-generator/from-url.ts:252 | the date is the part of the ISO stamp before the `T` |
| FromUrl.RepeatedPlaceholders | portfolio-theo/scripts/content-generator/from-url.ts:248-253 | `{TITLE}` is filled at its first occurrence only and `{URL}` at every one: of a template holding each twice, the second `{TITLE}` stays and both `{URL}`s get the URL |
| FromUrl.PromptOfSkeleton | portfolio-theo/scripts/content-generator/from-url.ts:248-253 | a template holding each placeholder once, with plain text around it, gets each value in its place |
| FromUrl.ContentTakesTheDate | portfolio-theo/scripts/content-generator/from-url.ts:251-252 | a `{DATE}` inside the article text receives the date, and the template's own `{DATE}` stays |
| FromUrl.GenerateFromUrl | portfolio-theo/scripts/content-generator/from-url.ts:234-347 | the script's steps yield the disk and outcome of generating from the page |
| FromUrl.MarkedOnlyWhenDone | portfolio-theo/scripts/content-generator/from-url.ts:346 | the ledger changes only on a finished run, which records the final title with the page's source |
| FromUrl.SocialEndsWithUrl | portfolio-theo/scripts/content-generator/from-url.ts:323-340 | the LinkedIn file ends with a blank line and the URL, the tweet with a space and the URL; posts and ledger are untouched |
| FromUrl.FilesOfDoneRun | portfolio-theo/scripts/content-generator/from-url.ts:255-343 | a finished run wrote the cleaned post under the final title's slug, and social files only with `--social` |
| FromUrl.FailuresKeepLedger | portfolio-theo/scripts/content-generator/from-url.ts:255-343 | a failed post request writes nothing, and a failed social request keeps the post but not a ledger entry |
| FromUrl.BadUrlWritesNothing | portfolio-theo/scripts/content-generator/from-url.ts:219-229 | a URL that does not parse writes nothing and leaves the ledger as it was |
| FromUrl.UsageWritesNothing | portfolio-theo/scripts/content-generator/from-url.ts:149-187 | the usage text is shown exactly for no arguments or `--help`, and then nothing is written |
| CopyReview.ScoreLabel | portfolio-theo/scripts/content-generator/copy-review.ts:161 | EXCELLENT exactly from 80, PASSED exactly from 70 to 79, NEEDS WORK exactly below 70 |
| CopyReview.Icon | portfolio-theo/scripts/content-generator/copy-review.ts:170 | X exactly for error, ! exactly for warning, - for any other kind |
| CopyReview.FormatReviewResults | portfolio-theo/scripts/content-generator/copy-review.ts:152-191 | the pushes yield the report lines joined by line breaks |
| CopyReview.ReportFraming | portfolio-theo/scripts/content-generator/copy-review.ts:155-190 | the report opens with a newline and sixty `=`, and closes with sixty `=` |
| CopyReview.StatusFollowsPassed | portfolio-theo/scripts/content-generator/copy-review.ts:163 | two results print the same status line exactly when they agree on `passed`, whatever their scores |
| CopyReview.IssuesWhenNonEmpty | portfolio-theo/scripts/content-generator/copy-review.ts:167-178 | the issues block is there exactly when there are issues |
| CopyReview.LocationLineCount | portfolio-theo/scripts/content-generator/copy-review.ts:172-174 | the report has one Location line per issue with a location, and no other |
| CopyReview.PushIssueLines | portfolio-theo/scripts/content-generator/copy-review.ts:169-175 | the issue loop prints, issue by issue in order, the marker line and then the Location line exactly when the issue has a location |
| CopyReview.SuggestionsWhenNonEmpty | portfolio-theo/scripts/content-generator/copy-review.ts:180-186 | the suggestions block is there exactly when there are suggestions |
| CopyReview.ApiKey | portfolio-theo/scripts/content-generator/copy-review.ts:97-98 | a key is present exactly when either variable is non-empty, and the Grok one is preferred |
| CopyReview.NoKeyNeverAsks | portfolio-theo/scripts/content-generator/copy-review.ts:97-107 | without a key, the result is a zero-score failure with one error and does not depend on the backend |
| CopyReview.JsonSpan | portfolio-theo/scripts/content-generator/copy-review.ts:115 | the match runs from the first `{` to the last `}`, and there is none exactly when no `}` follows a `{` |
| CopyReview.ReviewOutcomes | portfolio-theo/scripts/content-generator/copy-review.ts:109-129 | a parsable JSON reply gives its own result; every other path is a zero-score failure saying `Review failed: ...` |
| CopyReview.ReviewFailed | portfolio-theo/scripts/content-generator/copy-review.ts:121-129 | the catch result is a zero-score failure whose one error says `Review failed: ...` |
| CopyReview.ReviewFile | portfolio-theo/scripts/content-generator/copy-review.ts:135-147 | a missing file gives a zero-score `File not found` failure, and an existing one is reviewed |
| CopyReview.DraftMarkerSelects | portfolio-theo/scripts/content-generator/copy-review.ts:231-233 | either quoting of the draft status anywhere in the file selects it |
| CopyReview.DraftSelection | portfolio-theo/scripts/content-generator/copy-review.ts:223-233 | `--drafts` reviews exactly the `.mdx` files holding a draft marker |
| CopyReview.ReviewDrafts | portfolio-theo/scripts/content-generator/copy-review.ts:216-238 | the loop yields one report per selected draft, and none when the folder is missing |
| CopyReview.ReviewDraftFiles | portfolio-theo/scripts/content-generator/copy-review.ts:226-238 | the file loop yields one report per file whose text carries a quoted draft status, in listing order, and skips every other file |
| CopyReview.OneReportPerDraft | portfolio-theo/scripts/content-generator/copy-review.ts:226-237 | there is one report per selected draft |
| Content.PostFile | portfolio-theo/src/lib/content.ts:44-50 | `<slug>.mdx` when it exists, else `<slug>.md` when it exists, else none |
| Content.MdxShadowsMd | portfolio-theo/src/lib/content.ts:44-47 | with both files present, changing the `.md` one changes nothing |
| Content.PostOf | portfolio-theo/src/lib/content.ts:55-68 | missing or empty fields take their defaults: the slug as title, '', 'Uncategorized', [], '5 min read', the current time |
| Content.PostBySlug | portfolio-theo/src/lib/content.ts:41-72 | null when no file exists or parsing fails, else the post of the parsed file under that slug |
| Content.SlugOfPostFile | portfolio-theo/src/lib/content.ts:32 | the slug of `<slug>.mdx` and of `<slug>.md` is `slug` |
| Content.AllSlugs | portfolio-theo/src/lib/content.ts:74-83 | a missing folder gives no slug |
| Content.AllSlugsResolve | portfolio-theo/src/lib/content.ts:74-83 | every slug names a post file that exists, and every post file gives its slug |
| Content.AllPostsListing | portfolio-theo/src/lib/content.ts:22-39 | the posts come newest first and are exactly the posts of the files that read, whatever their status |
| Content.PostsOfLength | portfolio-theo/src/lib/content.ts:31-35 | only files that fail to read or parse are dropped |
| Content.TwinFilesSamePost | portfolio-theo/src/lib/content.ts:29-35 | with both `<slug>.md` and `<slug>.mdx` present, both files lead to the post read from `.mdx` |
| Topics.ReadTopics | portfolio-theo/src/app/api/admin/topics/route.ts:16-22 | a missing file is the empty list, and an unparsable one throws |
| Topics.NewTopic | portfolio-theo/src/app/api/admin/topics/route.ts:45-52 | the id is the current time in milliseconds, both stamps are now, and context and messages default to empty |
| Topics.Appended | portfolio-theo/src/app/api/admin/topics/route.ts:54 | the old list with the new topic at the end |
| Topics.FindIndex | portfolio-theo/src/app/api/admin/topics/route.ts:73 | the first index with the id, or -1 exactly when no topic has it |
| Topics.IndexOf | portfolio-theo/src/app/api/admin/topics/route.ts:73 | the search loop yields the first index with the id, or -1 |
| Topics.RevisedKeepsIdentity | portfolio-theo/src/app/api/admin/topics/route.ts:82-88 | a revision keeps id and creation stamp, refreshes the update stamp, and replaces a field exactly when the body gives one |
| Topics.UpdateFirstOnly | portfolio-theo/src/app/api/admin/topics/route.ts:73-90 | PUT changes only the first topic with the id, and every other topic keeps its place |
| Topics.WithoutRemovesMatches | portfolio-theo/src/app/api/admin/topics/route.ts:114 | deleting removes exactly the topics with the id and keeps the rest in order |
| Topics.WithoutUnknownId | portfolio-theo/src/app/api/admin/topics/route.ts:114 | an id no topic has deletes nothing |
| Topics.TopicStore.Get | portfolio-theo/src/app/api/admin/topics/route.ts:33-36 | the stored list, or a throw when the file does not parse |
| Topics.TopicStore.Post | portfolio-theo/src/app/api/admin/topics/route.ts:39-64 | a bad body or file gives 500 and writes nothing; otherwise the new topic is appended and returned |
| Topics.TopicStore.Put | portfolio-theo/src/app/api/admin/topics/route.ts:67-98 | a bad body or file gives 500 and an unknown id gives 404, both writing nothing; otherwise the first match is revised |
| Topics.TopicStore.Delete | portfolio-theo/src/app/api/admin/topics/route.ts:101-124 | no id gives 400, a bad file gives 500, both writing nothing; otherwise every topic with the id is removed |
| Topics.CountChanges | portfolio-theo/src/app/api/admin/topics/route.ts:54-114 | POST adds one topic, PUT keeps the count, and DELETE removes as many as carry the id |

## Left out

- Console output, help text and the timing summary are not modelled; a run's outcome stands for what it prints.
- The HTTP layer is not modelled: a handler's response is a value, and the auth gate (`src/lib/admin-auth.ts`) is not part of this model.
- Generation backends (`utils/grok.ts`, `utils/minimax.ts`, `utils/anthropic.ts`), prompt texts and the web search are parameters; their own parsing is not modelled.
- `Promise.all` over the two social requests in `run-daily.ts` is sequential here: the LinkedIn request, then the tweet.
- md5 is a collision-free digest of its key, so distinct normalised keys never share a fingerprint.
- `slugify`, `gray-matter`, `JSON.parse`, `new URL(...).hostname` and JavaScript date parsing are parameters; publish dates are integers, and NaN comparisons of invalid dates are not reproduced.
- `toLowerCase` is modelled on ASCII letters only; other case mappings are not modelled.
- Lengths are counted in code points, not UTF-16 units, so a title with an emoji is one character shorter than `.length` reports.
- `$` patterns in `String.replace` replacement strings are not modelled; a replacement is inserted literally.
- The `g` flag of the emoji and glyph patterns (`utils/validator.ts:47-48`) makes `.test()` keep `lastIndex` between calls; the model checks "contains such a code point" on every call.
- The HTML-to-text chain of `from-url.ts` is not claimed to leave no script or style text: the global replace does not rescan, so a block nested in another can leave text behind.
- Of the later steps scanning inserted text, only the `{CONTENT}` to `{DATE}` interaction is stated; the same scan of inserted text by the later `{URL}` and `{SOURCE}` steps is not stated as a lemma.
- The `{SOURCE}` step of the prompt chain is modelled, but no lemma states where the source lands in the prompt.
- The single-file review, the rewrite option of `copy-review.ts` and the HTTP error body of a failed review request are not modelled; a failed request is one `Review failed: ...` result.
- Errors of `readFileSync` are folded into the parser's failure in `Content`; elsewhere an existing file is always readable.
- The JSON field types of a review reply and of `topics.json` are not checked; parsing either gives a typed value or fails.
- Folder creation is not modelled: a write always succeeds.
- Classifier.MatchesTopic: a requested topic named like a property every JavaScript object has (`constructor`, `toString`, `__proto__`, ...) makes `topicKeywords[topic]` a non-list in `run-daily.ts` and in `curate.ts`, so the keyword loop throws and the feed's remaining items are dropped; the model treats such a topic as one without keywords and matches its name as text, because object prototypes are not modelled.
- Classifier.UnlistedTagMatchesItself: holds in the source only for names that are not such object properties; for those the source throws instead, as under `Classifier.MatchesTopic`.
- Ledger.TallyExact: `bySource` is a plain object, so in the source integer-like source names are listed first, whatever their order of appearance. A source named `constructor` starts from the inherited function and gets a text instead of a count, and one named `__proto__` is not recorded. The model counts every name exactly and lists the names by first appearance, because object property order and prototypes are not modelled.
- Ledger.Load: a version-1 file without an `entries` list (or with one of another type) is returned as is by `loadCache`, and the later `entries` lookups throw; the model's ledger file always holds an entry list when it holds version 1, because JSON field types are not modelled.
- ReviewQueue.ReviewQueue.GetDrafts: the case of a missing `content/blog` folder, which gives no draft, is not modelled; the queue's folder always exists.
- The `default` branch of `reviewDraft` (`Unknown action`) is not modelled, because the action type admits only approve, reject and clean.
- The command-line dispatch of `review-queue.ts` and its listing printout are not modelled; the operations they call are.
- The search backend is a parameter: it receives the query, the day count and the limit `articles * 2` (`RunDaily.Doubled`), and its own use of them is not modelled; the generation temperature passed by `copy-review.ts` is not modelled.
- ValidateFiles: the result path is `Files.JoinPath`, the directory, a `/` and the name, without the normalisation `path.join` applies; for a directory with a trailing separator, `.` segments or an empty name (`content/blog/`, `./d`, `""`) the source reports `content/blog/x.mdx`, `d/x.mdx`, `x.mdx` where the model gives `content/blog//x.mdx`, `./d/x.mdx`, `/x.mdx`, because path normalisation is not modelled. The review queue's own folder is a normalised absolute path, where the two agree.
- RecencyCases: `Ingestion.Cutoff` steps back `daysBack` days of 86,400,000 ms, while `setDate` steps back local calendar days at the same wall-clock time; when the window spans a daylight-saving change the source's cutoff is an hour away from the model's, so an item published within that hour is kept by one and dropped by the other, because local time zones are not modelled.
