# The G-PRESS backend, modelled in Dafny

G-PRESS gathers news from five Indian outlets: The Hindu, Hindustan Times, Times of India, Indian Express and DNA. Python scrapers read each listing page, and a content scraper fetches one article's body. A Node service does three things with the results:

- It ingests each scraped record into one MongoDB collection per outlet. Along the way it assigns keyword categories and asks an AI endpoint whether the article is current affairs.
- Periodically, it sends batches of articles to Gemini for multiple-choice questions and stores them.
- It serves the articles, the questions and the user bookmarks over HTTP.

This project models that backend as Dafny values, functions and methods, and proves what the code promises about them.

- **Scrapers** (`HinduScraper`, `IndianExpressScraper`, `TimesOfIndiaScraper`, `HindustanTimesScraper`, `DnaScraper`, on the shared fold `Scraping.Harvest`):
  - the loop over the page's items, with the same skip, cap and failure rules as the code;
  - the record every accepted item yields;
  - proofs that every returned record comes from an accepted item, and that an accepted item is returned unless the cap was reached.
- **Content scraper** (`ContentScraper`): the per-outlet selector lists, the fallbacks and the length thresholds, the Hindustan Times slug-to-title rule, and the command-line contract.
- **Ingestion** (`Ingestion`): the thirteen-rule keyword classifier, the fallback for the AI categorisation reply, and the find-by-link-then-insert write. As written, the insert of a new article always fails validation (see Findings).
- **AI service** (`AiService`): the retry loop of at most five attempts with exponential back-off, plus the cleaning of fenced JSON replies. The loop looks for a server-suggested delay by comparing against a literal that no reply carries, so as written that delay is never used (see Findings).
- **Question generation cycle** (`ArticleProcessor`):
  - selects up to five candidates per source, newest first;
  - sends them to Gemini as one batch;
  - flags the whole batch when the call fails;
  - otherwise replaces each article's old questions.
- **Routes**:
  - `QuestionsRoute`: on-demand generation and question lookup;
  - `NewsListing`: the merged, paginated listings, search and per-source listing;
  - `UserAccounts`: sync-user and the bookmarks.
- **Shared pieces**:
  - `Store`: the collections as values, plus the class `Store.Database` whose fields the handlers update;
  - `Sources`: the source registry and the schema vocabularies;
  - `Sorting`: a stable descending sort;
  - `Text`: ASCII string operations with both JavaScript and Python whitespace rules.

Everything outside the process becomes a parameter of the model:

- the browser, HTTP and the DOM become the page datatypes each scraper receives;
- the Gemini API, `JSON.parse`, the AI categorisation endpoint, the clock, ObjectId parsing and printing, and database faults become functions in an environment value.

Where the code departs from what it evidently intends, the model follows the code:

- **Existing articles**: ingestion of an already stored link returns "Article already exists." and updates nothing (`Ingestion.ExistingLinkIsSkipped`).
- **Date field name**: a new article's date is written to `publishedAt`, a path the article schemas do not declare. The required `pubDate` stays unset, so the save fails validation. `Ingestion.IngestAndCategorizeArticle` follows that code (see Findings).
- **Retry delay**: the AI service compares each error detail's type with a Markdown link literal. No detail matches, so a 429 always doubles the delay. `AiService.GenerateQuestionsForBatch` follows that code (see Findings).
- **Missing email in sync-user**: `findOne({ email: undefined })` has an empty filter and finds the first stored user. An unknown uid without an email therefore takes over that user (`UserAccounts.AbsentEmailRelinksFirst`, see Findings).
- **Query integers**: `parseInt` without a radix reads `0x…` as hexadecimal, so `?limit=0x10` is 16 (`NewsListing.QueryIntHex`).
- **Hindu source tag**: the Hindu scraper tags its records "The Hindu". That tag is not one of the ingestion map's keys, so those records are refused (`Ingestion.HinduScraperSourceRejected`).

## Model

| member | source | states |
|---|---|---|
| Sources.LookupSource | config/sources.js:10-66 | a key is found exactly when some registry entry has it, and the entry returned carries that key |
| Sources.FindByModelName | config/sources.js:10-66 | an entry with the given model name is found exactly when one exists |
| Sources.EveryModelNameConfigured | models/User.js:17-25 | every model name of the bookmark enum has a registry entry |
| Sources.ConfigWellFormed | config/sources.js:10-66 | registry keys and model names are pairwise distinct, and each model name is in the enum |
| Sorting.InsertCorrect | routes/news.js:439-444 | inserting into a descending-sorted list keeps it sorted and adds exactly that element |
| Sorting.SortDescCorrect | routes/news.js:439-444 | the sort returns a descending permutation of its input |
| Sorting.SortDescOfSorted | routes/news.js:534 | an already sorted list is returned unchanged, ties included |
| Sorting.InsertTied | routes/news.js:439-444 | insertion puts the element before those of equal key and keeps the order of every key's elements |
| Sorting.SortDescStable | routes/news.js:439-444 | the sort is stable: for every key, the elements with that key come out in their input order |
| Store.IndexOfArticle | models/DNA.js:3-81 | the first position holding the id, or -1 exactly when the id is absent |
| Store.FindArticle | services/articleProcessor.js:79 | `findById`: a found article is in the collection with that id; None means no article has it |
| Store.SaveArticle | services/articleProcessor.js:180 | `save` replaces the article with the same id and leaves other collections, questions and id counters unchanged |
| Store.FindAfterSave | services/articleProcessor.js:180 | after a save, lookups return the saved article for its id and the old answer for every other id |
| Store.SaveKeepsWellFormed | services/articleProcessor.js:180 | saving keeps the store invariant |
| Store.DeleteQuestionsOf | services/articleProcessor.js:129 | `deleteMany({articleId})` keeps exactly the questions of other articles |
| Store.RemoveForKeeps | services/articleProcessor.js:129 | deleting questions keeps ids unique and (article, text) pairs distinct |
| Store.InsertMany | services/articleProcessor.js:151-152 | `insertMany` touches only the Question collection and yields one id per draft on success |
| Store.InsertFromKeepsOk | models/Question.js:56-58 | inserting keeps question ids fresh and the compound (articleId, question) index unique |
| Store.InsertFromContents | services/articleProcessor.js:151-152 | a successful insert appends the drafts' documents after the old ones, with consecutive fresh ids |
| Store.InsertManyKeepsWellFormed | services/articleProcessor.js:151-152 | `insertMany` keeps the store invariant and never drops an existing question |
| Store.InsertManyContents | services/articleProcessor.js:151-152 | a successful `insertMany` appended exactly the drafts' documents |
| Store.PopulateInserted | routes/questions.js:102-128 | populating the returned ids yields exactly the inserted documents |
| Store.DeleteKeepsWellFormed | services/articleProcessor.js:129 | `deleteMany` keeps the store invariant |
| Store.AppendArticle | services/ingestionService.js:243 | a new article is appended to its model's collection with the next fresh id; nothing else changes |
| Store.Database.Save | services/articleProcessor.js:180 | the save succeeds exactly when the document passes validation, and the new state is `SaveArticle` of the old |
| Store.Database.DeleteMany | services/articleProcessor.js:129 | the new state is `DeleteQuestionsOf` of the old |
| Store.Database.InsertQuestions | services/articleProcessor.js:151-152 | the new state, ids and outcome are `InsertMany` of the old state |
| Store.Database.Insert | services/ingestionService.js:243 | the new state is `AppendArticle` of the old, and the id returned is the fresh one |
| Scraping.Take | scrapers/indian_express.py:52-54 | the prefix of at most n elements |
| Scraping.HarvestOrigin | scrapers/indian_express.py:51-83 | every collected record was produced by the step at some item's index |
| Scraping.HarvestHas | scrapers/indian_express.py:71-78 | a record the step produces at index i is collected |
| Scraping.CappedIsTake | scrapers/hindustan_scraper.py:49-51 | a loop that breaks once the cap is reached returns the capped prefix of the full pass |
| HinduScraper.AbsoluteLink | scrapers/hindu_scraper.py:62-63 | a link not starting with "http" gets the site root prefixed, so every result starts with "http" |
| HinduScraper.Articles | scrapers/hindu_scraper.py:28-129 | at most 25 articles, and none after a failed request |
| HinduScraper.ExtractImage | scrapers/hindu_scraper.py:72-88 | the picture URL assigned step by step equals the `ImageUrl` rule |
| HinduScraper.ReadBlock | scrapers/hindu_scraper.py:51-127 | reading one block step by step gives `Read`: its article, stamped with the block's own date or `now`, or none when validation rejects it |
| HinduScraper.GetHinduArticles | scrapers/hindu_scraper.py:28-129 | the loop returns `Articles` of the page |
| HinduScraper.SlugRoundTrip | scrapers/hindu_scraper.py:109-116 | a link `p/slug/article<digits>.ece` yields that slug as its description, hyphens read as spaces |
| HinduScraper.SlugDescriptionShape | scrapers/hindu_scraper.py:109-116 | a description taken from a slug has no hyphen and no surrounding space |
| HinduScraper.AbsolutizeMeaning | scrapers/hindu_scraper.py:84-88 | protocol-relative URLs get "https:" and root-relative ones the site root |
| HinduScraper.ArticlesFromBlocks | scrapers/hindu_scraper.py:100-127 | every printed article is the article of a block that passed validation |
| HinduScraper.AcceptedBlockListed | scrapers/hindu_scraper.py:43-45 | a block passing validation is printed unless 25 articles were already collected |
| IndianExpressScraper.Articles | scrapers/indian_express.py:40-96 | once the driver is installed: at most 25 records, and none after a failure inside the `try` |
| IndianExpressScraper.Output | scrapers/indian_express.py:30-99 | nothing is printed exactly when the driver install before the `try` fails; otherwise at most 25 records are printed |
| IndianExpressScraper.GetIndianExpressArticles | scrapers/indian_express.py:30-96 | the install, then the loop with stale anchors skipped, gives `Output` |
| IndianExpressScraper.ArticlesDistinct | scrapers/indian_express.py:67-69 | no two returned records share a link |
| IndianExpressScraper.ArticlesFromAnchors | scrapers/indian_express.py:67-78 | every record comes from a usable anchor, with its stripped text and its href |
| IndianExpressScraper.UsableAnchorKept | scrapers/indian_express.py:52-78 | a usable anchor is dropped only as a repeat of a kept link or once 25 records exist |
| TimesOfIndiaScraper.Headlines | scrapers/times_of_india_scraper.py:76-112 | once the driver is installed: at most 25 records, and none when the run fails or an anchor among the first 25 is stale |
| TimesOfIndiaScraper.Output | scrapers/times_of_india_scraper.py:35-122 | nothing is printed exactly when the driver install before the `try` fails; otherwise at most 25 records are printed |
| TimesOfIndiaScraper.GetTimesOfIndiaArticles | scrapers/times_of_india_scraper.py:35-112 | the install, then the loop over the first 25 anchors, gives `Output` |
| TimesOfIndiaScraper.HeadlinesFromAnchors | scrapers/times_of_india_scraper.py:85-99 | every record comes from a kept anchor among the first 25 |
| TimesOfIndiaScraper.KeptAnchorListed | scrapers/times_of_india_scraper.py:85-99 | with no stale anchor, every kept anchor among the first 25 yields its record |
| HindustanTimesScraper.Articles | scrapers/hindustan_scraper.py:42-93 | at most 25 records, none after a failure or for an empty page |
| HindustanTimesScraper.GetHindustanTimesArticles | scrapers/hindustan_scraper.py:44-87 | the capped loop, skipping unreadable cards, returns `Articles` |
| HindustanTimesScraper.ReadCard | scrapers/hindustan_scraper.py:61-76 | a card yields its record exactly when it passes the checks |
| HindustanTimesScraper.CleanTitleStripped | scrapers/hindustan_scraper.py:65-66 | the cleaned title is already stripped |
| HindustanTimesScraper.AcceptsMeaning | scrapers/hindustan_scraper.py:61-76 | links start with the base URL, so a card is accepted exactly when it reads, has a URL and its cleaned title exceeds five characters |
| HindustanTimesScraper.ArticlesFromCards | scrapers/hindustan_scraper.py:69-76 | every record is the record of an accepted card |
| HindustanTimesScraper.AcceptedCardListed | scrapers/hindustan_scraper.py:49-76 | an accepted card is listed unless 25 records exist |
| DnaScraper.Printed | scrapers/dna_scraper.py:47-111 | once the driver is installed: at most 25 records, none when the page cannot be loaded |
| DnaScraper.Output | scrapers/dna_scraper.py:33-111 | nothing is printed exactly when the driver install before the `try` fails, since the printing `finally` is never entered; otherwise at most 25 records |
| DnaScraper.ReadContainer | scrapers/dna_scraper.py:61-83 | a container yields its record exactly when it passes the checks |
| DnaScraper.GetDnaArticles | scrapers/dna_scraper.py:33-111 | the install, then the indexed loop over 25 slots, gives `Output` |
| DnaScraper.PrintedFromContainers | scrapers/dna_scraper.py:73-83 | every printed record is the record of an accepted container among the first 25 |
| DnaScraper.AcceptedContainerPrinted | scrapers/dna_scraper.py:92-100 | a failing container costs only its own slot: every accepted one among the first 25 is printed |
| ContentScraper.NonEmpty | scrapers/content_scraper.py:36-43 | keeps exactly the non-empty texts |
| ContentScraper.ExtractParagraphs | scrapers/content_scraper.py:36-43 | a result exists exactly when the container exists |
| ContentScraper.ExtractEmptyIff | scrapers/content_scraper.py:36-43 | the joined text is empty exactly when every paragraph's text is empty |
| ContentScraper.FirstLongSelectorWins | scrapers/content_scraper.py:73-78 | the Hindu selector loop stops at the first selector giving more than 100 characters and returns that text |
| ContentScraper.NoLongSelectorKeepsLast | scrapers/content_scraper.py:73-78 | with no long result, the loop keeps the last selector's attempt |
| ContentScraper.HinduBranch | scrapers/content_scraper.py:54-92 | the Hindu branch returns `HinduContent` of the page |
| ContentScraper.HinduShortOnlyWithoutBody | scrapers/content_scraper.py:80-89 | content of 50 characters or shorter survives only when the page body yields nothing |
| ContentScraper.FirstLong | scrapers/content_scraper.py:152-171 | a fallback result is always longer than 100 characters |
| ContentScraper.FirstLongMeaning | scrapers/content_scraper.py:152-171 | no result exactly when no fallback selector is long; otherwise the first long one |
| ContentScraper.WithFallback | scrapers/content_scraper.py:152-171 | primary content of 100 or more truthy characters is kept unchanged |
| ContentScraper.Threshold | scrapers/content_scraper.py:173-175 | the result has at least 50 characters and is not blank, and such content passes unchanged |
| ContentScraper.FallbackPass | scrapers/content_scraper.py:152-171 | the fallback loop returns the first long selector's text, or the primary content |
| ContentScraper.DedupMeaning | scrapers/content_scraper.py:146-150 | the deduplicated parts have the same elements and no repeats |
| ContentScraper.DedupKeepsFirst | scrapers/content_scraper.py:146-150 | each element's first occurrence is the one kept |
| ContentScraper.CollectToiParts | scrapers/content_scraper.py:131-150 | the parts loop yields `ToiParts` |
| ContentScraper.ToiBranch | scrapers/content_scraper.py:124-175 | the Times of India branch returns `ToiContent` |
| ContentScraper.ToiPiecesIff | scrapers/content_scraper.py:137-145 | a piece is kept exactly when it is non-empty and mentions neither "read full story" nor "continue reading" |
| ContentScraper.FirstFound | scrapers/content_scraper.py:184-192 | no container exactly when every main selector finds nothing |
| ContentScraper.CollectFiltered | scrapers/content_scraper.py:194-201 | the paragraph loop yields `PhraseFiltered` |
| ContentScraper.FilteredBranch | scrapers/content_scraper.py:177-273 | the Indian Express and DNA branches return their content functions |
| ContentScraper.PhraseFilteredIff | scrapers/content_scraper.py:243-249 | a paragraph is kept exactly when it is non-empty and mentions no boilerplate phrase, case-insensitively |
| ContentScraper.LastCandidateMeaning | scrapers/content_scraper.py:97-106 | the chosen URL segment is the last one that contains ".html" or matches the slug pattern |
| ContentScraper.LastIndexOf | scrapers/content_scraper.py:107-110 | the last position of the character, or -1 when it is absent |
| ContentScraper.DropNumericSuffixAppended | scrapers/content_scraper.py:107-110 | a trailing "-<digits>" is removed |
| ContentScraper.TitleWords | scrapers/content_scraper.py:111-113 | the words contain no hyphen and none is empty |
| ContentScraper.HtBranch | scrapers/content_scraper.py:94-122 | the reverse walk over segments returns `HtContent` |
| ContentScraper.HtTitleShape | scrapers/content_scraper.py:111-115 | a Hindustan Times result starts with "Article Title: " and has no hyphen after it |
| ContentScraper.HtTitleRoundTrip | scrapers/content_scraper.py:94-122 | `p/name-<digits>.html` yields "Article Title: " followed by the name's words |
| ContentScraper.Scrape | scrapers/content_scraper.py:45-284 | results are never blank, an unknown source gives none, and a driver failure gives none outside Hindustan Times |
| ContentScraper.ScrapeArticleContent | scrapers/content_scraper.py:45-284 | the dispatch returns `Scrape` |
| ContentScraper.ThresholdedBranches | scrapers/content_scraper.py:275-284 | every browser branch's result passes the final threshold |
| ContentScraper.Cli | scrapers/content_scraper.py:289-308 | fewer than two arguments print the usage message with exit code 1; otherwise content is printed with exit code 0 exactly when scraping found some |
| Ingestion.Matched | services/ingestionService.js:67-171 | a category is emitted exactly when its rule hits |
| Ingestion.Dedup | services/ingestionService.js:177 | the same elements as the input, without repeats |
| Ingestion.Classify | services/ingestionService.js:67-178 | the categories are non-empty and distinct; "Miscellaneous" appears exactly when no rule hits |
| Ingestion.ClassifyInTableOrder | services/ingestionService.js:74-177 | over a table with distinct categories, deduplication changes nothing and the order is the table's |
| Ingestion.KeywordTableDistinct | services/ingestionService.js:74-171 | the thirteen rules have distinct categories |
| Ingestion.KeywordTableInEnum | services/ingestionService.js:156-158 | every rule's category is in the schema enum except "World" |
| Ingestion.KeywordVocabulary | services/ingestionService.js:67-178 | every emitted category is in the schema enum, or is "World" |
| Ingestion.WorldTitleBreaksEnum | services/ingestionService.js:156-158 | a title containing "world" yields "World", which fails schema validation |
| Ingestion.CategoriesInEnumWithoutWorld | services/ingestionService.js:67-178 | without "world" in the title, every category fits the enum |
| Ingestion.Categorize | services/ingestionService.js:25-63 | a reply with a boolean `isCurrentAffair` and a truthy `category` of any type is taken as is; anything else gives `{false, "General"}`; the category is always truthy |
| Ingestion.StoredCategory | services/ingestionService.js:229-241 | the saved `currentAffairsCategory`: a string is kept, and any other value is stored or refused outside the enum |
| Ingestion.NonStringCategoryRefused | services/ingestionService.js:46-57 | a truthy non-string category passes the check and is kept, but the save then fails and nothing is written |
| Ingestion.NewsModel | services/ingestionService.js:16-22 | a model is found exactly for the five lower-case keys |
| Ingestion.FindByLink | services/ingestionService.js:201 | the first article with exactly that link, or none when no article has it |
| Ingestion.NewArticle | services/ingestionService.js:229-241 | the document built from the record, with the date in `pubDate` |
| Ingestion.MissingFieldsRejected | services/ingestionService.js:185-191 | a missing title, link or source is refused with nothing written |
| Ingestion.UnknownSourceRejected | services/ingestionService.js:193-197 | an unknown source is refused with nothing written |
| Ingestion.HinduScraperSourceRejected | services/ingestionService.js:193-197 | the Hindu scraper's tag "The Hindu" is refused |
| Ingestion.ExistingLinkIsSkipped | services/ingestionService.js:201-209 | a stored link returns that article's id and writes nothing |
| Ingestion.RacedDuplicateIsSuccess | services/ingestionService.js:255-263 | a duplicate-key error from a concurrent insert counts as success |
| Ingestion.IngestKeepsWellFormed | services/ingestionService.js:181-271 | ingestion keeps the store invariant |
| Ingestion.NewArticleAsWritten | services/ingestionService.js:229-241 | the document as built, with the date under `publishedAt`: `pubDate` is unset |
| Ingestion.SaveNewDocument | services/ingestionService.js:243-270 | `save` inserts a valid article, treats a concurrent duplicate as success and refuses an invalid one; the result is `SaveNew` |
| Ingestion.IngestAndCategorizeArticle | services/ingestionService.js:181-271 | the handler's new state and result are `IngestAsWritten` of the old state, so a new article is never inserted |
| AiService.FindDetail | services/aiService.js:183-187 | the first detail of the given type, or -1 when none has it |
| AiService.GenerateQuestionsForBatch | services/aiService.js:24-224 | the retry loop's result, sleeps and call count are `BatchSpec` with the RetryInfo literal as written |
| AiService.EmptyBatchMakesNoCall | services/aiService.js:25-30 | an empty batch makes no call and resolves to `{}` |
| AiService.RunFromBounds | services/aiService.js:66-222 | from attempt k, between one and 5 - k calls, with a sleep between consecutive ones |
| AiService.BatchBounds | services/aiService.js:66-222 | a non-empty batch makes between one and five calls |
| AiService.RunFromReturnsLast | services/aiService.js:139-149 | what resolves is what the last attempt produced |
| AiService.BatchReturnsShaped | services/aiService.js:142-149 | a resolved value is a non-empty object, parsed from the cleaned text of the last reply |
| AiService.SyntaxErrorIsNotRetried | services/aiService.js:167-171 | an unparsable reply rejects at once, because the `catch` block reads `text` out of scope |
| AiService.AllOrdinaryFailures | services/aiService.js:203-220 | five failures without status 429 sleep 4, 8, 16 and 32 seconds, then reject |
| AiService.AllApiErrors | services/aiService.js:203-220 | five API errors make the batch reject after five calls |
| AiService.FirstReplyAccepted | services/aiService.js:139-149 | a first reply parsing to a non-empty object resolves after one call |
| AiService.EmptyReplyIsRetried | services/aiService.js:150-158 | a reply of the wrong shape is a retryable failure |
| AiService.DelaySecondsParse | services/aiService.js:189-192 | "<n>s" parses to n seconds |
| AiService.ServerDelayHonoured | services/aiService.js:174-197 | with the RetryInfo type compared correctly, a 429 asking for n seconds waits n seconds |
| AiService.ServerDelayIgnoredAsWritten | services/aiService.js:174-187 | as written, the Markdown-link literal matches no detail, so the delay always doubles |
| AiService.ServerDelayLoopAsWritten | services/aiService.js:66-222 | the whole loop, as written: a 429 asking for a delay, then a good reply, sleeps the doubled 4 seconds and makes two calls |
| AiService.ServerDelayLoopHonoured | services/aiService.js:66-222 | the whole loop with the type compared correctly: the same run sleeps the n seconds the server asked for |
| AiService.CleanFenced | services/aiService.js:112-128 | a reply fenced with ```json cleans to its trimmed body |
| AiService.CleanUnfenced | services/aiService.js:112-128 | a reply fenced at neither end is only trimmed |
| AiService.NewlineBranchIsDead | services/aiService.js:112-123 | the leading-newline step never changes any reply, because it always follows a trim |
| AiService.BareFenceKept | services/aiService.js:112-128 | a bare ``` opener is not removed: the cleaned reply still starts with it |
| ArticleProcessor.FilterCandidates | services/articleProcessor.js:29-38 | keeps exactly the articles that need questions and have a title and a link |
| ArticleProcessor.CandidatesAreNewestEligible | services/articleProcessor.js:29-41 | at most five eligible candidates, newest first; an eligible article left out means five no older than it were chosen |
| ArticleProcessor.BatchInputs | services/articleProcessor.js:60-66 | one input per candidate, with its id, its title and the source name |
| ArticleProcessor.Drafts | services/articleProcessor.js:140-148 | one Question draft per generated question, labelled with the article, source and model |
| ArticleProcessor.MarkAllSafe | services/articleProcessor.js:76-99 | flagging a failed batch keeps the invariant and writes no questions or other collections |
| ArticleProcessor.ProcessSourceSafe | services/articleProcessor.js:27-196 | a source's block keeps the invariant and changes no other source's collection |
| ArticleProcessor.ProcessAllKeepsWellFormed | services/articleProcessor.js:14-201 | the whole cycle keeps question ids unique and (article, text) pairs distinct |
| ArticleProcessor.ProcessSourceOnlyCandidates | services/articleProcessor.js:104-190 | no article other than the chosen candidates changes |
| ArticleProcessor.MarkAllFlags | services/articleProcessor.js:76-99 | with no fault, every candidate of a failed batch that can be saved is flagged |
| ArticleProcessor.FailedBatchFlagsCandidates | services/articleProcessor.js:67-100 | a failed batch with no other fault flags every candidate and writes no question |
| ArticleProcessor.FailedBatchNullTitleFlagsNothing | services/articleProcessor.js:67-74 | as written, a null first title makes the failure log throw, so nothing is flagged |
| ArticleProcessor.InsertAndSaveStores | services/articleProcessor.js:150-180 | without faults, the questions are stored and the article points at them, unflagged |
| ArticleProcessor.ApplyOneStores | services/articleProcessor.js:117-180 | returned questions replace the article's old ones |
| ArticleProcessor.ApplyOneFlagsMissing | services/articleProcessor.js:167-176 | an article with no returned questions is flagged |
| ArticleProcessor.DeleteThenInsertFailureGap | services/articleProcessor.js:125-151 | as written, a failing insert after the delete leaves the article with neither old nor new questions |
| ArticleProcessor.MarkOneStep | services/articleProcessor.js:77-98 | one flagging iteration's state and exit are `MarkOne` |
| ArticleProcessor.ApplyOneStep | services/articleProcessor.js:105-189 | one per-article iteration's state and exit are `ApplyOne` |
| ArticleProcessor.ProcessSourceStep | services/articleProcessor.js:21-196 | a source's block leaves the state `ProcessSource` gives |
| ArticleProcessor.ProcessArticlesForContentAndAI | services/articleProcessor.js:14-201 | the cycle leaves the state `ProcessAll` gives |
| QuestionsRoute.Locate | routes/questions.js:16-47 | a located article is what `findById` returns for the cast id in the configured source's collection, with no lookup fault |
| QuestionsRoute.EarlyRepliesMakeNoCall | routes/questions.js:18-47 | missing parameters, unknown sources and missing articles answer 400/404/500 without a call or a write |
| QuestionsRoute.CacheHit | routes/questions.js:50-58 | stored questions are served with no call and no write |
| QuestionsRoute.NoTextIsRejected | routes/questions.js:60-70 | an article without description or title is a 400 without a call |
| QuestionsRoute.OneEntryIsSent | routes/questions.js:72-88 | exactly one single-entry batch, named by the URL's key, makes one to five calls |
| QuestionsRoute.GeneratorFailureFlags | routes/questions.js:88-99 | a generator failure flags the article and answers 500 |
| QuestionsRoute.EmptyResultFlags | routes/questions.js:130-139 | an empty result flags the article |
| QuestionsRoute.GeneratedQuestionsAreStored | routes/questions.js:102-128 | the new documents are appended and the article points at them |
| QuestionsRoute.StoredArticleCaches | routes/questions.js:102-128 | after a successful store, the article's populated questions are the new documents |
| QuestionsRoute.RepeatIsCacheHit | routes/questions.js:13-141 | repeating a successful request is a cache hit with no further call |
| QuestionsRoute.LookupAgreesWithCache | routes/questions.js:145-199 | the lookup route returns what the generator route serves from its cache |
| QuestionsRoute.LookupRejects | routes/questions.js:149-170 | an unknown key or a missing article is a 404 |
| QuestionsRoute.GenerateOnDemandHandler | routes/questions.js:13-141 | the handler's new state, reply and call count are `GenerateOnDemand` |
| NewsListing.UpperFirstEach | routes/news.js:24 | each word with its first character upper-cased |
| NewsListing.FormatSourceForDisplayMeaning | routes/news.js:17-27 | a configured key shows its source name; any other key has each dash made a space and each word capitalised |
| NewsListing.Annotate | routes/news.js:33-45 | each article paired with whether a question references it |
| NewsListing.CurrentAffairsOnly | routes/news.js:65-71 | keeps exactly the current-affairs articles |
| NewsListing.Pipeline | routes/news.js:29-74 | MongoDB accepts the pipeline exactly when skip is non-negative, limit positive, and both within the 64-bit range |
| NewsListing.PipelinePage | routes/news.js:29-74 | one source's page holds at most `limit` rows, sorted, each from the collection |
| NewsListing.CeilDiv | routes/news.js:452 | `Math.ceil(n / d)` |
| NewsListing.QueryIntDefaults | routes/news.js:421-422 | page and limit default to 1 and 50 when absent, unparsable or zero; a decimal number is read as itself |
| NewsListing.QueryIntHex | routes/news.js:421-422 | a `0x` prefix is read as hexadecimal, and a bare `0x` gives the default |
| Text.JsParseIntAuto | routes/news.js:421-422 | `parseInt` with no radix: decimal unless the unsigned text starts with `0x`, which is `NaN` exactly when no hexadecimal digit follows |
| Text.JsParseIntAutoHex | routes/news.js:421-422 | `0x` followed by the hexadecimal digits of n reads back as n |
| Text.JsParseIntAutoBareHex | routes/news.js:421-422 | `0x` with no hexadecimal digit after it is `NaN` |
| Text.JsParseIntAutoDecimal | routes/news.js:421-422 | the decimal digits of n read back as n when no `x` follows a lone 0 |
| NewsListing.ListingOrder | routes/news.js:439-444 | rows with questions come first, then the newest `pubDate` |
| NewsListing.MergedBound | routes/news.js:427-437 | each source contributes at most `2 * limit` rows |
| NewsListing.ListFromPage | routes/news.js:427-454 | a page holds at most `limit` rows, sorted, drawn from the merged rows, and counts them all |
| NewsListing.ListNewsPage | routes/news.js:420-501 | `/all` and `/current-affairs` total at most `10 * limit` rows |
| NewsListing.NegativeLimitFails | routes/news.js:455-458 | a negative limit makes every listing a 500 |
| NewsListing.OversizedLimitFails | routes/news.js:420-458 | a limit whose double (the per-source `$limit`) is beyond 64 bits makes every listing a 500 |
| NewsListing.CollectRows | routes/news.js:427-437 | the loop over sources yields `MergedRows` |
| NewsListing.GetNewsListing | routes/news.js:420-459 | the handler returns `ListNews` of the query as `parseInt` with no radix reads it |
| NewsListing.Hits | routes/news.js:524-527 | the hits are exactly the articles whose title or description matches |
| NewsListing.SearchRowsAreHits | routes/news.js:522-532 | the search rows are exactly every source's hits |
| NewsListing.BlankSearchIsEmpty | routes/news.js:509-516 | a blank query is an empty first page with no pages |
| NewsListing.SearchPage | routes/news.js:534-545 | search sorts all hits newest first, slices one page and counts them all |
| NewsListing.SearchHitsMatch | routes/news.js:524-527 | every search row matched the pattern |
| NewsListing.CollectHits | routes/news.js:522-532 | the loop yields `SearchRows` |
| NewsListing.SearchNews | routes/news.js:504-550 | the handler returns `Search` of the query as `parseInt` with no radix reads it |
| NewsListing.NewsBySourceMeaning | routes/news.js:553-593 | an unknown key is a 404; a configured one answers its sorted page, or fails with 500 exactly on a fault or a page and limit MongoDB refuses (including a skip or limit beyond 64 bits) |
| NewsListing.OversizedSkipFails | routes/news.js:553-593 | a configured source's page whose skip is beyond 64 bits is a 500 |
| NewsListing.PastTheEndNamesSource | routes/news.js:569-576 | a page past the end answers the 200 "No articles found" message |
| UserAccounts.IndexOfUid | routes/news.js:90 | `findOne({firebaseUid})`: the user's position, or -1 exactly when absent |
| UserAccounts.IndexOfEmail | routes/news.js:94 | `findOne({email})`: the user's position, or -1 exactly when absent |
| UserAccounts.EmailQuery | routes/news.js:94 | a present email is looked up; an absent one is an empty filter, which finds a user exactly when there is one |
| UserAccounts.Write | models/User.js:47-58 | a save succeeds exactly when the user is valid, no fault occurs and no unique index clashes |
| UserAccounts.WriteKeepsOk | models/User.js:47-58 | a successful write keeps the collection valid and unique |
| UserAccounts.Persist | routes/news.js:161-175 | a failed save answers 409 or 500 with the state unchanged |
| UserAccounts.SyncKeepsOk | routes/news.js:79-176 | sync keeps the collection valid and both indexes unique |
| UserAccounts.SyncEmailConflict | routes/news.js:139-149 | an email held by another account is a 409 with no write |
| UserAccounts.SyncFoundUpdates | routes/news.js:132-160 | a found user gets the new display name and email |
| UserAccounts.SyncRelinks | routes/news.js:92-116 | the user the email query finds is relinked to the new uid and keeps its email and bookmarks; nobody else changes |
| UserAccounts.AbsentEmailRelinksFirst | routes/news.js:92-116 | as written, an unknown uid with no email overwrites the first stored user's different uid and gets 200 with that user |
| UserAccounts.SyncIntendedAbsentEmail | routes/news.js:92-131 | as intended, a request with no email never rewrites a stored uid, and an unknown uid gets 500 with nothing stored |
| UserAccounts.SyncCreates | routes/news.js:117-131 | a user the email query does not find either is created with no bookmarks and answered with 201, or is a 500 without a truthy email |
| UserAccounts.SyncNeverDuplicates | routes/news.js:166-171 | on a unique collection, the duplicate-key branch is never reached |
| UserAccounts.OrNull | routes/news.js:347-348 | `x \|\| null` keeps exactly the truthy values |
| UserAccounts.AddWriteAppends | routes/news.js:355-371 | a push-and-save appends the bookmark or leaves the state unchanged |
| UserAccounts.AddRejects | routes/news.js:272-298 | missing fields, a bad id or an unknown model are 400s with no write |
| UserAccounts.AddAppends | routes/news.js:267-372 | a 201 appends exactly one bookmark for the requested article |
| UserAccounts.AddSucceeds | routes/news.js:300-361 | with no fault, a fresh pair for an existing article is added |
| UserAccounts.AddKeepsOk | routes/news.js:267-372 | adding keeps the collection valid and unique |
| UserAccounts.AddKeepsPairsDistinct | routes/news.js:308-315 | when ids are sent in printed form, no (article, model) pair is bookmarked twice |
| UserAccounts.SecondSpellingDuplicates | routes/news.js:308-315 | as written, a second spelling of the same id adds a duplicate bookmark |
| UserAccounts.FindBookmark | routes/news.js:395-397 | the first bookmark whose id prints as the text, or -1 |
| UserAccounts.DeleteRemovesFirst | routes/news.js:375-417 | a 200 removes exactly that first matching bookmark |
| UserAccounts.DeleteKeepsOk | routes/news.js:375-417 | deletion keeps the collection valid, and with no fault a matched bookmark is removed |
| UserAccounts.AccountStore.SyncUser | routes/news.js:79-176 | the handler's new state and reply are `SyncResult`, with the missing-email lookup as written |
| UserAccounts.AccountStore.AddBookmark | routes/news.js:267-372 | the handler's new state and reply are `AddResult` |
| UserAccounts.AccountStore.DeleteBookmark | routes/news.js:375-417 | the handler's new state and reply are `DeleteResult` |
| UserAccounts.AlreadyBookmarked | routes/news.js:308-312 | the scan answers `Bookmarked` |
| UserAccounts.BookmarkIndex | routes/news.js:395-397 | the scan answers `FindBookmark` |

## Left out

- External systems:
  - Browser automation, HTTP and HTML parsing: each scraper receives the items its selectors would find, as a datatype, and per-item read failures are flags on the items. The content scraper receives a selector-to-container function, with each paragraph's text in both of BeautifulSoup's `get_text` forms.
  - Gemini, `JSON.parse`, the AI categorisation endpoint, the clock and MongoDB faults are parameters. Dates are integers or opaque strings.
  - Prompt text, logging, `sys.stdout.reconfigure`, `driver.quit` and the JSON serialisation of scraper output are left out; none of them affects a result.
- Text handling:
  - Strings are ASCII-only for `strip`, `lower`, `capitalize`, `toUpperCase` and `\d`. Python's whitespace set and JavaScript's `trim` set are modelled separately.
  - `ContentScraper.SlugLike` and `ContentScraper.DropNumericSuffix` do not model Python's `$` matching before a final newline, because URL segments never contain one.
  - The search regex (`new RegExp(q, "i")`) is an abstract predicate in `NewsListing.SearchHit`.
- Store and ordering:
  - Each Mongo collection is a sequence in insertion order.
  - MongoDB's sort of a null `pubDate` is modelled as "after every dated article". Sort ties keep insertion order.
  - ObjectId validity and printing are abstract functions.
  - `articleDetails._id` and the bookmark fields that the add handler never reads are not modelled.
- Scrapers:
  - The DNA scraper re-queries the containers on each iteration. It is modelled as one fixed list.
  - An exception raised inside Hindu block parsing outside the request is not modelled; the code does not catch it.
  - The Hindu general-body search of the content scraper is a given input.
- Routes and errors:
  - `GET /bookmarks`, the authentication middleware and array-valued query parameters are not modelled.
  - JavaScript `error.message` texts are not modelled.
  - A fault on a read after a successful write is not modelled.
- `UserAccounts.EmailQuery`: a JSON `null` email is modelled as a missing one. `findOne({ email: null })` would instead match nobody in a valid collection.
- `UserAccounts.AddWrite`: the 201 reply carries the bookmark with the `_id` the model assigns. The handler replies with its `newBookmark` literal, which has no `_id` (routes/news.js:338-350, 358-361).
- `Ingestion.StoredCategory`: JSON numbers in the categorisation reply are integers, so NaN and fractions are not modelled. An object or array category, which Mongoose cannot cast to a string, is written as a text outside the enum, because the save is refused either way.
- `NewsListing.QueryInt`: query integers are exact. JavaScript reads them as doubles, so a value above 2^53 is rounded (`?page=9007199254740993` is echoed as 9007199254740992), and so are `(page - 1) * limit`, `limit * 2` and the slice bounds. The 64-bit check in `NewsListing.Pipeline` is made on the exact product, so it can differ from MongoDB's only for products that large.
- `ArticleProcessor.QuestionsFor`: a parsed reply maps each article id to a list of question objects, each field a string or a list of strings, or absent. Other value shapes are not modelled, although the code throws on them after the old questions are deleted. These shapes are a truthy non-array with a `length` (such as the string `"abc"`), a list holding `null` or a non-object, and `options: null`. In the periodic processor the throw at services/articleProcessor.js:140 ends the source's pass, so the article keeps no questions and is not flagged. In the on-demand route the throw at routes/questions.js:103 is outside any `try`, so the request gets no answer. An `options: null` fails validation at the insert, while an absent `options` is stored as `[]`; the model has only the absent case. `ArticleProcessor.ApplyOneStores` and `QuestionsRoute.GeneratedQuestionsAreStored` are therefore stated for well-shaped replies only.
- `Ingestion.IngestKeepsWellFormed`: it states the invariant only. The write itself is stated by `Ingestion.NewRecordIsStored` and `Ingestion.ExistingLinkIsSkipped`.

## Findings

The handlers follow each of these as written; the corrected member states the intended behaviour on its own definition.

| source | as written | input that shows it | evidently intended | confidence | as-written member | corrected member |
|---|---|---|---|---|---|---|
| services/ingestionService.js:229-241 | the new article's date goes to `publishedAt`, but every article schema requires `pubDate` and has no `publishedAt` field, so every save fails validation | any new record with a title, link and known source | store the date in `pubDate` so that new articles are saved | not executed | Ingestion.AsWrittenNeverInserts | Ingestion.NewRecordIsStored |
| services/aiService.js:174-187 | the RetryInfo `@type` is compared with a Markdown link literal, which no Gemini detail carries | a 429 error whose details hold `type.googleapis.com/google.rpc.RetryInfo` with `retryDelay` "7s" | wait the server's suggested 7 seconds | not executed | AiService.ServerDelayLoopAsWritten | AiService.ServerDelayLoopHonoured |
| routes/news.js:94 | `findOne({ email })` with no `email` in the body has an empty filter and finds the first stored user, whose `firebaseUid` is then overwritten | a sign-in with a new uid and a body without `email`, on a collection with one user | a missing email matches nobody, so the create branch refuses the user | not executed; relies on Mongoose dropping `undefined` filter keys | UserAccounts.AbsentEmailRelinksFirst | UserAccounts.SyncIntendedAbsentEmail |
