# ITK ingestion pipeline, modelled in Dafny

This project models the deterministic core of ITK ("I Too Know"). ITK scrapes
company web pages, embeds the text into Chroma collections, and answers chat
queries from them. The modelled pipeline goes scrape → group → embed:

- `TextClean`: `CompanyWebScraper.clean_text`. It deletes every character
  outside `[\w\s.,!?-]`, then strips surrounding whitespace.
- `Scrape`: `process_url` and `scrape_content`.
  - `process_url` makes a static fetch, falls back to a browser render on any
    status other than 200, and returns the sentinel document
    `"No content found"` on any exception.
  - `scrape_content` processes the URLs in batches of `max_concurrent`,
    gathers each batch in order, and concatenates the results.
- `Registry`: the company CSV as rows of `Company`/`URL`.
  - `get_companies_from_csv` is modelled.
  - So is the `df[df['URL'] == url]['Company'].iloc[0]` lookup.
- `Grouping`: `ITKService.parse_results`. Each document is attributed to the
  company of the first row with its URL, then grouped by company in dict
  insertion order.
- `VectorStore`: two parts of `VectorStoreService`.
  - The collection name is `company.strip().lower()` followed by
    `_vectorstore`.
  - `embed_documets` follows a fixed sequence:
    1. open the company store;
    2. split the documents;
    3. write the chunks there;
    4. open `all_companies`;
    5. write the same chunks there.

    The first step that raises ends the call and the exception is re-raised.
- `Ingest`: `ITKService.scrape_and_store_data`, which runs one embedding
  task per company, and the store choice of `ITKService.chat`.

## How the outside world is represented

Each foreign call is an uninterpreted function held in a datatype. The
properties hold for every such function, but a function gives the same answer
every time it is called with the same arguments (see "## Left out"):

- `Scrape.Web`: what aiohttp replies, what Playwright renders, and what
  BeautifulSoup's `stripped_strings` yields.
- `VectorStore.StoreEnv`: the text splitter, and which store effects raise.

Store effects are `Step`s. `VectorStore.Execute` runs a plan of steps and
returns the steps actually attempted, plus whether the call returned
normally.

Python's `\s` and `str.strip()` use CPython's whitespace table, which is
written out in `TextClean.IsSpace`. The Unicode `\w` class is a parameter
`isWord`.

`asyncio.gather` is modelled as an in-order sequential map:

- `process_url` never raises, so gathering a batch yields one document per URL
  in task order.
- The embedding fan-out runs every task, and the cycle is `ok` only when no
  task raised.

## Source behaviours worth knowing

- **Unregistered sources raise.** `.iloc[0]` on an empty selection raises
  `IndexError` (app/services/itk_service.py:50). The eager `list(map(...))`
  over the documents (app/services/itk_service.py:49-51) therefore raises at
  the first document whose source matches no row. `Grouping.ParseResults`
  returns `Failure(NoRowForSource(i))` for that document.
- **Input order is kept.** `scrape_content` extends `results` batch after
  batch (app/services/scrape_service.py:76-80), and `gather` returns results
  in task order. So `result[i]` is the document for `urls[i]`, across
  batches as well (`Scrape.ScrapeContent`).
- **URLs match exactly.** The lookup `df['URL'] == source`
  (app/services/itk_service.py:50) compares strings exactly, without case or
  whitespace normalisation. `Registry.FirstRow` does the same.
- **Only the helper recovers from an unreadable file.**
  `get_companies_from_csv` turns a missing file or an exception into `[]`
  (app/utils/helpers.py:16-22). `scrape_and_store_data` reads through
  `load_data_from_csv` (app/services/itk_service.py:40-42, 105), which
  catches nothing, so the cycle raises (`Ingest.Cycle.LoadRaised`).

## Model

| member | source | states |
|---|---|---|
| TextClean.Filter | app/services/scrape_service.py:16 | The substitution keeps only characters of the class. It keeps every occurrence of each such character, and its output is a subsequence of the input. |
| TextClean.SkipSpace | app/services/scrape_service.py:17 | The scan from `i` stops at the first non-whitespace character, or at the end, passing only over whitespace. |
| TextClean.BackSpace | app/services/scrape_service.py:17 | The backward scan from `j` stops just after the last non-whitespace character, passing only over whitespace. |
| TextClean.Strip | app/services/scrape_service.py:17 | `str.strip()` is never longer than its input and never starts or ends with whitespace. |
| TextClean.StripSpan | app/services/scrape_service.py:17 | The stripped text is the input span after the leading whitespace. Everything dropped before and after it is whitespace. |
| TextClean.StripIsSubsequence | app/services/scrape_service.py:17 | Stripping only deletes characters. |
| TextClean.StripKeepsNonSpace | app/services/scrape_service.py:17 | Stripping removes no non-whitespace character: every such character keeps its count. |
| TextClean.StripOfStripped | app/services/scrape_service.py:17 | A string with no edge whitespace strips to itself. |
| TextClean.CleanText | app/services/scrape_service.py:12-17 | `clean_text` yields only word characters, whitespace and `.,!?-`, with no leading or trailing whitespace. |
| TextClean.CleanTextIsSubsequence | app/services/scrape_service.py:16-17 | `clean_text` only deletes characters: its output is a subsequence of its input. |
| TextClean.CleanTextKeepsContent | app/services/scrape_service.py:16-17 | Every kept non-whitespace character survives cleaning as often as it occurs in the input. |
| TextClean.FilterOfKept | app/services/scrape_service.py:16 | The substitution leaves a string made only of kept characters unchanged. |
| TextClean.CleanTextFixpoint | app/services/scrape_service.py:16-17 | `clean_text` returns its input exactly when the input is already clean, in both directions. |
| TextClean.CleanTextIdempotent | app/services/scrape_service.py:16-17 | Cleaning twice equals cleaning once. |
| Scrape.ProcessUrl | app/services/scrape_service.py:30-73 | `process_url` always yields a document whose source is the URL. Its content is either the sentinel or a clean text. |
| Scrape.SentinelIsClean | app/services/scrape_service.py:70-73 | The sentinel text is itself clean when `\w` covers its letters. |
| Scrape.StaticOn200 | app/services/scrape_service.py:36-47 | Status 200 with a readable body yields the cleaned static page. The browser render has no influence. |
| Scrape.RenderOnOtherStatus | app/services/scrape_service.py:48-67 | Any other status yields the cleaned rendered page, or the sentinel if rendering raises. The static body has no influence. |
| Scrape.ExceptionGivesSentinel | app/services/scrape_service.py:68-73 | An exception from the fetch, from reading the body, or from the render yields `"No content found"` for the URL. |
| Scrape.Gather | app/services/scrape_service.py:78-79 | Gathering a batch yields one document per URL, in task order: the i-th result is `process_url` of the i-th URL, so it carries that URL as source. |
| Scrape.Batches | app/services/scrape_service.py:76-77 | The batches concatenate back to the URL list. Each batch holds between 1 and `max_concurrent` URLs, and all but the last are full. |
| Scrape.AsList | app/services/scrape_service.py:25-26 | A bare string is treated as a one-element URL list. |
| Scrape.ScrapeBatches | app/services/scrape_service.py:76-80 | The batching loop yields one document per URL, `result[i]` is `process_url(urls[i])`, and the result is each `range` batch gathered in turn, laid end to end. |
| Scrape.ScrapeContent | app/services/scrape_service.py:19-82 | With a step of 0, `range` raises; a negative step gives `[]`. A positive step gives exactly one document per URL, `result[i]` is `process_url(urls[i])`, and the result is the in-order gather of the `range` batches laid end to end. |
| Registry.Unique | app/utils/helpers.py:19 | `Series.unique()` has no repeats and holds exactly the values of its input. |
| Registry.UniqueKeepsFirstOccurrenceOrder | app/utils/helpers.py:19 | `unique` lists values in the order of their first occurrence. |
| Registry.UniqueOfDistinct | app/utils/helpers.py:19 | `unique` returns a repeat-free sequence unchanged. |
| Registry.CompaniesFromCsv | app/utils/helpers.py:5-22 | A missing file or an exception gives `[]`. Otherwise the result has no duplicates, holds every row's company, and holds nothing else. |
| Registry.CompaniesInFirstMentionOrder | app/utils/helpers.py:19 | The company names are listed in the order in which the rows first mention them. |
| Registry.FirstRow | app/services/itk_service.py:50 | The lookup finds the first row whose URL equals the source, and finds nothing exactly when no row matches. |
| Registry.RegistryUrlsRegistered | app/services/itk_service.py:108-112 | Every registry URL is found by the lookup, at its own row or an earlier one. |
| Grouping.Attribute | app/services/itk_service.py:49-51 | When every source is registered, each document gets the company of its first matching row. Otherwise the first unregistered document makes the mapping raise. |
| Grouping.DocsFor | app/services/itk_service.py:55-59 | Reference group: the documents whose key is the company, in input order. It is empty exactly when the company is not a key. |
| Grouping.DocsForKeepsOrder | app/services/itk_service.py:55-59 | A group keeps its documents in their relative input order. |
| Grouping.DocsForCount | app/services/itk_service.py:55-59 | A group holds as many documents as were attributed to its company. |
| Grouping.Group | app/services/itk_service.py:55-59 | The grouping loop creates one entry per company of the documents and no other, each listed once. |
| Grouping.GroupMatchesReference | app/services/itk_service.py:55-59 | Each group the loop builds equals the reference group and is non-empty. |
| Grouping.GroupOrder | app/services/itk_service.py:55-59 | Companies appear in the dict in order of their first document. |
| Grouping.GroupPartition | app/services/itk_service.py:55-59 | The groups partition the documents: laid end to end they are a permutation of the input, with the same total size. |
| Grouping.ParseResults | app/services/itk_service.py:44-61 | `parse_results` succeeds exactly when every source is registered, and otherwise raises at the first unregistered one: every earlier source is registered. On success the groups are the reference groups, non-empty, in first-appearance order, and partition the input. |
| VectorStore.Lower | app/services/vectorstore_service.py:22 | Lower-casing keeps the length and the whitespace positions and leaves no upper-case ASCII letter. |
| VectorStore.LowerOfLowercase | app/services/vectorstore_service.py:22 | Lower-casing leaves a string with no upper-case letter unchanged. |
| VectorStore.CollectionName | app/services/vectorstore_service.py:22 | The collection name ends in `_vectorstore`. The stem before it has no edge whitespace and no upper-case letter. |
| VectorStore.CollectionNameInjective | app/services/vectorstore_service.py:22 | Two company names share a collection exactly when they agree after `strip()` and lower-casing, so distinct normalised names get distinct collections. |
| VectorStore.StripIgnoresPadding | app/services/vectorstore_service.py:22 | `strip()` gives the same text whatever whitespace surrounds its argument. |
| VectorStore.CollectionNameIgnoresPadding | app/services/vectorstore_service.py:22 | Company names that differ only in surrounding whitespace map to the same collection. |
| VectorStore.LowerStripCommute | app/services/vectorstore_service.py:22 | Stripping and lower-casing commute. |
| VectorStore.CollectionNameIgnoresCase | app/services/vectorstore_service.py:22 | Company names that differ only in letter case map to the same collection. |
| VectorStore.Execute | app/services/vectorstore_service.py:33-45 | The attempted steps are a prefix of the plan, and all but the last succeeded. The call returns normally exactly when the whole plan ran without a failure; otherwise the last attempted step raised and the exception propagates. |
| VectorStore.ExecuteFivePlan | app/services/vectorstore_service.py:34-41 | In a five-step run whose third and fifth steps write, the writes happen in plan order. Both happen when the run completes, and a failure stops before the remaining writes. |
| VectorStore.EmbedInto | app/services/vectorstore_service.py:32-45 | The attempted steps are a prefix of the five-step plan (open target, split, write target, open aggregate, write aggregate), so a failure skips every later step. The call opens the target first. It writes the one chunk list to the target and then to the aggregate, both on success. It returns normally exactly when no step of the plan fails. Every step before the last one attempted succeeded, and a failing step is the last one, leaving the later writes undone. |
| VectorStore.EmbedDocuments | app/services/vectorstore_service.py:32-45 | `embed_documets` attempts a prefix of its five steps in source order, so a failure skips every later step. It writes the same chunks to the company's collection and then to `all_companies_vectorstore`. It returns normally exactly when no step fails. Otherwise the first failing step ends the call and is re-raised. |
| VectorStore.AggregateAfterCompany | app/services/vectorstore_service.py:36-41 | The aggregate write is attempted only after the company write succeeded. |
| VectorStore.AggregateStripped | app/services/vectorstore_service.py:40 | `'all_companies'` is already stripped. |
| VectorStore.AggregateLowered | app/services/vectorstore_service.py:40 | `'all_companies'` is already lower-case. |
| VectorStore.AggregateCollectionName | app/services/vectorstore_service.py:40 | The aggregate store is the collection `all_companies_vectorstore`. |
| VectorStore.CollectionNameIsAggregate | app/services/vectorstore_service.py:22-40 | A company's own collection is `all_companies_vectorstore` exactly when its name normalises to `all_companies`; every other company writes to a collection of its own. |
| VectorStore.AggregateCompanyWrittenTwice | app/services/vectorstore_service.py:34-41 | A company whose normalised name is `all_companies` targets the aggregate collection itself. On success its chunks are written there twice. |
| Ingest.ScrapedAreRegistered | app/services/itk_service.py:108-112 | Documents scraped from a URL column of strings all have a registered source, so the attribution never raises. |
| Ingest.EmbedAll | app/services/itk_service.py:115-120 | One embedding task per company, in dict order, with exactly that company's documents. The tasks together receive the groups laid end to end, and the fan-out is `ok` exactly when no task raised. |
| Ingest.ScrapeRegistry | app/services/itk_service.py:108-109 | Every registry URL is scraped in row order, one document per row, and every document's source is registered. |
| Ingest.StoreGroups | app/services/itk_service.py:112-120 | After grouping, there is one `embed_documets` call per distinct company, in first-appearance order, with that company's non-empty group. The calls together receive every document exactly once. |
| Ingest.ScrapeAndStore | app/services/itk_service.py:104-122 | Reading the CSV raises exactly when the file is missing or unreadable (a readable file always has both columns here). Otherwise one document per row, then one embedding call per company; every document is embedded once, and the cycle succeeds exactly when every call did. |
| Ingest.DuplicateUrlGoesToFirstRow | app/services/itk_service.py:50 | A URL listed on several rows credits its document to the company of the first such row. |
| Ingest.ChatCollection | app/services/itk_service.py:25-28 | A missing or empty company name reads `all_companies_vectorstore`; any other name reads that company's collection. |
| Ingest.ChatStore | app/services/itk_service.py:25-28 | `chat` opens exactly that one store and raises exactly when opening it raises. |
| Ingest.ChatReadsCompanyStore | app/services/itk_service.py:28 | A chat about a company reads the collection that `embed_documets` writes that company's chunks to first. |
| Ingest.ChatBlankName | app/services/itk_service.py:25-28 | A whitespace-only name is truthy, so it does not fall back to the aggregate: it opens the collection `_vectorstore`. |

## Left out

- Timestamps: `datetime.now()` in the document metadata is not modelled. A `Document` holds the content and the `source` only.
- Foreign libraries: aiohttp, Playwright, BeautifulSoup, pandas' CSV parser, `RecursiveCharacterTextSplitter` (chunk size 750, overlap 50), Chroma and the OpenAI embeddings are not modelled. Each is an uninterpreted function or an abstract step, so chunk contents and embeddings are not modelled.
- Independent failures of repeated calls: `Web.get`, `Web.render` and `StoreEnv.fails` are functions of their arguments, so two identical calls in one cycle always agree. In the source each `session.get`, each `Chroma(...)` construction and each `aadd_documents` (an OpenAI embeddings request) is a separate call that can fail on its own. In the model, a URL listed on two rows always yields two equal documents. Opening `all_companies_vectorstore` fails either in every company's task or in none. A company whose normalised name is `all_companies` cannot fail at its second open or its second write once the first succeeded. Calls indexed by their position in the cycle would lift this; they are not modelled.
- Real concurrency: interleavings inside a batch and among the embedding tasks are not modelled. Each task is a separate trace, and `gather` is an in-order map.
- `Ingest.ScrapeAndStore`: which exception `asyncio.gather` surfaces when several embedding tasks raise is not modelled. Only whether any raised is.
- Python's Unicode `\w` is not defined in the model. It is a parameter, so the cleaning properties hold for every choice of it.
- `VectorStore.Lower`: lower-cases ASCII `A`-`Z` only. Python's `str.lower()` also maps other Unicode letters, and some of those to several characters. The case properties are therefore proved for ASCII case only.
- `VectorStore.CollectionName`: inherits the ASCII-only lower-casing of `Lower`. `CollectionNameInjective` and `CollectionNameIsAggregate` therefore compare names under that lower-casing. Two names that Python's `str.lower()` maps together through a non-ASCII letter (`"É"` and `"é"`) share a collection in the source but not in the model.
- `Grouping.Attribute`: the key is the company value as a string. The f-string conversion of a non-string cell (a missing value becomes `"nan"`) is not modelled.
- `Ingest.ScrapedAreRegistered`: assumes every `URL` cell is a string (`Row.url: string`). pandas reads a blank cell as NaN. `process_url(nan)` ends in the `except` and yields a document whose source is NaN (app/services/scrape_service.py:68-73). No row equals NaN, so `.iloc[0]` raises at app/services/itk_service.py:50. That case is not modelled.
- `Ingest.ScrapeAndStore`: for the same reason, the model does not show the cycle raising in `parse_results` when the registry has a blank `URL` cell.
- `Ingest.ScrapeAndStore`: a readable CSV that lacks the `Company` column is not modelled. In the source, `scrape_and_store_data` first scrapes every URL (app/services/itk_service.py:108-109), then raises `KeyError` at app/services/itk_service.py:50. With zero rows it completes without any embedding call, because `map` never calls the lambda. A readable CSV that lacks the `URL` column raises at app/services/itk_service.py:108 before anything is scraped. Neither shape fits `CsvRead`, whose `Table` always has both columns and whose `ReadRaised` stands for `read_csv` itself raising.
- `Registry.CompaniesFromCsv`: a readable CSV that lacks the `URL` column is not modelled. `get_companies_from_csv` reads only `Company`, so for that file it returns the unique companies (app/utils/helpers.py:18-19). A file that lacks `Company` gives `[]` through the `except` (app/utils/helpers.py:21-22), which `ReadRaised` matches.
- `Registry.CompaniesFromCsv`: the rows hold strings, so a missing `Company` value (pandas NaN, which `unique` keeps) is not modelled.
- Browser cleanup: `browser.close()` is skipped when the render path raises. Resource use is not modelled.
- Logging calls (`logger.info` / `logger.error`) have no effect on results and are not modelled.
- `chat` after the store is opened is not modelled: the web search, the semantic search, the LLM prompt chain and its answer.
- Also not modelled: app/services/llm_service.py, the pydantic models, the FastAPI routers, the CLI, the scheduler, the dependency singleton, the abstract DB and chat-history stubs, and the script scrapee.py.
