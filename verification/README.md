# A verified model of the article scraper and its similarity tool

The repository is a small Python scraper of news articles. For each article
URL it

- asks the Wayback Machine for an archived copy of the page;
- fetches the HTML and removes ignored elements and attributes;
- lets a content extractor pull out the title and body;
- writes a CSV row, a markdown entry and the cleaned HTML under a
  per-run directory (as written it raises `KeyError('url')` before any of
  this; see Findings).

A companion tool compares scraped texts with manually copied ones. It uses
an n-gram similarity and a normalised edit distance, and adds two table
rows per article, one for the title and one for the content.

This project models that logic in Dafny as pure functions. The network, the
HTML parser, the content extractor and the similarity libraries are
parameters.

- `Outcomes` (outcomes.dfy): Python exceptions become a `Result` that is
  either `Ok(value)` or `Raise(exception)`. `DownloaderError` is one kind of
  exception among the others.
- `Web` (web.dfy): the network is a `Net` value. `get(url, k)` is the reply
  to the k-th request of a retry loop; every other request is attempt 0. A
  reply is a transport failure (`RequestException`) or a response with a
  status, a text and possibly a JSON body. A response is falsy exactly when
  its status is in [400, 600), as in `requests`. `newest(url)` is the CDX
  lookup: the newest snapshot, no record, or some other failure.
- `Template` (template.dfy): `str.format` with keyword arguments, the way
  the scraper expands its path and markdown templates. `{{` and `}}` stand
  for literal braces. A field that names no argument raises `KeyError`.
  Extra arguments are ignored.
- `Const` (const.dfy): the constants of `scraper/const.py`.
- `Downloader` (downloader.dfy): the CDX, Internet Archive and direct
  downloaders, the availability retry loop (as a recursive function and as
  the source's counted loop with `break`), and the fallback chain of
  `download_resource`.
- `HtmlTree` (html.dfy): the element-tree transform of `clean_html`.
- `ScraperUtils` (scraper_utils.dfy): `get_alternate_url` and
  `clean_html`.
- `Scraper` (scraper.dfy): the article id, `scrape_article`,
  `_init_files`, the markdown entry and `process_article`. The last three
  come both as written and corrected (see Findings).
- `Strings` (strings.dfy): `str.split` on a separator and on whitespace,
  and `str.join`.
- `Journal` (journal.dfy): `get_journal_name`.
- `Metrics` (metrics.dfy): Jaccard similarity, Levenshtein distance and
  `edit_score`.
- `MetricsCompute` (metrics_compute.dfy): `compute_metrics_for_articles`.

Some behaviour of the code worth stating up front:

- Only the Internet Archive downloader retries. It retries immediately
  and only on `RequestException`, and issues at most `retries`
  availability requests in all.
- The chain falls through on `DownloaderError` only. Every other exception
  escapes at once.
- A successful download is a `(resolved URL, content)` pair.
- A falsy availability response is not retried; it raises `DownloaderError`
  at once.

## Model

| member | source | states |
|---|---|---|
| `Web.Truthy` | scraper/downloader.py:53 | a transport failure is never truthy; a response with a 2xx or 3xx status is truthy and one with a 4xx or 5xx status is falsy |
| `Web.GetText` | scraper/utils.py:26-28 | `requests.get(url).text` is the body of the first reply when that reply is a response, and a `RequestException` when it is a transport failure |
| `Template.Lookup` | scraper/scraper.py:24 | a field name resolves to its keyword argument; a name that is not a keyword raises `KeyError(name)`, and an empty name never resolves |
| `Template.FormatField` | scraper/scraper.py:24 | a `{k}` field is replaced by `args[k]` and expansion carries on; when `k` is missing the result is `KeyError(k)`, and the rest of the template is never looked at |
| `Template.FormatRender` | scraper/scraper.py:23-25 | any template made of brace-free literals and named fields expands to its literals and argument values in order, or to `KeyError` for the first field without a value |
| `Template.FormatIgnoresExtraKeys` | scraper/scraper.py:52 | adding keyword arguments never changes a successful expansion |
| `Template.EscapeRoundTrip` | scraper/const.py:9-10 | doubled braces denote literal braces: formatting a text whose braces are all doubled gives the text back, whatever the arguments |
| `Scraper.ResultPathsFromFStrings` | scraper/const.py:9-10 | the markdown and HTML path constants are `RESULT_DIR` followed by the literal part of each f-string with its doubled braces `{{url}}` read as the single field `{url}` |
| `Downloader.CdxDownloader` | scraper/downloader.py:22-35 | `DownloaderError` with the "No alternate URL" message exactly when the CDX index has no record; on success the resolved URL is the newest snapshot and the content is fetched from the ORIGINAL URL; a CDX failure escapes as `CdxError` with its reason, and a transport failure of the fetch as `RequestException` with its reason |
| `Downloader.AvailabilityUrl` | scraper/downloader.py:41 | the availability query is the API prefix followed by the URL, pasted in verbatim |
| `Downloader.PollFrom` | scraper/downloader.py:45-51 | from iteration k on, the loop keeps requesting after each transport failure and stops at the first reply that is a response, issuing at most `retries` requests in all |
| `Downloader.PollAvailability` | scraper/downloader.py:43-51 | at most `max(retries, 0)` requests; no response exactly when every one of the `retries` attempts failed in transport, and then exactly `max(retries, 0)` requests were made; otherwise the kept response is the reply to the last request and all earlier ones failed |
| `Downloader.PollAvailabilityLoop` | scraper/downloader.py:43-51 | the counted loop with `break` leaves the same response and request count as the recursive characterisation |
| `Downloader.Subscript` | scraper/downloader.py:59 | one `[key]` on a JSON value: the field of an object, `KeyError(key)` for a missing key of an object, `TypeError` on anything that is not an object |
| `Downloader.SnapshotUrl` | scraper/downloader.py:58-63 | the nested lookup `["archived_snapshots"]["closest"]["url"]` succeeds exactly when all three keys are present in nested objects, and then gives that value; it can only raise `KeyError` or `TypeError`, a document that is not an object raises `TypeError`, and it raises `KeyError` exactly when one of the three keys is absent from the object at its level |
| `Downloader.FromAvailabilityReply` | scraper/downloader.py:56-65 | a body that is not JSON raises `JSONDecodeError`; a missing key at any of the three levels becomes `DownloaderError` "Could not find a snapshot"; a `TypeError` from subscripting a non-object escapes unchanged; a string snapshot URL gives that URL with the text fetched from it when the fetch returns a response, and the fetch's `RequestException` otherwise; a snapshot value that is not a string raises `RequestException`; on success the resolved URL is the snapshot URL and the content comes from fetching it |
| `Downloader.InternetArchiveDownloader` | scraper/downloader.py:38-65 | no response after the retries, or a falsy one, raises `DownloaderError` "Could not fetch" naming the query; a truthy response goes on to the snapshot lookup; its only `DownloaderError`s carry one of those two messages |
| `Downloader.DirectDownloader` | scraper/downloader.py:68-69 | never raises `DownloaderError`; it succeeds exactly when the fetch returns a response, and then the resolved URL is the input URL and the content is its fetched text; a transport failure escapes as `RequestException` with its reason |
| `Downloader.FirstNonError` | scraper/downloader.py:81-85 | the index of the first downloader whose outcome is not `DownloaderError`: every earlier one raised `DownloaderError` |
| `Downloader.Chain` | scraper/downloader.py:78-87 | for any list of callables: the result is the outcome of the first callable that did not raise `DownloaderError`; it is `DownloaderError` exactly when every callable raised one, and with none left it is the terminal "No downloaders could download" error |
| `Downloader.DownloadResourceIsChain` | scraper/downloader.py:78-87 | the chain of the module's downloaders is the generic chain of the callables that run them |
| `Downloader.DownloadResource` | scraper/downloader.py:78-87 | the result is exactly the outcome of the first downloader that did not raise `DownloaderError`, whether a value or another exception; it is `DownloaderError` exactly when every downloader raised one, and then it carries the terminal "No downloaders could download" message |
| `Downloader.FirstNonErrorUnique` | scraper/downloader.py:81-85 | any index whose predecessors all raised `DownloaderError` and which itself did not is the chain's choice |
| `Downloader.LaterDownloadersNeverRun` | scraper/downloader.py:81-83 | two chains that agree up to the deciding downloader give the same result, so later downloaders are never consulted |
| `Downloader.DefaultChain` | scraper/downloader.py:72-75 | the default chain returns the Internet Archive's outcome unless it is `DownloaderError`, and then the direct fetch's; the terminal `DownloaderError` cannot occur |
| `HtmlTree.Decompose` | scraper/utils.py:40-41 | no element with an ignored tag remains anywhere; a tree without ignored tags is unchanged |
| `HtmlTree.DecomposeSingle` | scraper/utils.py:40-41 | on one node: a text node stays, an element with an ignored tag disappears with its subtree, and any other element stays with its tag and attributes and its children cleaned |
| `HtmlTree.DecomposeConcat` | scraper/utils.py:40-41 | the first pass works node by node: on two adjacent runs of nodes it gives the result for the first run followed by the result for the second, so kept nodes keep their order and multiplicity |
| `HtmlTree.DecomposeKeeps` | scraper/utils.py:40-41 | text nodes and elements with kept tags stay, with their attributes, and only their subtrees are cleaned; an element with an ignored tag is removed with its subtree |
| `HtmlTree.EraseSkeleton` | scraper/utils.py:43-45 | the tag skeleton against which attribute removal is measured: node by node, text is kept, and each element keeps its tag, has no attributes and has its children erased in turn |
| `HtmlTree.StripAttrs` | scraper/utils.py:43-45 | no element keeps an ignored attribute; every other attribute keeps its value; tags, text and shape are unchanged; a tree without ignored attributes is unchanged |
| `HtmlTree.Clean` | scraper/utils.py:40-45 | after both passes neither ignored tags nor ignored attributes remain; in a tree without ignored tags only the ignored attributes are removed |
| `HtmlTree.CleanIdempotent` | scraper/utils.py:40-45 | cleaning a cleaned tree changes nothing |
| `ScraperUtils.AlternateUrl` | scraper/utils.py:12-23 | the newest snapshot URL, or the input URL when the CDX index has no record; it raises exactly when the CDX lookup fails in another way, and then with that failure as a `CdxError` |
| `ScraperUtils.CdxDownloaderAgreesWithAlternateUrl` | scraper/downloader.py:25-35 | the CDX downloader raises `DownloaderError` exactly when `get_alternate_url` falls back to the input URL, and otherwise resolves to the same archive URL |
| `ScraperUtils.CleanHtml` | scraper/utils.py:31-53 | on a non-empty input the result is the parsed tree with both passes applied for `HTML_TAG_IGNORE` and `HTML_ATTR_IGNORE`, so it is free of those tags and attributes; an empty input raises `ZeroDivisionError` in the size-ratio log line |
| `Scraper.ArticleId` | scraper/scraper.py:37 | the id has the URL's length, contains no `/`, and equals the URL with each `/` replaced by `_` |
| `Scraper.ArticleIdIdempotent` | scraper/scraper.py:37 | deriving an id from an id changes nothing |
| `Scraper.ArticleIdFixpoint` | scraper/scraper.py:37 | a URL is its own id exactly when it has no `/` |
| `Scraper.ScrapeArticle` | scraper/scraper.py:13-19 | it succeeds exactly when the alternate URL is found and fetching it returns a non-empty page; a CDX failure or a fetch failure escapes unchanged and an empty page raises `ZeroDivisionError`; on success the dict has exactly the keys url, alternate_url, html, title and content; `url` is the input, `alternate_url` the alternate URL, `html` the cleaned parse of the fetched page, and title and content the extractor's fields for the serialised cleaned page |
| `Scraper.FormatArgs` | scraper/scraper.py:52 | `format(**article)` sees every key of the article, and each string value unchanged |
| `Scraper.ResultFilenameExpands` | scraper/scraper.py:23 | the CSV path expands to `results/` + version + `/results.csv` |
| `Scraper.PerArticlePathExpands` | scraper/scraper.py:24-25 | the markdown and HTML path templates expand to `results/` + version + dir + url + ext when `url` is given, and raise `KeyError('url')` otherwise |
| `Scraper.InitFiles` | scraper/scraper.py:22-30 | as written, the only exception it can raise is `KeyError('url')`, and whenever it returns, its paths are those of the corrected version |
| `Scraper.InitFilesAlwaysRaises` | scraper/scraper.py:22-30 | as written, `_init_files` raises `KeyError('url')` for every version and id |
| `Scraper.InitFilesFixed` | scraper/scraper.py:22-30 | with `url=id` added, the three paths are the run's CSV file, `md/<id>.md` and `html/<id>.html` |
| `Scraper.MarkdownExpands` | scraper/const.py:5 | the markdown template expands to title, URL, fetched URL and content in their places, or raises `KeyError` naming the fetched-URL field when it is missing |
| `Scraper.ArticleWithId` | scraper/scraper.py:41-42 | the article dict gains the key `id` holding the article id; all other entries are unchanged |
| `Scraper.MarkdownFormatNeedsUsedUrl` | scraper/const.py:5 | `MD_FORMAT` raises `KeyError('used_url')` whenever `used_url` is not an argument |
| `Scraper.MarkdownFormatFixedExpands` | scraper/const.py:5 | the corrected template fills in title, URL, alternate URL and content |
| `Scraper.MarkdownEntry` | scraper/scraper.py:52 | as written, `MD_FORMAT.format(**article)` raises `KeyError('used_url')` for a dict with a title and a URL but no `used_url`; with string `title`, `url`, `used_url` and `content` it is the heading, URL, used URL and content text |
| `Scraper.MarkdownEntryRaises` | scraper/scraper.py:52 | as written, the markdown entry of every scraped article raises `KeyError('used_url')` |
| `Scraper.MarkdownEntryFixed` | scraper/scraper.py:51-52 | corrected, the entry exists exactly when scraping succeeds, and it is the heading, URL, alternate URL and content text; otherwise the scraper's exception is the result |
| `Scraper.ProcessArticleAlwaysRaises` | scraper/scraper.py:33-59 | as written, `process_article` raises `KeyError('url')` for every article, before anything is scraped |
| `Scraper.ProcessArticle` | scraper/scraper.py:33-59 | as written, a failure of `_init_files` is the result whatever the network does, since the paths are expanded before scraping; whenever it returns, the result is the corrected version's |
| `Scraper.ProcessArticleFixed` | scraper/scraper.py:33-59 | corrected, and with the run's `md` directory taken to exist, it fails exactly when scraping fails and then with the scraper's exception; the returned dict is the scraped dict with the id added; the paths are keyed by the run version and the id; the markdown is the corrected entry |
| `Strings.Split` | similarity/utils.py:12 | `split('.')` gives at least one piece, no piece contains the separator, and joining the pieces with the separator gives the input back |
| `Strings.SplitJoin` | similarity/utils.py:12-14 | splitting a join of separator-free pieces gives the pieces back |
| `Strings.JoinEnds` | similarity/utils.py:14 | `sep.join(parts)` starts with the first piece, has the separator right after it when there are two or more pieces, and ends with the last piece |
| `Strings.JoinHasSeparator` | similarity/utils.py:14 | a join of two or more pieces contains the separator |
| `Strings.Words` | similarity/metrics.py:7-8 | `split()` gives non-empty whitespace-free words which, concatenated, are the input's non-whitespace characters in order |
| `Strings.WordsOfWord` | similarity/metrics.py:7-8 | a non-empty text without whitespace is a single word |
| `Strings.WordsSplitAtSpace` | similarity/metrics.py:7-8 | any whitespace character ends a word: the words of a text split at one are the words of the left side followed by those of the right side, so runs of spaces, tabs or line breaks and leading or trailing whitespace add no words |
| `Strings.WordsUnwords` | similarity/metrics.py:7-8 | splitting on whitespace undoes joining non-empty whitespace-free words with single spaces |
| `Journal.JournalName` | similarity/utils.py:8-21 | the name is one of the host's dot-separated labels, so it contains no dot; a host without a dot, the empty one included, is its own name |
| `Journal.JournalNameByLabels` | similarity/utils.py:12-21 | with more than two labels, a listed suffix selects the third-to-last label and any other suffix the second-to-last; with one or two labels the first label is the name |
| `Journal.SingleLabelSuffixesNeverMatch` | similarity/utils.py:9-14 | the looked-up suffix always contains a dot, so `fr`, `de` and `es` never match |
| `Journal.BbcExample` | similarity/utils.py:14-15 | `www.bbc.co.uk` gives `bbc` |
| `Journal.LemondeExample` | similarity/utils.py:17-18 | `www.lemonde.fr` gives `lemonde` |
| `Journal.TwoLabelExample` | similarity/utils.py:20-21 | `example.com` gives `example` |
| `Metrics.Tokens` | similarity/metrics.py:7-8 | every token is non-empty and free of whitespace |
| `Metrics.TokensOfUnwords` | similarity/metrics.py:7-8 | the token set of space-joined words is the set of those words |
| `Metrics.Jaccard` | similarity/metrics.py:6-10 | `ZeroDivisionError` exactly when neither text has a token; otherwise the number of shared tokens over the number of all tokens, a value in [0, 1] that is 1 exactly for equal token sets and 0 exactly for disjoint ones |
| `Metrics.JaccardSymmetric` | similarity/metrics.py:6-10 | the score does not depend on the order of the texts |
| `Metrics.JaccardSeesTokenSets` | similarity/metrics.py:7-10 | texts with the same token sets score the same, however the words are repeated or ordered |
| `Metrics.LevBounds` | similarity/metrics.py:23 | the edit distance lies between the length difference and the longer length |
| `Metrics.LevZero` | similarity/metrics.py:23 | the edit distance is zero exactly between equal strings |
| `Metrics.LevSymmetric` | similarity/metrics.py:23 | the edit distance does not depend on the order of the strings |
| `Metrics.EditScore` | similarity/metrics.py:22-23 | `ZeroDivisionError` exactly when both strings are empty; otherwise 1 − distance / longer length, a value in [0, 1], 1 exactly for equal strings and 0 exactly when the distance is the longer length |
| `Metrics.EditScoreSymmetric` | similarity/metrics.py:22-23 | the edit score does not depend on the order of the strings |
| `Metrics.EditScoreAgainstEmpty` | similarity/metrics.py:23 | a non-empty text scores 0 against the empty string, on either side |
| `MetricsCompute.NgramSize` | similarity/metrics_compute.py:13-17 | the n-gram size is `n_title` exactly for the type "Title", and `n_text` otherwise |
| `MetricsCompute.Mark` | similarity/metrics_compute.py:27 | the mark is `X` exactly when the score is at least 0.95, and `-` otherwise |
| `MetricsCompute.ComputeMetrics` | similarity/metrics_compute.py:10-42 | an n-gram failure, two empty texts (`ZeroDivisionError`) or a cosine failure raise, in that order, each failure of a library escaping with its own exception; otherwise the table grows by one 7-cell row with earlier rows untouched; the row holds article number, journal and type unchanged, the n-gram score, the distance and edit score, the average and the threshold mark; the returned average is (n-gram + edit score) / 2 and equals the sixth cell |
| `MetricsCompute.CosineIgnored` | similarity/metrics_compute.py:22-42 | the cosine value has no influence on the score or the row |
| `MetricsCompute.AverageBounded` | similarity/metrics_compute.py:24 | with an n-gram score in [0, 1] the combined score is in [0, 1] |
| `MetricsCompute.IdenticalTextsMatch` | similarity/metrics_compute.py:24-27 | identical non-empty texts with a perfect n-gram score average 1 and are marked `X` |

## Left out

- Network, CDX API and availability endpoint: replaced by the `Net`
  parameter. The user agent, CDX keyword arguments, redirects and status
  codes matter only through response truthiness, so they are not modelled.
- `response.json()` parsing: the reply carries its decoded JSON or none.
  Numbers are reals.
- BeautifulSoup parsing, `str(soup)`, `prettify()` and Goose extraction
  (`extract_data`) are foreign libraries. They are parameters of
  `Scraper.ScrapeArticle`, and they are taken not to raise.
- The value of the size ratio logged by `clean_html` is not modelled. Only
  its division by zero on empty input is.
- Logging and the `functools.cache` memoisation: the model's functions are
  deterministic, so a cached answer equals a fresh one.
- File writing, `mkdir`, the pandas CSV append and the `datetime` version
  stamp (the version is a parameter). `process_articles` is left out too;
  its point is thread-pool concurrency and a progress bar.
- `urlparse`: `Journal.JournalName` takes the host (`netloc`) directly.
- `cosine_sim` (scikit-learn) and `NGram.compare` are parameters of
  `MetricsCompute.ComputeMetrics`, and either may raise.
  `editdistance.eval` is the Levenshtein recurrence `Metrics.Lev`.
- Floating point: ratios and averages are exact reals. The `:.2f` text of
  the edit column is an `EditCell(distance, score)` holding the two
  numbers.
- `print_similarity_results`, the argument parsers and the two `__main__`
  scripts (pandas merge, means, printing).
- `str.format` features the code does not use: positional arguments,
  attribute and index access, conversions and format specs. Malformed
  templates raise `ValueError`, but its message text is approximate.
- Template.Format: has no contract of its own. Its behaviour is stated by
  the lemmas about it (`FormatField`, `FormatRender`,
  `FormatIgnoresExtraKeys`, `EscapeRoundTrip`).
- HtmlTree.Clean: states attribute preservation only for trees without
  ignored tags. For other trees, `HtmlTree.DecomposeKeeps` and
  `HtmlTree.StripAttrs` state it one pass at a time.
- Metrics.Lev: defined by the standard recurrence. That it is the least
  number of edits is not proved.
- Scraper.ProcessArticleFixed: takes `results/<version>/md` to exist.
  `_init_files` creates only the CSV's parent and the `html` directory
  (scraper/scraper.py:27-28), so the append at line 51 would raise
  `FileNotFoundError` on a fresh run; directories are outside the model.
- Downloader.DownloadResource: its chain holds only the module's three
  downloaders. Arbitrary callables are covered by `Downloader.Chain`,
  and `Downloader.DownloadResourceIsChain` shows the first is an instance
  of the second.

## Findings

| source | as written | input that shows it | evidently intended | confidence | as-written member | corrected member |
|---|---|---|---|---|---|---|
| scraper/scraper.py:24 | `RESULT_MD_FILENAME.format(version=version)` gives no `url`, but the template holds `{url}` | any call, e.g. `_init_files("2024-01-01_00-00-00", "x")`, raises `KeyError('url')` | pass `url=id` as line 25 does for the HTML path | not executed; high | `Scraper.InitFilesAlwaysRaises` | `Scraper.InitFilesFixed` |
| scraper/scraper.py:33-59 | `process_article` calls `_init_files` before anything else | every article URL raises `KeyError('url')` before scraping | the per-article markdown and HTML paths keyed by the id | not executed; high | `Scraper.ProcessArticleAlwaysRaises` | `Scraper.ProcessArticleFixed` |
| scraper/const.py:5 | `MD_FORMAT` names a `{used_url}` field, but the article dict has `alternate_url` and no `used_url` | once line 24 is fixed and `results/<version>/md` exists, any article whose scraping succeeds raises `KeyError('used_url')` at line 52 of scraper/scraper.py | the fetched-URL field reads `{alternate_url}` | not executed; high | `Scraper.MarkdownEntryRaises` | `Scraper.MarkdownEntryFixed` |
