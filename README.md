# mkdocs-rss-plugin utilities, modelled in Dafny

This project models `Util`, the helper class of the RSS plugin for MkDocs
(`mkdocs_rss_plugin/util.py`). The class holds one piece of state: whether
git history may be queried. Around that state it has a set of selection and
precedence rules. The model covers:

- the repository probe of the constructor, and the `git_is_valid` flag it sets;
- `get_file_dates`, which reads creation and last-change timestamps from
  `git log` and falls back to the build timestamp;
- `build_url`, `get_description_or_abstract`, `get_image` and `guess_locale`;
- `get_remote_image_length`, with its bounded retry policy;
- `filter_pages`, which sorts pages newest first, keeps the first `length`
  of them and projects each into a feed item.

Git, HTTP, the URL routines of the standard library, MIME guessing and date
formatting are not modelled. Each enters as a parameter: either an outcome
(what a `git log` call or a request yielded) or a function (`urlparse`,
`urlunparse`, `urlencode`, `guess_type`, `formatdate`).

Files, one module each:

- `wrappers.dfy` (`Wrappers`): `Option` and `Result`.
- `py_builtins.dfy` (`PyBuiltins`): Python truthiness of strings, `s[:n]`
  (a negative `n` included), `str.startswith`, and `int()`/`str()` on decimal text.
- `urls.dfy` (`Urls`): `build_url` over the six `urlparse` components.
- `page_metadata.dfy` (`PageMetadata`): description, image and locale.
- `git_dates.dfy` (`GitDates`): class `Util` with the validity flag and
  `GetFileDates`, plus the constructor as written.
- `remote_image.dfy` (`RemoteImage`): the retry policy. `ProbeFrom` is the
  source's recursion and `GetRemoteImageLength` is the same policy as a loop.
- `stable_sort.dfy` (`StableSort`): a stable sort by descending key,
  specified independently of any algorithm. Insertion sort is proved to meet
  the specification, and the specification is proved to admit exactly one
  output, so insertion sort stands in for Python's `sorted(..., reverse=True)`.
- `feed.dfy` (`Feed`): `filter_pages`.

Points of the code that the model keeps as written:

- Construction fails on line 47 when `Repo` raised: `git_repo` is unbound
  there (see Findings).
- Only `HTTPError` is caught (util.py:217). Any other exception from the
  request (an unreachable host, a timeout) reaches the caller, and the model
  ends such a call with `Raised`.
- `guess_locale` tests the theme's `locale` and `language` variables for
  presence (util.py:259, 261), not truthiness. A theme `locale` set to None
  is returned as None rather than falling through to `language`.
- The `int()` conversions at util.py:126-127 are outside the `try`, so a
  non-numeric log output raises ValueError to the caller. The model returns
  `Failure(ValueError)` in that case.
- The fallback calls `get_build_timestamp()` twice (util.py:132-133), so the
  two fallback dates are two separate readings of the build clock.

## Model

| member | source | states |
|---|---|---|
| `PyBuiltins.PrefixSlice` | mkdocs_rss_plugin/util.py:149-151 | `s[:n]` is a prefix of `s` (`IsPrefixSlice`): `min(n, len)` items for `n >= 0`, and `max(0, len + n)` for negative `n` |
| `PyBuiltins.ParseInt` | mkdocs_rss_plugin/util.py:124-128 | `int()` on a log output succeeds exactly on a non-empty digit string and yields a non-negative number; otherwise it is the ValueError |
| `PyBuiltins.DecimalText` | mkdocs_rss_plugin/util.py:98-106 | a timestamp printed with `--format=%at` is a non-empty digit string |
| `PyBuiltins.ParseDecimalText` | mkdocs_rss_plugin/util.py:124-128 | reading back a printed timestamp with `int()` gives that timestamp (round trip) |
| `Urls.ComposeUrl` | mkdocs_rss_plugin/util.py:78-81 | path is the base path followed by `path` verbatim; the query becomes the encoded arguments iff they are non-empty, else stays; scheme, netloc, params and fragment are unchanged |
| `Urls.BuildUrl` | mkdocs_rss_plugin/util.py:63-82 | the URL is the serialisation of the composed components of the parsed base URL |
| `Urls.QueryReplacedNotMerged` | mkdocs_rss_plugin/util.py:80-81 | composing again with new arguments yields only the new query: arguments replace, never merge |
| `Urls.PathsAccumulate` | mkdocs_rss_plugin/util.py:79 | appending two path pieces in turn equals appending their concatenation |
| `PageMetadata.GetDescriptionOrAbstract` | mkdocs_rss_plugin/util.py:136-153 | a truthy front-matter description is returned as is, whatever its length; else the `charsCount` slice of the content, else of the Markdown; else "" |
| `PageMetadata.AbstractWithinBudget` | mkdocs_rss_plugin/util.py:146-151 | a result longer than `charsCount` can only be the front-matter description |
| `PageMetadata.ImageCandidate` | mkdocs_rss_plugin/util.py:166-171 | a candidate exists iff `image` or `illustration` is truthy; a truthy `image` is the candidate, and otherwise a truthy `illustration` is; the candidate is truthy |
| `PageMetadata.GetImage` | mkdocs_rss_plugin/util.py:155-180 | the URL is absent iff neither `image` nor `illustration` is truthy, and then so is the MIME type; the MIME type is guessed from the candidate as written; an "http" candidate is kept, any other is resolved with `build_url` and no arguments |
| `PageMetadata.ImageOverridesIllustration` | mkdocs_rss_plugin/util.py:166-169 | with a truthy `image`, the value of `illustration` does not matter |
| `PageMetadata.BaseUrlOnlyResolves` | mkdocs_rss_plugin/util.py:173-177 | the base URL never changes the MIME type, nor the result for an "http" image |
| `PageMetadata.GuessLocale` | mkdocs_rss_plugin/util.py:243-264 | a truthy top-level locale wins; else the theme's `locale` variable if defined, else its `language`; any result comes from one of these; None iff no source supplies a value |
| `GitDates.ValidityAfter` | mkdocs_rss_plugin/util.py:96-119 | after a call, git is usable only if it was before: the flag never goes from 0 to 1 |
| `GitDates.ValidityAfterCallsIff` | mkdocs_rss_plugin/util.py:96-119 | across any series of calls, git stays usable iff it started usable and no queried call found git missing |
| `GitDates.InitAsWritten` | mkdocs_rss_plugin/util.py:33-47 | construction as written succeeds, with the flag set, iff `Repo` opened a repository |
| `GitDates.InitAsWrittenFailsWithoutRepository` | mkdocs_rss_plugin/util.py:37-47 | with an invalid repository or any other probe failure, construction as written raises on the unbound `git_repo` |
| `GitDates.Util.constructor` | mkdocs_rss_plugin/util.py:28-45 | the flag is set iff a repository was opened, and construction never fails |
| `GitDates.Util.GetFileDates` | mkdocs_rss_plugin/util.py:84-134 | with the flag unset, no query is made and the dates are the two build-clock readings. Only git-not-found clears the flag, and a command error leaves it. The second query runs only after the first produced output. Both dates come from history iff both outputs are truthy (then as their `int()` values, or ValueError); otherwise they are the two build-clock readings, in call order |
| `GitDates.HistoryTimestampsReadBack` | mkdocs_rss_plugin/util.py:98-128 | when git prints two timestamps, history is read and `int()` yields exactly those timestamps |
| `RemoteImage.ProbeFrom` | mkdocs_rss_plugin/util.py:207-241 | the reference definition: the source's recursion over attempts. Its contract bounds the requests by `RequestBudget(attempt)` and makes the first one the caller's; `ProbeShape` and `DefaultProbe` characterise it fully |
| `RemoteImage.GetRemoteImageLength` | mkdocs_rss_plugin/util.py:182-241 | the loop makes exactly the requests, and ends exactly as, the source's recursion does |
| `RemoteImage.ProbeShape` | mkdocs_rss_plugin/util.py:207-241 | for any start: the first request is the caller's; later ones are GET without verification, each after an HTTP error; at most `RequestBudget(attempt)` requests; a reply returns its content-length, another exception escapes, and an HTTP error gives None only once the budget is spent |
| `RemoteImage.DefaultProbe` | mkdocs_rss_plugin/util.py:207-241 | starting at attempt 0: one request as the caller asked; then, only after an HTTP error, one GET without verification; two HTTP errors give None |
| `StableSort.SortDescending` | mkdocs_rss_plugin/util.py:281-283 | the sorted pages are a permutation of the input |
| `StableSort.SortDescendingIsStable` | mkdocs_rss_plugin/util.py:281-283 | the result is ordered by descending key, and each group of equal keys keeps its input order |
| `StableSort.StableDescendingIsUnique` | mkdocs_rss_plugin/util.py:281-283 | any stable descending order of the input equals the insertion sort's result |
| `Feed.SelectPages` | mkdocs_rss_plugin/util.py:281-283 | the reference definition of `sorted(..., reverse=True)[:length]`: `min(length, |pages|)` pages for `length >= 0`, `max(0, |pages| + length)` otherwise, all drawn from the input; `SelectionIsNewestFirst`, `SelectionIsTop` and `SelectionMatchesAnyStableSort` characterise it |
| `Feed.FilterPages` | mkdocs_rss_plugin/util.py:266-294 | one item per selected page, `min(length, |pages|)` items for `length >= 0`. Each item copies the page's description, full URL, title and image, and formats its timestamp |
| `Feed.SelectionIsNewestFirst` | mkdocs_rss_plugin/util.py:280-283 | the selection is non-increasing in the attribute and drawn from the input; the selected pages of each timestamp are the first input pages with that timestamp, in input order |
| `Feed.SelectionIsTop` | mkdocs_rss_plugin/util.py:281-283 | every page left out is no newer than any selected page |
| `Feed.SelectionMatchesAnyStableSort` | mkdocs_rss_plugin/util.py:281-283 | any stable descending sort yields the same selection |

## Findings

| source | as written | input that shows it | evidently intended | confidence | as-written member | corrected member |
|---|---|---|---|---|---|---|
| mkdocs_rss_plugin/util.py:33-47 | the CI check on line 47 reads `git_repo`, which is bound only when `Repo(...)` succeeded | a path outside any git repository: `InvalidGitRepositoryError` is caught, the flag is set to 0, then line 47 raises `UnboundLocalError` | construction completes with git disabled, as the two `except` branches that log and set the flag show | high (not executed) | `GitDates.InitAsWritten`, `GitDates.InitAsWrittenFailsWithoutRepository` | `GitDates.Util.constructor` |

## Left out

- Git itself (`Repo(...)`, `self.repo.log(...)`): each call is given by its outcome, and the `repo` handle is not kept. `get_file_dates`'s `path` argument only selects those outcomes and names the file in a log line, so it is not a parameter.
- The CI advisory check (`CiHandler(...).raise_ci_warnings()`, line 47): `mkdocs_rss_plugin/git_manager/ci.py` is not part of this model. Only its use of the unbound name is modelled, in `InitAsWritten`.
- `build_local_path`: it relies on `pathlib.Path`, which the file does not import. It is not part of this model.
- Logging: every warning and error line is left out.
- `get_build_timestamp()`: its two readings are parameters of `GetFileDates`.
- `urlparse`, `urlunparse` and `urlencode` are function parameters. A URL is handled as its six components, and percent-encoding is not modelled.
- `guess_type`'s MIME table and `formatdate`'s RFC 2822 rendering, which depends on the time zone, are function parameters.
- HTTP and TLS (`request.Request`, `request.urlopen`, `REMOTE_REQUEST_HEADERS`, `ssl._create_unverified_context`): the server is a function from request number and request to response. `util.py` does not import `request`, `ssl`, `HTTPError` or `REMOTE_REQUEST_HEADERS`, and the model takes them to be the `urllib`/`ssl` objects they are named after. The content-length header is returned as the header text, with no conversion to an integer.
- Timeouts for git and for the network are not modelled; the source sets none.
- `PyBuiltins.ParseInt`: accepts only ASCII digit strings. Python's `int()` also accepts a sign, surrounding whitespace and underscores. `git log --format=%at` never prints those, so those inputs count as ValueError here.
- `PageMetadata.GetDescriptionOrAbstract`, `PageMetadata.GetImage`: front-matter values are strings. Non-string values, which Python would test for truthiness and return, are not modelled. An unrendered page's `content` (None) is the empty string, which is equally falsy.
- `PageMetadata.GuessLocale`: theme variables are optional strings, and a configuration either has a theme or does not. A theme that is present but None, where the source would raise TypeError, is not modelled.
- `Feed.FilterPages`: the sort attribute is one of the two the plugin uses (`created`, `updated`). `getattr` on any other name is not modelled. Timestamps are integers, and `pages` is the sequence the function iterates.
