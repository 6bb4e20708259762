# Hacker News search client: the `App` component

This project models the controller of a small React client for the Hacker
News search API (`src/App.js`). The `App` component holds two state fields:

- `result`: the last response body, `null` until the first response arrives;
- `searchTerm`: the text of the search input, `'redux'` at start.

When the component mounts, it requests the default term. Submitting the form
requests the current term again, every time, with no cache and no duplicate
suppression. A successful response replaces `result` wholesale. A failed one
is only logged. The Dismiss button on a table row filters that row's
`objectID` out of `result.hits` and keeps the other properties of `result`.
While `result` is `null` the page shows "Loading..."; otherwise it shows the
table of hits.

The request URL is `PATH_BASE + PATH_SEARCH + "?" + PARAM_SEARCH + term`.
The constants are at `src/App.js:7-9`, and the URL comes out as
`https://hn.algolia.com/api/v1/search?query=` followed by the term, which is
not encoded.

Layout:

- `wrappers.dfy`: `Option`, standing for a value that may be `null`.
- `stories.dfy` (module `Stories`): the `Hit` and `SearchResult` records.
  It defines `Without`, the `hits.filter(item => item.objectID !== id)`
  expression, and the lemmas that characterise it. They say the filter keeps
  exactly the other-id hits, keeps them in order, is the unique longest
  subsequence free of the id, is idempotent, and leaves the list unchanged
  exactly when the id is absent.
- `api.dfy` (module `Api`): the URL constants, `SearchUrl`, and a parser
  `QueryOf` that reads the term back.
- `app.dfy` (module `HackerNewsApp`): the `App` class, whose fields are
  `result` and `searchTerm`, with one method per handler. `Render` makes the
  loading/table choice. Three client methods run whole user flows against
  the class's contracts.

The HTTP client is an external collaborator. `FetchSearchTopStories` records
each URL it hands over in a ghost `requests` history field, which stands for
the `axios.get` calls. It also records the request's position in a ghost set of
`pending` (unsettled) requests. The compiled class keeps only the
component's two fields. The promise callbacks are a separate method,
`SettleFetch`, which takes the position of a pending request and its outcome
as parameters. Any pending request may settle next. Each request settles at
most once, and it may stay pending forever, because the call has no
timeout.

This version of the component has no per-query cache, no pagination, no
loading or error flags, and no sorting. Its dismiss handler does not check
that a result is stored.

## Model

| member | source | states |
|---|---|---|
| `Stories.Without` | src/App.js:44 | the filtered list is no longer than the original, and each hit in it comes from the original and has an `objectID` other than the dismissed id |
| `Stories.WithoutCounts` | src/App.js:44 | every hit with another id occurs in the filtered list exactly as often as before; hits with the dismissed id occur zero times |
| `Stories.WithoutIsSubsequence` | src/App.js:44 | the filtered list is a subsequence of the original, so surviving hits keep their relative order |
| `Stories.SubsequenceBound` | src/App.js:44 | no id-free subsequence of the hits is longer than the filter |
| `Stories.WithoutUnique` | src/App.js:44 | any id-free subsequence of the hits that is as long as the filter equals the filter; with `SubsequenceBound`, the filter is the unique longest id-free subsequence |
| `Stories.WithoutUnchangedIff` | src/App.js:44 | the list is unchanged if and only if no hit carries the id (dismissing an absent id is a no-op; dismissing a present one removes something) |
| `Stories.WithoutIdempotent` | src/App.js:43-48 | dismissing the same id twice equals dismissing it once |
| `Api.SearchUrl` | src/App.js:32 | the URL is exactly `https://hn.algolia.com/api/v1/search?query=` followed by the unencoded term; it starts with the fixed prefix and the rest is the term |
| `Api.QueryOf` | src/App.js:32 | a URL parses if and only if it starts with the fixed prefix, and then `SearchUrl` of the parsed term rebuilds the URL |
| `Api.QueryOfSearchUrl` | src/App.js:32 | round trip: parsing the URL built for any term gives that term back |
| `Api.SearchUrlInjective` | src/App.js:32 | different terms give different URLs |
| `HackerNewsApp.Render` | src/App.js:76-83 | the screen is "Loading..." exactly while `result` is null; otherwise it is the table of `result.hits` |
| `HackerNewsApp.App.constructor` | src/App.js:12-18 | the initial state has `result` null, `searchTerm` `"redux"`, no request issued and none pending |
| `HackerNewsApp.App.SetSearchTopStories` | src/App.js:27-29 | `result` becomes the given body wholesale; only `result` may change |
| `HackerNewsApp.App.FetchSearchTopStories` | src/App.js:31-36 | exactly one request, for `SearchUrl(term)`, is appended and marked pending; `result` and `searchTerm` are untouched |
| `HackerNewsApp.App.SettleFetch` | src/App.js:33-35 | only a pending request can settle, and settling removes it from `pending`; a success replaces `result` with the response body; a failure leaves `result` as it was; `searchTerm` and the request history never change |
| `HackerNewsApp.App.ComponentDidMount` | src/App.js:38-41 | mounting issues one pending request for the current search term and changes nothing else |
| `HackerNewsApp.App.OnDismiss` | src/App.js:43-49 | needs a stored result; the new hits are the old hits filtered by id, the other properties of the result are kept, and `searchTerm` is untouched |
| `HackerNewsApp.App.OnSearchChange` | src/App.js:51-53 | `searchTerm` becomes the input's value; `result` and the requests are untouched |
| `HackerNewsApp.App.OnSearchSubmit` | src/App.js:55-59 | every submit issues one pending request for the current `searchTerm`, with no check against earlier requests; `result` and `searchTerm` are untouched |
| `HackerNewsApp.RepeatedSubmit` | src/App.js:38-59 | mounting and then submitting the default term twice issues three identical requests, all still pending, and the screen stays "Loading..." |
| `HackerNewsApp.DismissAfterLoad` | src/App.js:33-57 | after the mount request succeeds, dismissing an id (twice) shows the filtered hits with the other properties kept; a later submitted request that fails changes nothing |
| `HackerNewsApp.StaleResponseWins` | src/App.js:31-57 | responses are stored in arrival order: when the mount request for the default term settles after the request for a new term, the default term's hits are shown while the input holds the new term |

## Left out

- The HTTP call itself (`axios.get`), its promise chain and network timing. A request is the URL recorded in `requests` plus its entry in `pending`. Its settlement is the outcome passed to `SettleFetch`. The outcome's content is not tied to the URL that was requested: any response body can answer any request.
- `SettleFetch`: the source's `.catch` would also catch an exception thrown inside the `.then` callback. Here the success path cannot fail, so this is not modelled.
- `console.error` and `console.log` (`src/App.js:35`, `src/App.js:63`). They only write log output.
- The JSX of `Search`, `Table` and `Button`, the styles, and the CSS import. The only state-dependent choice in rendering, loading versus table, is `Render`.
- React lifecycle, `setState` batching and asynchrony, method binding, and `event.preventDefault()`. Each handler is one atomic transition of the class.
- JavaScript truthiness of the response body. A body that is an object is modelled as `Some`. A falsy body, such as an empty string, which would bring back "Loading...", is not modelled. A body without a `hits` array is not modelled either.
- The properties of the response body other than `hits` are an opaque name-to-text map. Hits carry `objectID` and the displayed fields as strings and integers. The `!==` comparison is modelled as inequality of strings.
