# ZatroleneHryClient, modelled in Dafny

This project models the API-access layer of a Discord bot that looks up board
games on zatrolene-hry.cz: the class `ZatroleneHryClient` in `api_client.py`.
The client never knows which endpoint the backend serves, nor in what shape.
So each operation (search, game detail, categories, games by category,
popular games) walks a fixed, ordered list of candidate endpoints. It skips
every response that Python treats as false. It reshapes the first usable JSON
payload into a list of records, or into one record or `None`.

Modules:

- `Wrappers` (`wrappers.dfy`): `Option`.
- `JsonValue` (`json_value.dfy`): the decoded JSON value, and Python's truth
  value of it (`if result:`).
- `Http` (`http.dfy`): `rstrip('/')` and `lstrip('/')`, the request URL, the
  outcome of one request, and `_make_request`'s status classification.
  The network is a function `Network = string -> Outcome` from URL to outcome.
  `Responses` is the model's definition of the per-candidate outcomes: the
  classified response of requesting each candidate, in candidate order.
- `Catalog` (`catalog.dfy`): the candidate endpoint lists and wrapper keys.
  `FirstMatch` is the first-match fallback shared by all operations.
  It is followed by one reshaping function per operation, and the five
  operations as pure functions of the candidates' classified responses.
  Lemmas say what each operation returns.
- `ApiClient` (`api_client.dfy`): the class itself. It holds the stored base
  URL and the mutable `session` (`null`, open or closed) with
  `_ensure_session`, `_close_session` and `close`. It also has `_make_request`
  and the five operations as methods. The candidate loop the five methods
  share, `FirstAccepted`, is proved to return what `Catalog.FirstMatch`
  returns for the same responses, so each method returns what its `Catalog`
  function does.
- `CatalogScenarios` (`catalog_scenarios.dfy`): concrete payloads and what
  each operation makes of them, plus one client walk-through.

An empty reshaped result never moves on to the next candidate: a dict whose
wrapper key holds an empty list is returned at once as `[]`
(`api_client.py:110-111`, `:164-165`, `:197-198`, `:222-223`). What moves on
is a falsy payload, a truthy payload the operation does not reshape (a scalar,
or a list in the detail lookup) and, outside search, a dict with no list under
a wrapper key. Neither
`search_games` nor `get_games_by_category` truncates its result, though both
send `limit` to the backend (`api_client.py:106`, `:194`); only
`get_popular_games` cuts the list to `limit`.

## Model

| member | source | states |
|---|---|---|
| `JsonValue.FalsyValues` | api_client.py:103 | Python's `if result:` is false exactly for `None`, `False`, `0`, `0.0`, `""`, `[]` and `{}`; every other payload is truthy (the same test at `:134`, `:157`, `:192`, `:217`). |
| `Http.RStripSlashes` | api_client.py:21 | The stored base is a prefix of the given one that does not end in '/'; only slashes were removed. |
| `Http.RStripSlashesIdempotent` | api_client.py:21 | Stripping a stored base again changes nothing. |
| `Http.LStripSlashes` | api_client.py:55 | The endpoint part is a suffix of the endpoint that does not start with '/'; only slashes were removed. |
| `Http.RequestUrlJoin` | api_client.py:55 | The URL is the stored base, then exactly one '/' (no slash on either side of it), then the endpoint without its leading slashes. |
| `Http.RequestUrlIgnoresLeadingSlash` | api_client.py:55 | A leading '/' on the endpoint does not change the URL. |
| `Http.Classify` | api_client.py:65-80 | A payload comes back exactly when the status is 200 and the body decoded, and it is that body. A 404, any other status, a timeout, a client error or any other exception give `None`; none of them raises. |
| `Catalog.ListUnderFirst` | api_client.py:109-111 | Among the wrapper keys, the first whose value is a list decides, even an empty list, whatever later keys hold. |
| `Catalog.ListUnderNone` | api_client.py:109-113 | The wrapper-key probe finds nothing exactly when no wrapper key holds a list. |
| `Catalog.FirstMatchAt` | api_client.py:101-113 | The operation returns the reshaped response of the first candidate that is truthy and of a usable shape; no earlier candidate counts. |
| `Catalog.FirstMatchNone` | api_client.py:101-117 | The fallback finds nothing exactly when every candidate's response is falsy or of an unusable shape. |
| `Catalog.FirstMatchAppend` | api_client.py:101-113 | Candidates are tried strictly in order: once earlier candidates yield a result, later ones cannot change it; otherwise the result is that of the later ones alone. |
| `Catalog.SliceTo` | api_client.py:219 | Python's `xs[:n]`: a prefix of `xs`, of length `min(n, len(xs))` for `n >= 0` and `max(0, len(xs) + n)` for `n < 0`. |
| `Catalog.SearchAcceptsUsable` | api_client.py:103-107 | Search stops at a response exactly when it is truthy and a list or a dict; a truthy string, number or `true` is passed over. |
| `Catalog.SearchReturnsList` | api_client.py:105-106 | A truthy list from the first usable candidate is returned unchanged and whole, with no truncation. |
| `Catalog.SearchUnwrapsWrapperKey` | api_client.py:107-111 | For a dict, search returns the list under the first of `games`, `data`, `results`, `items` that holds a list, even an empty one. |
| `Catalog.SearchWrapsSingleRecord` | api_client.py:112-113 | A dict with no list under any wrapper key is returned as the one-element list `[dict]`. |
| `Catalog.SearchExhausted` | api_client.py:115-117 | Search returns `[]` when no candidate gives a usable response; an empty result means that, or a first usable response that held an empty list. |
| `Catalog.ListPickAccepts` | api_client.py:157-165 | Categories, games-by-category and popular games stop at a response exactly when it is a truthy list, or a truthy dict with a list under one of their wrapper keys. |
| `Catalog.CategoriesSkipBareRecord` | api_client.py:155-167 | A dict with no list under `categories`, `data`, `results` or `items` is not wrapped: the category listing goes on to the next candidate. |
| `Catalog.GamesSkipBareRecord` | api_client.py:190-200 | A dict with no list under `games`, `data`, `results` or `items` is not wrapped: games-by-category goes on to the next candidate. |
| `Catalog.CategoriesResult` | api_client.py:155-165 | The category listing returns the first accepted truthy list as it is, or the list under the dict's first list-valued key among `categories`, `data`, `results`, `items`. |
| `Catalog.GamesByCategoryResult` | api_client.py:190-198 | Games-by-category returns the first accepted truthy list unchanged and whole, or the list under the dict's first list-valued key among `games`, `data`, `results`, `items`, even `[]`; it never truncates. |
| `Catalog.ListOperationsExhausted` | api_client.py:155-200 | Categories and games-by-category return `[]` once every candidate has been passed over. |
| `Catalog.PopularIsPrefix` | api_client.py:215-225 | For `limit >= 0` the popular games are a prefix, in original order, of what games-by-category would return for the same responses, of length `min(limit, n)`. |
| `Catalog.DetailAcceptsDicts` | api_client.py:134-136 | The detail lookup stops at a response exactly when it is a truthy dict; a truthy list or scalar is passed over. |
| `Catalog.DetailUnwrap` | api_client.py:132-141 | The first truthy dict decides the detail lookup: its `game` value if that key is present, whatever it holds (even `null`), else its `data` value if present, else the dict itself. |
| `Catalog.DetailExhausted` | api_client.py:143 | With no truthy dict among the responses the detail lookup returns `None`. |
| `ApiClient.ZatroleneHryClient.constructor` | api_client.py:21-22 | The stored base URL is the given one with its trailing slashes removed, so it never ends in '/'; there is no session yet. |
| `ApiClient.ZatroleneHryClient.EnsureSession` | api_client.py:24-27 | Afterwards a session is open; an open session is kept; a new one is created only when there was none or it was closed. |
| `ApiClient.ZatroleneHryClient.CloseSession` | api_client.py:29-32 | Afterwards no session is open, and the same session object is kept; a session that was already closed is left untouched. |
| `ApiClient.ZatroleneHryClient.Close` | api_client.py:227-229 | The same as `CloseSession`, so a second `close()` changes nothing. |
| `ApiClient.ZatroleneHryClient.MakeRequest` | api_client.py:53-80 | A session is open afterwards; the result is the classification of requesting the base URL joined with the endpoint. |
| `ApiClient.ZatroleneHryClient.FirstAccepted` | api_client.py:101-113 | The loop over candidates, stopping at the first truthy response it can reshape, returns `Catalog.FirstMatch` of the candidates' responses. |
| `ApiClient.ZatroleneHryClient.SearchGames` | api_client.py:82-117 | Tries `games/search`, `search`, `games` and returns `Catalog.SearchGames` of their responses. |
| `ApiClient.ZatroleneHryClient.GetGameDetails` | api_client.py:119-143 | Tries `games/<id>`, `game/<id>` and returns `Catalog.GetGameDetails` of their responses. |
| `ApiClient.ZatroleneHryClient.GetCategories` | api_client.py:145-167 | Tries `categories`, `game-categories`, `genres` and returns `Catalog.GetCategories` of their responses. |
| `ApiClient.ZatroleneHryClient.GetGamesByCategory` | api_client.py:169-200 | Tries `categories/<id>/games`, `games?category=<id>` and returns `Catalog.GetGamesByCategory` of their responses. |
| `ApiClient.ZatroleneHryClient.GetPopularGames` | api_client.py:202-225 | Tries `games/popular`, `games/trending`, `games`, returns `Catalog.GetPopularGames` of their responses, and, for `limit >= 0`, never more than `limit` games. |
| `CatalogScenarios.DataBeforeResults` | api_client.py:109-111 | Given both `data` and `results` lists, search and categories return the `data` list, never a merge. |
| `CatalogScenarios.BareRecord` | api_client.py:112-113 | `{"id": "42", "name": "Chess"}` becomes `[record]` in search; the category listing given the same payload returns `[]`. |
| `CatalogScenarios.FallbackPastEmptyList` | api_client.py:101-106 | `games/search` answering `[]` and `search` answering `[{"id": "7"}]` gives `[{"id": "7"}]`. |
| `CatalogScenarios.EmptyWrapperStops` | api_client.py:196-198 | `{"games": []}` from the first candidate is returned as `[]` at once, even when the next candidate has games. |
| `CatalogScenarios.PopularThreeOfTen` | api_client.py:219 | Popular games with `limit = 3` over a ten-game list return its first three, in order. |
| `CatalogScenarios.SearchOnFirstCandidate` | api_client.py:101-106 | When the first candidate answers 200 with a one-game list, search returns that list, whatever the base URL and candidate list. |
| `CatalogScenarios.DetailGameNull` | api_client.py:137-138 | `{"game": null}` from the first candidate makes the detail lookup return `None`, without trying the next candidate. |

## Left out

- The HTTP request itself is not modelled: session creation, the request, the 10-second timeout and reading and decoding the body (`api_client.py:57-66`) belong to aiohttp. Their combined outcome is an input, `Outcome`, delivered by `Network`. A body that fails to decode is `Response(200, None)`.
- Query parameters, the HTTP method and the request body are passed to the transport untouched, so the model folds them into `Network`. The `query` of `search_games` and the `limit` of `search_games` and `get_games_by_category` influence only the request. They are therefore not parameters of the model's methods.
- The default `limit = 10` of `get_popular_games` (`api_client.py:202`) is not modelled: callers of `GetPopularGames` pass the limit themselves.
- `async`/`await` and concurrent use of the shared session are not modelled: the model is sequential.
- The `print` diagnostics (`api_client.py:70`, `:73`, `:76`, `:79`, `:116`) are logging only.
- In `get_game_details`, Python's `None` result is `JNull` in the model. A body that decodes to JSON `null` is `Some(JNull)` rather than Python's `None`; both are falsy, so behaviour is the same.
- JSON numbers are `int` and `real`. `NaN` and `Infinity`, which Python's decoder accepts, are not modelled. Dict key order is not modelled, because no lookup depends on it.
- The Discord bot (`bot.py`) is not part of this model: command handlers, message formatting, configuration loading and start-up are presentation and platform plumbing.
