/**
  The catalog operations of `ZatroleneHryClient` with the network abstracted
  away. Each operation tries a fixed, ordered list of candidate endpoints;
  given the classified response of every candidate, in that order, it is a
  pure function: the first response that is truthy and has a usable shape is
  reshaped and returned, and later candidates are never consulted.
 */
module Catalog {
  import opened Wrappers
  import opened JsonValue

  // ---------------------------------------------------------------------
  // Candidate endpoints, in the order they are tried
  // ---------------------------------------------------------------------

  const SearchEndpoints: seq<string> := ["games/search", "search", "games"]
  const CategoriesEndpoints: seq<string> := ["categories", "game-categories", "genres"]
  const PopularEndpoints: seq<string> := ["games/popular", "games/trending", "games"]

  /** The game-detail candidates: `games/<id>` then `game/<id>`. */
  function DetailEndpoints(gameId: string): seq<string> {
    ["games/" + gameId, "game/" + gameId]
  }

  /** The games-by-category candidates: `categories/<id>/games` then `games?category=<id>`. */
  function ByCategoryEndpoints(categoryId: string): seq<string> {
    ["categories/" + categoryId + "/games", "games?category=" + categoryId]
  }

  // ---------------------------------------------------------------------
  // Wrapper keys
  // ---------------------------------------------------------------------

  const GameListKeys: seq<string> := ["games", "data", "results", "items"]
  const CategoryListKeys: seq<string> := ["categories", "data", "results", "items"]

  /** `key in result and isinstance(result[key], list)` */
  predicate IsListAt(fields: map<string, Json>, key: string) {
    key in fields && fields[key].JArr?
  }

  /** The list under the first of `keys` that holds a list, even an empty one. */
  function ListUnder(fields: map<string, Json>, keys: seq<string>): Option<seq<Json>> {
    if keys == [] then None
    else if IsListAt(fields, keys[0]) then Some(fields[keys[0]].items)
    else ListUnder(fields, keys[1..])
  }

  /** The first key holding a list wins, whatever the later keys hold. */
  lemma {:induction false} ListUnderFirst(fields: map<string, Json>, keys: seq<string>, i: nat)
    requires i < |keys| && IsListAt(fields, keys[i])
    requires forall k :: 0 <= k < i ==> !IsListAt(fields, keys[k])
    ensures ListUnder(fields, keys) == Some(fields[keys[i]].items)
  {
    if i > 0 {
      ListUnderFirst(fields, keys[1..], i - 1);
    }
  }

  /** No list is found exactly when none of the keys holds a list. */
  lemma {:induction false} ListUnderNone(fields: map<string, Json>, keys: seq<string>)
    ensures ListUnder(fields, keys) == None <==> forall k :: 0 <= k < |keys| ==> !IsListAt(fields, keys[k])
  {
    if keys != [] {
      ListUnderNone(fields, keys[1..]);
      assert forall k :: 1 <= k < |keys| ==> keys[k] == keys[1..][k - 1];
    }
  }

  // ---------------------------------------------------------------------
  // The shared fallback over candidates
  // ---------------------------------------------------------------------

  /** A response the loop stops at: truthy (`if result:`) and reshaped by `pick`. */
  predicate Accepted<T>(response: Option<Json>, pick: Json -> Option<T>) {
    response.Some? && Truthy(response.value) && pick(response.value).Some?
  }

  /** The reshaped first accepted response; `None` when every candidate is passed over. */
  function FirstMatch<T>(responses: seq<Option<Json>>, pick: Json -> Option<T>): Option<T> {
    if responses == [] then None
    else if Accepted(responses[0], pick) then pick(responses[0].value)
    else FirstMatch(responses[1..], pick)
  }

  /** The result is the reshaped response of the first accepted candidate. */
  lemma {:induction false} FirstMatchAt<T>(responses: seq<Option<Json>>, pick: Json -> Option<T>, i: nat)
    requires i < |responses| && Accepted(responses[i], pick)
    requires forall k :: 0 <= k < i ==> !Accepted(responses[k], pick)
    ensures FirstMatch(responses, pick) == pick(responses[i].value)
    ensures FirstMatch(responses, pick).Some?
  {
    if i > 0 {
      FirstMatchAt(responses[1..], pick, i - 1);
    }
  }

  /** Passing over candidate `i` extends the run of passed-over candidates by one. */
  lemma PassedOver<T>(responses: seq<Option<Json>>, pick: Json -> Option<T>, i: nat)
    requires i < |responses| && !Accepted(responses[i], pick)
    requires forall k :: 0 <= k < i ==> !Accepted(responses[k], pick)
    ensures forall k :: 0 <= k < i + 1 ==> !Accepted(responses[k], pick)
  {
  }

  /** Nothing is returned exactly when no candidate is accepted. */
  lemma {:induction false} FirstMatchNone<T>(responses: seq<Option<Json>>, pick: Json -> Option<T>)
    ensures FirstMatch(responses, pick) == None <==> forall k :: 0 <= k < |responses| ==> !Accepted(responses[k], pick)
  {
    if responses != [] {
      FirstMatchNone(responses[1..], pick);
      assert forall k :: 1 <= k < |responses| ==> responses[k] == responses[1..][k - 1];
    }
  }

  /**
    Candidates are tried strictly in order: once an earlier group of candidates
    yields a result, later candidates cannot change it; otherwise the result is
    that of the later group alone.
   */
  lemma {:induction false} FirstMatchAppend<T>(earlier: seq<Option<Json>>, later: seq<Option<Json>>, pick: Json -> Option<T>)
    ensures FirstMatch(earlier + later, pick)
         == if FirstMatch(earlier, pick).Some? then FirstMatch(earlier, pick) else FirstMatch(later, pick)
  {
    if earlier == [] {
      assert earlier + later == later;
    } else {
      assert (earlier + later)[1..] == earlier[1..] + later;
      FirstMatchAppend(earlier[1..], later, pick);
    }
  }

  // ---------------------------------------------------------------------
  // Shape normalisation, one per operation
  // ---------------------------------------------------------------------

  /**
    `search_games`: a list as it is; a dict's first list-valued wrapper key,
    else the dict itself as a one-element list; any other value is skipped.
   */
  function SearchPick(j: Json): Option<seq<Json>> {
    match j
    case JArr(items) => Some(items)
    case JObj(fields) => Some(ListUnder(fields, GameListKeys).GetOr([j]))
    case _ => None
  }

  /** A list as it is; a dict's first list-valued key among `keys`; else skipped. */
  function ListPick(keys: seq<string>, j: Json): Option<seq<Json>> {
    match j
    case JArr(items) => Some(items)
    case JObj(fields) => ListUnder(fields, keys)
    case _ => None
  }

  /** `get_categories` reshaping. */
  function CategoriesPick(j: Json): Option<seq<Json>> {
    ListPick(CategoryListKeys, j)
  }

  /** `get_games_by_category` and `get_popular_games` reshaping. */
  function GamesPick(j: Json): Option<seq<Json>> {
    ListPick(GameListKeys, j)
  }

  /** `get_game_details`: a dict's `game`, else its `data`, else the dict; a non-dict is skipped. */
  function DetailPick(j: Json): Option<Json> {
    match j
    case JObj(fields) =>
      if "game" in fields then Some(fields["game"])
      else if "data" in fields then Some(fields["data"])
      else Some(j)
    case _ => None
  }

  /** Python's `xs[:n]`, negative `n` included. */
  function SliceTo<T>(xs: seq<T>, n: int): (r: seq<T>)
    ensures r <= xs
    ensures n >= 0 ==> |r| == if n <= |xs| then n else |xs|
    ensures n < 0 ==> |r| == if |xs| + n >= 0 then |xs| + n else 0
  {
    if n >= 0 then (if n <= |xs| then xs[..n] else xs)
    else if |xs| + n >= 0 then xs[..|xs| + n]
    else []
  }

  // ---------------------------------------------------------------------
  // The operations, as functions of the candidates' classified responses
  // ---------------------------------------------------------------------

  function SearchGames(responses: seq<Option<Json>>): seq<Json> {
    FirstMatch(responses, SearchPick).GetOr([])
  }

  /** The game record, or `JNull` for Python's `None`. */
  function GetGameDetails(responses: seq<Option<Json>>): Json {
    FirstMatch(responses, DetailPick).GetOr(JNull)
  }

  function GetCategories(responses: seq<Option<Json>>): seq<Json> {
    FirstMatch(responses, CategoriesPick).GetOr([])
  }

  function GetGamesByCategory(responses: seq<Option<Json>>): seq<Json> {
    FirstMatch(responses, GamesPick).GetOr([])
  }

  function GetPopularGames(responses: seq<Option<Json>>, limit: int): seq<Json> {
    SliceTo(FirstMatch(responses, GamesPick).GetOr([]), limit)
  }

  // ---------------------------------------------------------------------
  // What each operation returns
  // ---------------------------------------------------------------------

  /** A response `search_games` and `get_game_details` look at further: truthy, and a list or dict. */
  predicate Usable(response: Option<Json>) {
    response.Some? && Truthy(response.value) && IsContainer(response.value)
  }

  /** `search_games` stops at exactly the usable responses. */
  lemma SearchAcceptsUsable(response: Option<Json>)
    ensures Accepted(response, SearchPick) <==> Usable(response)
  {
  }

  /**
    `search_games` returns a truthy list payload unchanged and whole, from the
    first usable candidate, whatever the later candidates would have returned.
   */
  lemma {:induction false} SearchReturnsList(responses: seq<Option<Json>>, i: nat)
    requires i < |responses| && Usable(responses[i]) && responses[i].value.JArr?
    requires forall k :: 0 <= k < i ==> !Usable(responses[k])
    ensures SearchGames(responses) == responses[i].value.items
  {
    forall k | 0 <= k < i ensures !Accepted(responses[k], SearchPick) {
      SearchAcceptsUsable(responses[k]);
    }
    FirstMatchAt(responses, SearchPick, i);
  }

  /**
    For a dict, `search_games` returns the list under the first of `games`,
    `data`, `results`, `items` that holds a list, even an empty one.
   */
  lemma {:induction false} SearchUnwrapsWrapperKey(responses: seq<Option<Json>>, i: nat, key: nat)
    requires i < |responses| && Usable(responses[i]) && responses[i].value.JObj?
    requires forall k :: 0 <= k < i ==> !Usable(responses[k])
    requires key < |GameListKeys| && IsListAt(responses[i].value.fields, GameListKeys[key])
    requires forall k :: 0 <= k < key ==> !IsListAt(responses[i].value.fields, GameListKeys[k])
    ensures SearchGames(responses) == responses[i].value.fields[GameListKeys[key]].items
  {
    forall k | 0 <= k < i ensures !Accepted(responses[k], SearchPick) {
      SearchAcceptsUsable(responses[k]);
    }
    FirstMatchAt(responses, SearchPick, i);
    ListUnderFirst(responses[i].value.fields, GameListKeys, key);
  }

  /**
    A dict with no list under any wrapper key is taken for a single game:
    `search_games` returns it as a one-element list.
   */
  lemma {:induction false} SearchWrapsSingleRecord(responses: seq<Option<Json>>, i: nat)
    requires i < |responses| && Usable(responses[i]) && responses[i].value.JObj?
    requires forall k :: 0 <= k < i ==> !Usable(responses[k])
    requires forall k :: 0 <= k < |GameListKeys| ==> !IsListAt(responses[i].value.fields, GameListKeys[k])
    ensures SearchGames(responses) == [responses[i].value]
  {
    forall k | 0 <= k < i ensures !Accepted(responses[k], SearchPick) {
      SearchAcceptsUsable(responses[k]);
    }
    FirstMatchAt(responses, SearchPick, i);
    ListUnderNone(responses[i].value.fields, GameListKeys);
  }

  /** `search_games` returns `[]` exactly when no candidate gave a usable response. */
  lemma {:induction false} SearchExhausted(responses: seq<Option<Json>>)
    ensures (forall k :: 0 <= k < |responses| ==> !Usable(responses[k])) ==> SearchGames(responses) == []
    ensures SearchGames(responses) == [] ==>
              (forall k :: 0 <= k < |responses| ==> !Usable(responses[k])) || FirstMatch(responses, SearchPick) == Some([])
  {
    forall k | 0 <= k < |responses| ensures Accepted(responses[k], SearchPick) <==> Usable(responses[k]) {
      SearchAcceptsUsable(responses[k]);
    }
    FirstMatchNone(responses, SearchPick);
  }

  /**
    The list operations other than search stop at a response exactly when it
    is a truthy list, or a truthy dict with a list under one of their keys.
   */
  lemma {:induction false} ListPickAccepts(keys: seq<string>, j: Json)
    ensures ListPick(keys, j).Some? <==> j.JArr? || (j.JObj? && exists k :: 0 <= k < |keys| && IsListAt(j.fields, keys[k]))
  {
    if j.JObj? {
      ListUnderNone(j.fields, keys);
    }
  }

  /**
    No wrap-single outside search: a dict without a list under any of
    `categories`, `data`, `results`, `items` is passed over, and
    `get_categories` goes on to the next candidate.
   */
  lemma {:induction false} CategoriesSkipBareRecord(j: Json, rest: seq<Option<Json>>)
    requires j.JObj?
    requires forall k :: 0 <= k < |CategoryListKeys| ==> !IsListAt(j.fields, CategoryListKeys[k])
    ensures GetCategories([Some(j)] + rest) == GetCategories(rest)
  {
    ListUnderNone(j.fields, CategoryListKeys);
    assert ([Some(j)] + rest)[1..] == rest;
  }

  /** Likewise for `get_games_by_category` (and the popular games) over `games`, `data`, `results`, `items`. */
  lemma {:induction false} GamesSkipBareRecord(j: Json, rest: seq<Option<Json>>)
    requires j.JObj?
    requires forall k :: 0 <= k < |GameListKeys| ==> !IsListAt(j.fields, GameListKeys[k])
    ensures GetGamesByCategory([Some(j)] + rest) == GetGamesByCategory(rest)
  {
    ListUnderNone(j.fields, GameListKeys);
    assert ([Some(j)] + rest)[1..] == rest;
  }

  /**
    `get_categories` returns the list of the first accepted candidate: a
    truthy list as it is, or a dict's list under the first of its keys.
   */
  lemma {:induction false} CategoriesResult(responses: seq<Option<Json>>, i: nat, key: nat)
    requires i < |responses| && responses[i].Some? && Truthy(responses[i].value)
    requires forall k :: 0 <= k < i ==> !Accepted(responses[k], CategoriesPick)
    requires responses[i].value.JObj? ==>
               key < |CategoryListKeys| && IsListAt(responses[i].value.fields, CategoryListKeys[key])
               && forall k :: 0 <= k < key ==> !IsListAt(responses[i].value.fields, CategoryListKeys[k])
    requires IsContainer(responses[i].value)
    ensures responses[i].value.JArr? ==> GetCategories(responses) == responses[i].value.items
    ensures responses[i].value.JObj? ==> GetCategories(responses) == responses[i].value.fields[CategoryListKeys[key]].items
  {
    if responses[i].value.JObj? {
      ListUnderFirst(responses[i].value.fields, CategoryListKeys, key);
    }
    FirstMatchAt(responses, CategoriesPick, i);
  }

  /**
    `get_games_by_category` returns the list of the first accepted candidate,
    whole and untruncated: a truthy list as it is, or a dict's list under the
    first of `games`, `data`, `results`, `items` that holds one, even `[]`.
   */
  lemma {:induction false} GamesByCategoryResult(responses: seq<Option<Json>>, i: nat, key: nat)
    requires i < |responses| && responses[i].Some? && Truthy(responses[i].value)
    requires forall k :: 0 <= k < i ==> !Accepted(responses[k], GamesPick)
    requires responses[i].value.JObj? ==>
               key < |GameListKeys| && IsListAt(responses[i].value.fields, GameListKeys[key])
               && forall k :: 0 <= k < key ==> !IsListAt(responses[i].value.fields, GameListKeys[k])
    requires IsContainer(responses[i].value)
    ensures responses[i].value.JArr? ==> GetGamesByCategory(responses) == responses[i].value.items
    ensures responses[i].value.JObj? ==> GetGamesByCategory(responses) == responses[i].value.fields[GameListKeys[key]].items
  {
    if responses[i].value.JObj? {
      ListUnderFirst(responses[i].value.fields, GameListKeys, key);
    }
    FirstMatchAt(responses, GamesPick, i);
  }

  /** `get_categories` and `get_games_by_category` return `[]` when no candidate is accepted. */
  lemma {:induction false} ListOperationsExhausted(responses: seq<Option<Json>>)
    ensures (forall k :: 0 <= k < |responses| ==> !Accepted(responses[k], CategoriesPick)) ==> GetCategories(responses) == []
    ensures (forall k :: 0 <= k < |responses| ==> !Accepted(responses[k], GamesPick)) ==> GetGamesByCategory(responses) == []
  {
    FirstMatchNone(responses, CategoriesPick);
    FirstMatchNone(responses, GamesPick);
  }

  /**
    `get_popular_games` is the games-by-category reshaping cut to `limit`:
    a prefix of it, in the original order, of length `min(limit, n)`.
   */
  lemma PopularIsPrefix(responses: seq<Option<Json>>, limit: int)
    requires limit >= 0
    ensures GetPopularGames(responses, limit) <= GetGamesByCategory(responses)
    ensures |GetPopularGames(responses, limit)|
         == if limit <= |GetGamesByCategory(responses)| then limit else |GetGamesByCategory(responses)|
  {
  }

  /** `get_game_details` stops at exactly the truthy dicts. */
  lemma DetailAcceptsDicts(response: Option<Json>)
    ensures Accepted(response, DetailPick) <==> response.Some? && Truthy(response.value) && response.value.JObj?
  {
  }

  /**
    The first truthy dict decides `get_game_details`: its `game` value if the
    key is present (whatever it holds, `null` included), else its `data`
    value if present, else the dict itself.
   */
  lemma {:induction false} DetailUnwrap(responses: seq<Option<Json>>, i: nat)
    requires i < |responses| && responses[i].Some? && Truthy(responses[i].value) && responses[i].value.JObj?
    requires forall k :: 0 <= k < i ==> !(responses[k].Some? && Truthy(responses[k].value) && responses[k].value.JObj?)
    ensures var fields := responses[i].value.fields;
            GetGameDetails(responses)
            == if "game" in fields then fields["game"]
               else if "data" in fields then fields["data"]
               else responses[i].value
  {
    forall k | 0 <= k < i ensures !Accepted(responses[k], DetailPick) {
      DetailAcceptsDicts(responses[k]);
    }
    DetailAcceptsDicts(responses[i]);
    FirstMatchAt(responses, DetailPick, i);
  }

  /** With no truthy dict among the responses, `get_game_details` returns `None`. */
  lemma {:induction false} DetailExhausted(responses: seq<Option<Json>>)
    requires forall k :: 0 <= k < |responses| ==> !(responses[k].Some? && Truthy(responses[k].value) && responses[k].value.JObj?)
    ensures GetGameDetails(responses) == JNull
  {
    forall k | 0 <= k < |responses| ensures !Accepted(responses[k], DetailPick) {
      DetailAcceptsDicts(responses[k]);
    }
    FirstMatchNone(responses, DetailPick);
  }
}
