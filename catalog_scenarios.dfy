/**
  Concrete cases of the catalog behaviour: payload shapes the client is
  written to handle, and what each operation makes of them.
 */
module CatalogScenarios {
  import opened Wrappers
  import opened JsonValue
  import opened Http
  import opened Catalog
  import ApiClient

  const Chess: Json := JObj(map["id" := JStr("42"), "name" := JStr("Chess")])
  const Seven: Json := JObj(map["id" := JStr("7")])

  /** `{"data": [A], "results": [B]}`: `data` is probed first and the lists are never merged. */
  lemma DataBeforeResults(a: Json, b: Json, rest: seq<Option<Json>>)
    ensures SearchGames([Some(JObj(map["data" := JArr([a]), "results" := JArr([b])]))] + rest) == [a]
    ensures GetCategories([Some(JObj(map["data" := JArr([a]), "results" := JArr([b])]))] + rest) == [a]
  {
    var fields := map["data" := JArr([a]), "results" := JArr([b])];
    assert !IsListAt(fields, "games") && !IsListAt(fields, "categories");
    ListUnderFirst(fields, GameListKeys, 1);
    ListUnderFirst(fields, CategoryListKeys, 1);
  }

  /** A bare record: search wraps it, the category listing does not and ends with `[]`. */
  lemma BareRecord()
    ensures SearchGames([Some(Chess)]) == [Chess]
    ensures GetCategories([Some(Chess), None, None]) == []
  {
    assert "id" in Chess.fields;
    SearchWrapsSingleRecord([Some(Chess)], 0);
    CategoriesSkipBareRecord(Chess, [None, None]);
  }

  /** `games/search` answers `[]` (falsy), `search` answers `[{"id": "7"}]`: the second wins. */
  lemma FallbackPastEmptyList(rest: seq<Option<Json>>)
    ensures SearchGames([Some(JArr([])), Some(JArr([Seven]))] + rest) == [Seven]
  {
    SearchReturnsList([Some(JArr([])), Some(JArr([Seven]))] + rest, 1);
  }

  /** `{"games": []}` is returned at once: later candidates are not consulted. */
  lemma EmptyWrapperStops(later: seq<Json>)
    ensures SearchGames([Some(JObj(map["games" := JArr([])])), Some(JArr(later))]) == []
    ensures GetGamesByCategory([Some(JObj(map["games" := JArr([])])), Some(JArr(later))]) == []
  {
    ListUnderFirst(map["games" := JArr([])], GameListKeys, 0);
  }

  /** `popular(limit=3)` over ten games keeps the first three, in order. */
  lemma PopularThreeOfTen(games: seq<Json>)
    requires |games| == 10
    ensures GetPopularGames([Some(JArr(games))], 3) == games[..3]
  {
  }

  /** A present `game` key decides the detail lookup even when it holds `null`. */
  lemma DetailGameNull(other: Json)
    ensures GetGameDetails([Some(JObj(map["game" := JNull])), Some(other)]) == JNull
  {
    assert "game" in map["game" := JNull];
    DetailUnwrap([Some(JObj(map["game" := JNull])), Some(other)], 0);
  }

  /** A backend that answers every URL with the one game `Seven`. */
  function AlwaysSeven(url: string): Outcome {
    Response(200, Some(JArr([Seven])))
  }

  /** Against that backend the first candidate already answers. */
  lemma SearchOnFirstCandidate(base: string, endpoints: seq<string>)
    requires endpoints != []
    ensures SearchGames(Responses(base, endpoints, AlwaysSeven)) == [Seven]
  {
    var rs := Responses(base, endpoints, AlwaysSeven);
    assert |rs| == |endpoints|;
    assert rs[0] == Classify(AlwaysSeven(RequestUrl(base, endpoints[0])));
    assert rs[0] == Some(JArr([Seven]));
    assert Truthy(JArr([Seven]));
    SearchReturnsList(rs, 0);
  }

  /**
    A client built on a base URL with a trailing slash searches, then is
    closed twice: the one session it opened ends closed, and the second
    close changes nothing.
   */
  method SearchThenCloseTwice()
  {
    var client := new ApiClient.ZatroleneHryClient("h/");
    assert client.baseUrl == "h";
    var games := client.SearchGames(AlwaysSeven);
    SearchOnFirstCandidate(client.baseUrl, SearchEndpoints);
    assert games == [Seven];
    client.Close();
    var first := client.session;
    client.Close();
    assert client.session == first && first != null && first.closed;
  }
}
