/**
  `ZatroleneHryClient` itself: the stored base URL, the session it creates
  lazily and closes on request, `_make_request`, and the five catalog
  operations. Each operation's loop over its candidates is proved to return
  what the corresponding `Catalog` function gives for the candidates'
  classified responses.
 */
module ApiClient {
  import opened Wrappers
  import opened JsonValue
  import opened Http
  import Catalog

  /** The network session: open from creation until `Close`. */
  class ClientSession {
    var closed: bool

    constructor ()
      ensures !closed
    {
      closed := false;
    }

    method Close()
      modifies this
      ensures closed
    {
      closed := true;
    }
  }

  class ZatroleneHryClient {
    const baseUrl: string
    var session: ClientSession?

    /** The base URL is stored without its trailing slashes; no session yet. */
    constructor (base: string)
      ensures baseUrl == RStripSlashes(base)
      ensures baseUrl == [] || baseUrl[|baseUrl| - 1] != '/'
      ensures session == null
    {
      baseUrl := RStripSlashes(base);
      session := null;
    }

    predicate HasOpenSession()
      reads this, session
    {
      session != null && !session.closed
    }

    /** `_ensure_session`: a new session only when there is none or it was closed. */
    method EnsureSession()
      modifies this
      ensures HasOpenSession()
      ensures old(HasOpenSession()) ==> session == old(session)
      ensures !old(HasOpenSession()) ==> fresh(session)
    {
      if session == null || session.closed {
        session := new ClientSession();
      }
    }

    /** `_close_session`: closes an open session; a missing or closed one is left as it is. */
    method CloseSession()
      modifies session
      ensures session == old(session)
      ensures !HasOpenSession()
      ensures session != null && old(session.closed) ==> unchanged(session)
    {
      if session != null && !session.closed {
        session.Close();
      }
    }

    /** `close`: delegates to `CloseSession`, so a second call changes nothing. */
    method Close()
      modifies session
      ensures session == old(session)
      ensures !HasOpenSession()
      ensures session != null && old(session.closed) ==> unchanged(session)
    {
      CloseSession();
    }

    /**
      `_make_request`: opens a session if needed, requests the joined URL and
      yields the decoded body of a 200 response, `None` for every other outcome.
     */
    method MakeRequest(endpoint: string, network: Network) returns (result: Option<Json>)
      modifies this
      ensures HasOpenSession()
      ensures old(HasOpenSession()) ==> session == old(session)
      ensures session == old(session) || fresh(session)
      ensures result == Classify(network(RequestUrl(baseUrl, endpoint)))
    {
      EnsureSession();
      var url := RequestUrl(baseUrl, endpoint);
      result := Classify(network(url));
    }

    /**
      The loop every operation runs: request the candidates in order and stop
      at the first truthy response that `pick` can reshape.
     */
    method FirstAccepted<T>(endpoints: seq<string>, network: Network, pick: Json -> Option<T>)
      returns (found: Option<T>)
      modifies this
      ensures found == Catalog.FirstMatch(Responses(baseUrl, endpoints, network), pick)
      ensures endpoints != [] ==> HasOpenSession()
      ensures session == old(session) || fresh(session)
    {
      ghost var responses := Responses(baseUrl, endpoints, network);
      var i := 0;
      while i < |endpoints|
        invariant 0 <= i <= |endpoints|
        invariant forall k :: 0 <= k < i ==> !Catalog.Accepted(responses[k], pick)
        invariant i > 0 ==> HasOpenSession()
        invariant session == old(session) || fresh(session)
      {
        var result := MakeRequest(endpoints[i], network);
        assert result == responses[i];
        if Catalog.Accepted(result, pick) {
          Catalog.FirstMatchAt(responses, pick, i);
          return pick(result.value);
        }
        Catalog.PassedOver(responses, pick, i);
        i := i + 1;
      }
      Catalog.FirstMatchNone(responses, pick);
      return None;
    }

    method SearchGames(network: Network) returns (games: seq<Json>)
      modifies this
      ensures games == Catalog.SearchGames(Responses(baseUrl, Catalog.SearchEndpoints, network))
      ensures HasOpenSession()
      ensures session == old(session) || fresh(session)
    {
      var found := FirstAccepted(Catalog.SearchEndpoints, network, Catalog.SearchPick);
      games := found.GetOr([]);
    }

    method GetGameDetails(gameId: string, network: Network) returns (game: Json)
      modifies this
      ensures game == Catalog.GetGameDetails(Responses(baseUrl, Catalog.DetailEndpoints(gameId), network))
      ensures HasOpenSession()
      ensures session == old(session) || fresh(session)
    {
      var found := FirstAccepted(Catalog.DetailEndpoints(gameId), network, Catalog.DetailPick);
      game := found.GetOr(JNull);
    }

    method GetCategories(network: Network) returns (categories: seq<Json>)
      modifies this
      ensures categories == Catalog.GetCategories(Responses(baseUrl, Catalog.CategoriesEndpoints, network))
      ensures HasOpenSession()
      ensures session == old(session) || fresh(session)
    {
      var found := FirstAccepted(Catalog.CategoriesEndpoints, network, Catalog.CategoriesPick);
      categories := found.GetOr([]);
    }

    method GetGamesByCategory(categoryId: string, network: Network) returns (games: seq<Json>)
      modifies this
      ensures games == Catalog.GetGamesByCategory(Responses(baseUrl, Catalog.ByCategoryEndpoints(categoryId), network))
      ensures HasOpenSession()
      ensures session == old(session) || fresh(session)
    {
      var found := FirstAccepted(Catalog.ByCategoryEndpoints(categoryId), network, Catalog.GamesPick);
      games := found.GetOr([]);
    }

    method GetPopularGames(limit: int, network: Network) returns (games: seq<Json>)
      modifies this
      ensures games == Catalog.GetPopularGames(Responses(baseUrl, Catalog.PopularEndpoints, network), limit)
      ensures limit >= 0 ==> |games| <= limit
      ensures HasOpenSession()
      ensures session == old(session) || fresh(session)
    {
      var found := FirstAccepted(Catalog.PopularEndpoints, network, Catalog.GamesPick);
      games := Catalog.SliceTo(found.GetOr([]), limit);
    }
  }
}
