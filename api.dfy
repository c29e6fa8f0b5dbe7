/**
 * The request handlers of the backend, reduced to their data flow: the call to
 * the odds provider is a parameter (`Fetch`), and a reply is either a payload
 * or the `{success: false, error}` envelope with its HTTP status.
 */
module Api {
  import opened Wrappers
  import SportCatalog
  import OddsNormalizer
  import Picks

  /** A handler's reply: a success payload, or an HTTP status with an error text. */
  datatype Reply<T> = Ok(value: T) | Fail(status: int, error: string)

  /** The outcome of a call to the odds provider: its decoded JSON, or the failure's text. */
  datatype Fetch<T> = Fetched(value: T) | FetchFailed(reason: string)

  /**
   * `GET /api/odds/<sport>`: a key outside the allow-list is refused with 400
   * before the provider is asked; a failed call is a 500 naming the cause;
   * otherwise the reply carries the normalised games.
   */
  method GetOdds(sport: string, fetched: Fetch<seq<OddsNormalizer.Event>>)
    returns (reply: Reply<seq<OddsNormalizer.GameSummary>>)
    ensures sport !in SportCatalog.ValidSports ==>
      reply == Fail(400, SportCatalog.ValidateSport(sport).value)
    ensures sport in SportCatalog.ValidSports && fetched.FetchFailed? ==>
      reply == Fail(500, "Failed to fetch odds: " + fetched.reason)
    ensures sport in SportCatalog.ValidSports && fetched.Fetched? ==>
      reply == Ok(OddsNormalizer.Normalize(fetched.value))
  {
    var invalid := SportCatalog.ValidateSport(sport);
    if invalid.Some? {
      return Fail(400, invalid.value);
    }
    match fetched
    case FetchFailed(reason) =>
      reply := Fail(500, "Failed to fetch odds: " + reason);
    case Fetched(events) =>
      var games := OddsNormalizer.NormalizeOdds(events);
      reply := Ok(games);
  }

  /**
   * `GET /api/sports`: the provider's active sports in their order, or a 500
   * naming the cause of a failed call.
   */
  function GetSports(fetched: Fetch<seq<SportCatalog.Sport>>): (reply: Reply<seq<SportCatalog.Sport>>)
    ensures reply.Ok? <==> fetched.Fetched?
    ensures reply.Fail? ==> reply.status == 500 && reply.error == "Failed to fetch sports: " + fetched.reason
    ensures reply.Ok? ==> forall k :: 0 <= k < |reply.value| ==> reply.value[k].active == Some(true)
    ensures fetched.Fetched? ==> reply == Ok(SportCatalog.ActiveSports(fetched.value))
  {
    match fetched
    case FetchFailed(reason) => Fail(500, "Failed to fetch sports: " + reason)
    case Fetched(sports) => Ok(SportCatalog.ActiveSports(sports))
  }

  /**
   * `POST /api/make-pick`: the required fields are checked in order and the
   * first missing one is reported with 400; otherwise the pick echoes the body's
   * fields, is pending, and belongs to the body's user or to "anonymous".
   * `stamp` is the clock reading the pick id is made from, `now` the ISO time.
   */
  method MakePick(body: map<string, Picks.Json>, stamp: string, now: string)
    returns (reply: Reply<Picks.Pick>)
    ensures reply.Fail? <==> Picks.FirstMissing(Picks.RequiredFields, body).Some?
    ensures reply.Fail? ==>
      reply == Fail(400, Picks.MissingFieldError(Picks.FirstMissing(Picks.RequiredFields, body).value))
    ensures reply.Ok? ==>
      && "game_id" in body && "selected_team" in body && "odds" in body && "market_type" in body
      && reply.value.id == "pick_" + stamp
      && reply.value.gameId == body["game_id"]
      && reply.value.selectedTeam == body["selected_team"]
      && reply.value.odds == body["odds"]
      && reply.value.marketType == body["market_type"]
      && reply.value.timestamp == now
      && reply.value.status == Picks.PendingStatus
      && reply.value.userId == (if "user_id" in body then body["user_id"] else Picks.DefaultUser)
  {
    var required := Picks.RequiredFields;
    for i := 0 to |required|
      invariant forall j :: 0 <= j < i ==> required[j] in body
      invariant Picks.FirstMissing(required, body) == Picks.FirstMissing(required[i..], body)
    {
      var field := required[i];
      if field !in body {
        return Fail(400, Picks.MissingFieldError(field));
      }
      assert required[i..][1..] == required[i + 1..];
    }
    assert required[0] in body && required[1] in body && required[2] in body && required[3] in body;
    var userId := if "user_id" in body then body["user_id"] else Picks.DefaultUser;
    var pick := Picks.Pick("pick_" + stamp, body["game_id"], body["selected_team"], body["odds"],
                           body["market_type"], now, Picks.PendingStatus, userId);
    reply := Ok(pick);
  }
}
