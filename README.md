# Top Ledger odds relay — Dafny model

Top Ledger is a small Flask backend with a React page. The backend relays
sports odds from a third-party provider to a browser client. This project
models the parts of it that hold logic, and proves what they promise:

- **the odds normaliser** of `GET /api/odds/<sport>`. It turns the provider's
  events into flat game summaries: only events that have bookmakers are kept,
  only the first bookmaker is used, every market's outcomes are copied, and
  the team odds come from the head-to-head (`h2h`) market. It is imperative
  Dafny (`SummarizeEvent`, `NormalizeOdds`), with the same loops, the same
  `if`/`elif` and the same resets as the handler. Each method is proved equal
  to a specification function (`Summarize`, `Normalize`). Lemmas then state
  what those functions mean: which events survive and in what order, which
  outcome sets `home_odds`/`away_odds`, and that the last market with a key
  wins.
- **the sport allow-list check** of the odds handler and its error text, and
  **the active-sports filter** of `GET /api/sports`;
- **the pick recorder** `POST /api/make-pick`: the ordered check of the four
  required fields and the pick record it echoes back;
- **the Make Pick page**: `formatOdds`, proved against a reader of its output
  (a round trip), and the body `makePick` posts, proved to pass the server's
  field check exactly when the game, team and odds are defined.

Modules: `Wrappers` (Option), `Selection` (order-preserving filtering, shared
by the normaliser and the sports filter), `OddsNormalizer`, `SportCatalog`,
`Picks`, `Api` (the handlers) and `MakePickPage`.

The call to the odds provider is a parameter of the handlers (`Api.Fetch`: the
decoded JSON, or the text of the failure). The clock is two string parameters
of `Api.MakePick`: the timestamp the pick id is made from, and the ISO time.

Behaviour of the code worth noting:
- An event is skipped when `bookmakers` is absent, null or empty
  (`game.get('bookmakers')` is falsy in all three cases, `app.py:57`).
- The sport check uses the six keys written in `app.py`, not the longer list
  in `config.py`.
- A second `h2h` market resets `markets['h2h']`, but not `home_odds` or
  `away_odds`. The odds are therefore the last match over all `h2h` markets
  (`ScanMarketsFindsLast`).

## Model

| member | source | states |
|---|---|---|
| `OddsNormalizer.NormalizeOdds` | top_ledger/backend/app.py:55-94 | the processing loop returns exactly `Normalize(events)`: one summary for each event with bookmakers, in order |
| `OddsNormalizer.SummarizeEvent` | top_ledger/backend/app.py:58-92 | the per-event loops (reset of a market's entry, `h2h` scan with `if`/`elif`, copy of every outcome) build exactly `Summarize(game)` |
| `OddsNormalizer.NormalizeSelects` | top_ledger/backend/app.py:55-94 | an event is dropped exactly when its bookmaker list is missing or empty; the output has one summary per remaining event, and the k-th summary belongs to the k-th remaining event in input order |
| `OddsNormalizer.SummaryFacts` | top_ledger/backend/app.py:58-83 | a summary copies id, teams, start time and sport title, and takes the title of the first bookmaker; its odds are the last matching `h2h` prices of that bookmaker |
| `OddsNormalizer.SummaryMarkets` | top_ledger/backend/app.py:73-92 | a summary's markets have one key per market key of the first bookmaker, each holding the outcomes of the last market with that key |
| `OddsNormalizer.ScanMarketsFindsLast` | top_ledger/backend/app.py:67-83 | `home_odds` is the price of the last `h2h` outcome named like the home team, over all `h2h` markets, else None; `away_odds` is the same for the away team, and stays None when both teams have the same name |
| `OddsNormalizer.ScanOutcomesFindsLast` | top_ledger/backend/app.py:79-83 | within one `h2h` market, later matches overwrite earlier ones, other names change nothing, and the `elif` never sets the away side for a name equal to the home team |
| `OddsNormalizer.LastPriceIsLastMatch` | top_ledger/backend/app.py:79-83 | the reference "last match" is the price of the matching outcome that no later match follows |
| `OddsNormalizer.LastPriceNoMatch` | top_ledger/backend/app.py:67-68 | with no matching outcome the reference "last match" is the fallback, so the odds stay None |
| `OddsNormalizer.OtherMarketsIgnored` | top_ledger/backend/app.py:78 | inserting a market whose key is not `h2h` anywhere in the list leaves both team odds unchanged |
| `OddsNormalizer.MarketTable` | top_ledger/backend/app.py:73-75 | the market table's keys are exactly the keys of the bookmaker's markets |
| `OddsNormalizer.MarketTableLastWins` | top_ledger/backend/app.py:73-92 | the entry of a key holds the outcomes of the last market with that key, with the same length and order; earlier markets with the key are discarded |
| `OddsNormalizer.NoMarketsNoOdds` | top_ledger/backend/app.py:67-73 | a bookmaker without `markets` gives an empty market table and no team odds |
| `OddsNormalizer.OnlyFirstBookmaker` | top_ledger/backend/app.py:57-58 | bookmakers after the first never influence the summary |
| `OddsNormalizer.OneGameExample` | top_ledger/backend/app.py:55-94 | one event with an `h2h` market `A:-150, B:130` yields home odds -150, away odds 130 and the two outcomes without a point |
| `SportCatalog.ValidateSport` | top_ledger/backend/app.py:29-38 | a key is accepted exactly when it is one of the six listed keys; a rejection's text starts with "Invalid sport. Valid options: " |
| `SportCatalog.RejectionListsEveryKey` | top_ledger/backend/app.py:34-38 | the rejection text names every accepted key, at the place `", ".join` puts it |
| `SportCatalog.JoinContains` | top_ledger/backend/app.py:37 | every string given to the join appears in its result, at the offset after the earlier strings and separators |
| `SportCatalog.InvalidSportMessage` | top_ledger/backend/app.py:29-38 | the rejection text of every key outside the list (for instance "curling") is the prefix followed by the six keys separated by ", " |
| `SportCatalog.ActiveSportsSelects` | top_ledger/backend/app.py:133 | the active sports are exactly the entries whose flag is true, in input order; entries without the flag or with a false flag are dropped |
| `Picks.FirstMissing` | top_ledger/backend/app.py:153-159 | None exactly when every required field is present; otherwise a field that is absent while every field before it is present |
| `Picks.OnlyGameIdMissesTeam` | top_ledger/backend/app.py:153-159 | a body with only `game_id` is reported as missing `selected_team` |
| `Api.GetOdds` | top_ledger/backend/app.py:27-113 | an unknown sport gives 400 with the validation text, before the provider is used; a failed call gives 500 "Failed to fetch odds: " and the cause; otherwise the normalised games |
| `Api.GetSports` | top_ledger/backend/app.py:121-144 | a failed call gives 500 "Failed to fetch sports: " and the cause; otherwise the reply is `ActiveSports` of the fetched list: every sport whose flag is true, in input order, and no other |
| `Api.MakePick` | top_ledger/backend/app.py:149-181 | the pick is refused with 400 exactly when a required field is missing, naming the first missing one in the fixed order; otherwise it copies the four fields, gets id "pick_" and the timestamp, status "pending", and the body's `user_id` or "anonymous" |
| `MakePickPage.NatToDecimal` | top_ledger/src/pages/MakePick/MakePick.js:76-78 | the rendered digits are decimal digits, non-empty, with no leading zero except for 0 |
| `MakePickPage.FormatOddsRoundTrip` | top_ledger/src/pages/MakePick/MakePick.js:73-79 | reading back the rendered odds gives the price it was given, and "N/A" reads back as no price |
| `MakePickPage.FormatOddsShape` | top_ledger/src/pages/MakePick/MakePick.js:73-79 | a price never renders as "N/A"; a leading "+" marks exactly the positive ones; a positive price is "+" and its digits, 0 is "0", and a negative price is "-" and the digits of its magnitude, never with a leading zero |
| `MakePickPage.PickRequestFields` | top_ledger/src/pages/MakePick/MakePick.js:46-58 | the posted body passes `game_id`, `selected_team` and `odds` through unchanged, omits any that were undefined, and has `market_type` "h2h" unless one was given |
| `MakePickPage.PickRequestAccepted` | top_ledger/src/pages/MakePick/MakePick.js:46-58 | the server refuses the page's body exactly when the game, team or odds were undefined, naming the first of them; the market type is never the missing field |
| `OddsNormalizer.Normalize` | top_ledger/backend/app.py:55-94 | the normalised list; characterised by `NormalizeSelects`, and computed by `NormalizeOdds` |
| `OddsNormalizer.Summarize` | top_ledger/backend/app.py:58-92 | the summary of one event; characterised by `SummaryFacts` and `SummaryMarkets`, and computed by `SummarizeEvent` |
| `SportCatalog.Join` | top_ledger/backend/app.py:37 | Python's `", ".join`; characterised by `JoinContains` and `InvalidSportMessage` |
| `SportCatalog.IsActive` | top_ledger/backend/app.py:133 | `sport.get('active', False)`: an absent flag reads as false; used by `ActiveSportsSelects` |
| `SportCatalog.ActiveSports` | top_ledger/backend/app.py:133 | the active-sports comprehension; characterised by `ActiveSportsSelects` |
| `Picks.MissingFieldError` | top_ledger/backend/app.py:158 | the text "Missing required field: " and the field; used by the contract of `Api.MakePick` |
| `MakePickPage.FormatOdds` | top_ledger/src/pages/MakePick/MakePick.js:73-79 | `formatOdds`; characterised by `FormatOddsRoundTrip` and `FormatOddsShape` |
| `MakePickPage.WithField` | top_ledger/src/pages/MakePick/MakePick.js:53-58 | a key of the posted body, left out when its value is undefined, as `JSON.stringify` does; characterised by `PickRequestFields` |
| `MakePickPage.PickRequest` | top_ledger/src/pages/MakePick/MakePick.js:46-58 | the body `makePick` posts; characterised by `PickRequestFields` and `PickRequestAccepted` |
| `OddsNormalizer.HasBookmakers` | top_ledger/backend/app.py:57 | `game.get('bookmakers')` is truthy: the list is present and non-empty; characterised by `NormalizeSelects` |
| `OddsNormalizer.MarketsOf` | top_ledger/backend/app.py:73 | `bookmaker.get('markets', [])`: an absent list reads as empty; used by `NoMarketsNoOdds` |
| `OddsNormalizer.StepOutcome` | top_ledger/backend/app.py:80-83 | one pass of the `if`/`elif` on an outcome's name; characterised by `ScanOutcomesFindsLast` |
| `OddsNormalizer.ScanOutcomes` | top_ledger/backend/app.py:79-83 | the `h2h` scan of one market's outcomes, which the inner loop of `SummarizeEvent` computes; characterised by `ScanOutcomesFindsLast` |
| `OddsNormalizer.ScanMarkets` | top_ledger/backend/app.py:67-83 | the team odds after all markets, which the market loop of `SummarizeEvent` computes; characterised by `ScanMarketsFindsLast` and `OtherMarketsIgnored` |
| `MakePickPage.IntToDecimal` | top_ledger/src/pages/MakePick/MakePick.js:76-78 | `Number.prototype.toString` on an integer; characterised by `FormatOddsShape` and `FormatOddsRoundTrip` |
| `Selection.Filter` | top_ledger/backend/app.py:133 | the order-preserving filter of the active-sports comprehension, also used for the append-if loop of app.py:55-57,94; every element it keeps passes the test, and `FilterIsPicked` states it keeps exactly the passing ones, in order |
| `Selection.FilterIsPicked` | top_ledger/backend/app.py:133 | the filtered sequence is the input at exactly the positions whose elements pass the test, ascending |

## Left out

- Flask routing, CORS, `jsonify`, the health check and the 404/500 error handlers: these are framework glue.
- The HTTP calls to the provider: the request, its 10-second timeout and `raise_for_status` are the `Api.Fetch` parameter.
- The `x-requests-remaining` / `x-requests-used` headers and the `api_info` part of the odds reply: they come from network I/O and are not modelled.
- `Api.GetOdds` does not model the 500 "Unexpected error" reply. Python raises only for a malformed field it actually reads. Those are the fields of an event whose `bookmakers` list is non-empty (`id`, teams, time, title) and of that event's first bookmaker (`title`, `markets: null`, each market's `key` or `outcomes`, each outcome's `name`). Here the types make those fields present. The types also require them on events that are dropped and on bookmakers after the first, although Python never reads those. So an input such as `[{"bookmakers": []}]`, which Python answers with 200 and no games, cannot be written in the model.
- `OddsNormalizer.GameSummary`: the key order of `markets` is not modelled. The Python dict keeps keys in order of first insertion, so the JSON reply lists market keys in that order. The model's `map` has no order.
- `Api.GetSports` does not model an exception other than a failed call; in Python it reaches Flask's generic 500 handler.
- `Api.MakePick` assumes the request body is a JSON object. A missing or non-JSON body makes Python reply 500 "Failed to record pick".
- `SportCatalog.IsActive` treats the `active` flag as an optional boolean. Python truthiness of other JSON values (1, "yes") is not modelled.
- Prices and JSON numbers are integers. Spread and total points are `real` values that are only copied. Floating point is not modelled.
- `MakePickPage.FormatOdds` is faithful for safe integers only (magnitude at most 2^53). It prints the exact digits of any integer. JavaScript numbers above 2^53 are not exact, and their `toString` pads with zeros or, from 1e21, uses exponent notation. Fractional odds and odds passed as strings are not modelled either.
- The pick id and timestamp come from `datetime.now()`. They are parameters.
- The `GET /api/picks` stub always returns an empty list and is not modelled.
- `formatGameTime` is not modelled: it is locale date formatting.
- The page's React state, `fetch` calls and alerts are not modelled.
- `config.py` and `run.py` are not part of this model: they hold environment loading, constants and a startup banner.
