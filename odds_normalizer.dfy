/**
 * The odds normaliser of the `/api/odds/<sport>` handler: it turns the list of
 * events the odds provider returns into a list of flat game summaries, taking
 * every price from the first bookmaker of each event.
 *
 * Input well-formedness is carried by the types: every event has an id, teams,
 * a start time and a sport title, every bookmaker a title, every market a key
 * and a list of outcomes, every outcome a name. The handler reads these fields
 * only for an event with bookmakers and only for its first bookmaker; the types
 * ask them of every event and bookmaker. What the provider may leave out
 * (the bookmaker list, a bookmaker's market list, an outcome's price or point)
 * is an `Option`.
 */
module OddsNormalizer {
  import opened Wrappers
  import Selection

  /** Key of the head-to-head (moneyline) market, the only one that sets the team odds. */
  const H2H: string := "h2h"

  /** One priced option of a market; `point` is the spread or total line. */
  datatype Outcome = Outcome(name: string, price: Option<int>, point: Option<real>)

  datatype Market = Market(key: string, outcomes: seq<Outcome>)

  /** `markets == None` is a bookmaker record without a `markets` key. */
  datatype Bookmaker = Bookmaker(title: string, markets: Option<seq<Market>>)

  /** `bookmakers == None` is an event whose `bookmakers` key is absent or null. */
  datatype Event = Event(
    id: string,
    homeTeam: string,
    awayTeam: string,
    commenceTime: string,
    sportTitle: string,
    bookmakers: Option<seq<Bookmaker>>)

  /** The pair `home_odds` / `away_odds` of a summary. */
  datatype Odds = Odds(home: Option<int>, away: Option<int>)

  /**
   * One processed game. `markets` maps a market key to the `{name, price, point}`
   * entries of that market's outcomes, in the provider's order.
   */
  datatype GameSummary = GameSummary(
    id: string,
    homeTeam: string,
    awayTeam: string,
    commenceTime: string,
    sportTitle: string,
    bookmaker: string,
    homeOdds: Option<int>,
    awayOdds: Option<int>,
    markets: map<string, seq<Outcome>>)

  /** An event is processed exactly when its bookmaker list is present and non-empty. */
  predicate HasBookmakers(e: Event) {
    e.bookmakers.Some? && e.bookmakers.value != []
  }

  /** The bookmaker's markets; an absent list reads as empty. */
  function MarketsOf(b: Bookmaker): seq<Market> {
    b.markets.GetOr([])
  }

  // ---------------------------------------------------------------------------
  // Specification functions: the loops of the handler, one step at a time.
  // ---------------------------------------------------------------------------

  /** One pass of the head-to-head scan: the home name wins over the away name (`if` / `elif`). */
  function StepOutcome(o: Outcome, home: string, away: string, acc: Odds): Odds {
    if o.name == home then acc.(home := o.price)
    else if o.name == away then acc.(away := o.price)
    else acc
  }

  /** The head-to-head scan over a market's outcomes, starting from `acc`. */
  function ScanOutcomes(os: seq<Outcome>, home: string, away: string, acc: Odds): Odds {
    if os == [] then acc
    else StepOutcome(os[|os| - 1], home, away, ScanOutcomes(os[..|os| - 1], home, away, acc))
  }

  /**
   * The team odds after scanning the markets in order: only head-to-head
   * markets are scanned, and the odds are never reset between markets.
   */
  function ScanMarkets(ms: seq<Market>, home: string, away: string): Odds {
    if ms == [] then Odds(None, None)
    else
      var before := ScanMarkets(ms[..|ms| - 1], home, away);
      var m := ms[|ms| - 1];
      if m.key == H2H then ScanOutcomes(m.outcomes, home, away, before) else before
  }

  /**
   * The `markets` table after processing the markets in order: each market
   * replaces the entry of its key by a copy of its outcomes. Its keys are exactly
   * the keys of the markets.
   */
  function MarketTable(ms: seq<Market>): (t: map<string, seq<Outcome>>)
    ensures t.Keys == set i | 0 <= i < |ms| :: ms[i].key
  {
    if ms == [] then map[]
    else
      var m := ms[|ms| - 1];
      var t0 := MarketTable(ms[..|ms| - 1]);
      assert forall i :: 0 <= i < |ms| - 1 ==> ms[..|ms| - 1][i] == ms[i];
      t0[m.key := m.outcomes]
  }

  /** The summary of one event, built from its first bookmaker only. */
  function Summarize(e: Event): GameSummary
    requires HasBookmakers(e)
  {
    var b := e.bookmakers.value[0];
    var ms := MarketsOf(b);
    var odds := ScanMarkets(ms, e.homeTeam, e.awayTeam);
    GameSummary(e.id, e.homeTeam, e.awayTeam, e.commenceTime, e.sportTitle,
                b.title, odds.home, odds.away, MarketTable(ms))
  }

  /** The normaliser: summaries of the events that have bookmakers, in input order. */
  function Normalize(events: seq<Event>): seq<GameSummary> {
    var kept := Selection.Filter(HasBookmakers, events);
    seq(|kept|, k requires 0 <= k < |kept| => Summarize(kept[k]))
  }

  // ---------------------------------------------------------------------------
  // Reference definitions: what the team odds mean, independent of the scan.
  // ---------------------------------------------------------------------------

  /**
   * The price of the last outcome in `os` named `name`, or `otherwise` when no
   * outcome has that name (see `LastPriceIsLastMatch`).
   */
  function LastPrice(os: seq<Outcome>, name: string, otherwise: Option<int>): Option<int> {
    if os == [] then otherwise
    else if os[|os| - 1].name == name then os[|os| - 1].price
    else LastPrice(os[..|os| - 1], name, otherwise)
  }

  /** With no outcome named `name`, `LastPrice` is the fallback. */
  lemma {:induction false} LastPriceNoMatch(os: seq<Outcome>, name: string, otherwise: Option<int>)
    requires forall i :: 0 <= i < |os| ==> os[i].name != name
    ensures LastPrice(os, name, otherwise) == otherwise
  {
    if os != [] {
      LastPriceNoMatch(os[..|os| - 1], name, otherwise);
    }
  }

  /** `LastPrice` is the price of the outcome named `name` that no later outcome of that name follows. */
  lemma {:induction false} LastPriceIsLastMatch(os: seq<Outcome>, name: string, otherwise: Option<int>, i: nat)
    requires i < |os| && os[i].name == name
    requires forall j :: i < j < |os| ==> os[j].name != name
    ensures LastPrice(os, name, otherwise) == os[i].price
  {
    if i < |os| - 1 {
      var init := os[..|os| - 1];
      assert os[|os| - 1].name != name;
      assert forall j :: i < j < |init| ==> init[j] == os[j];
      LastPriceIsLastMatch(init, name, otherwise, i);
    }
  }

  /** All outcomes of the head-to-head markets, market after market. */
  function H2hOutcomes(ms: seq<Market>): seq<Outcome> {
    if ms == [] then []
    else
      var m := ms[|ms| - 1];
      H2hOutcomes(ms[..|ms| - 1]) + (if m.key == H2H then m.outcomes else [])
  }

  /** Searching a concatenation: the second part decides, the first only when the second has no match. */
  lemma {:induction false} LastPriceAppend(a: seq<Outcome>, b: seq<Outcome>, name: string, otherwise: Option<int>)
    ensures LastPrice(a + b, name, otherwise) == LastPrice(b, name, LastPrice(a, name, otherwise))
  {
    if b == [] {
      assert a + b == a;
    } else {
      assert (a + b)[..|a + b| - 1] == a + b[..|b| - 1];
      LastPriceAppend(a, b[..|b| - 1], name, otherwise);
    }
  }

  /**
   * The head-to-head scan of one market sets `home` to the price of the last
   * outcome named like the home team and `away` to that of the last outcome named
   * like the away team; when both teams have the same name only `home` changes.
   */
  lemma {:induction false} ScanOutcomesFindsLast(os: seq<Outcome>, home: string, away: string, acc: Odds)
    ensures ScanOutcomes(os, home, away, acc)
         == Odds(LastPrice(os, home, acc.home),
                 if away == home then acc.away else LastPrice(os, away, acc.away))
  {
    if os != [] {
      ScanOutcomesFindsLast(os[..|os| - 1], home, away, acc);
    }
  }

  /**
   * The team odds are the prices of the last matching outcomes over ALL
   * head-to-head markets of the bookmaker (None when nothing matches); a
   * repeated head-to-head market does not reset them.
   */
  lemma {:induction false} ScanMarketsFindsLast(ms: seq<Market>, home: string, away: string)
    ensures ScanMarkets(ms, home, away)
         == Odds(LastPrice(H2hOutcomes(ms), home, None),
                 if away == home then None else LastPrice(H2hOutcomes(ms), away, None))
  {
    if ms != [] {
      var init, m := ms[..|ms| - 1], ms[|ms| - 1];
      ScanMarketsFindsLast(init, home, away);
      if m.key == H2H {
        ScanOutcomesFindsLast(m.outcomes, home, away, ScanMarkets(init, home, away));
        LastPriceAppend(H2hOutcomes(init), m.outcomes, home, None);
        LastPriceAppend(H2hOutcomes(init), m.outcomes, away, None);
      } else {
        assert H2hOutcomes(ms) == H2hOutcomes(init) + [] == H2hOutcomes(init);
      }
    }
  }

  /** A market whose key is not `h2h`, wherever it stands, leaves the team odds unchanged. */
  lemma {:induction false} OtherMarketsIgnored(a: seq<Market>, m: Market, b: seq<Market>, home: string, away: string)
    requires m.key != H2H
    ensures ScanMarkets(a + [m] + b, home, away) == ScanMarkets(a + b, home, away)
  {
    if b == [] {
      assert a + [m] + b == a + [m] && (a + [m])[..|a|] == a && a + b == a;
    } else {
      OtherMarketsIgnored(a, m, b[..|b| - 1], home, away);
      assert (a + [m] + b)[..|a + [m] + b| - 1] == a + [m] + b[..|b| - 1];
      assert (a + b)[..|a + b| - 1] == a + b[..|b| - 1];
    }
  }

  /**
   * Last write wins: the entry of a key is a copy of the outcomes of the last
   * market with that key, in their order; earlier markets with the key are discarded.
   */
  lemma {:induction false} MarketTableLastWins(ms: seq<Market>, i: nat)
    requires i < |ms|
    requires forall j :: i < j < |ms| ==> ms[j].key != ms[i].key
    ensures ms[i].key in MarketTable(ms) && MarketTable(ms)[ms[i].key] == ms[i].outcomes
  {
    if i < |ms| - 1 {
      MarketTableLastWins(ms[..|ms| - 1], i);
    }
  }

  // ---------------------------------------------------------------------------
  // What a summary and the normalised list say about the input.
  // ---------------------------------------------------------------------------

  /**
   * A summary copies the event's identity fields and the first bookmaker's title,
   * and its team odds are the last matching head-to-head prices of that bookmaker.
   */
  lemma SummaryFacts(e: Event)
    requires HasBookmakers(e)
    ensures var g, b := Summarize(e), e.bookmakers.value[0];
      var hs := H2hOutcomes(MarketsOf(b));
      && g.id == e.id && g.homeTeam == e.homeTeam && g.awayTeam == e.awayTeam
      && g.commenceTime == e.commenceTime && g.sportTitle == e.sportTitle
      && g.bookmaker == b.title
      && g.homeOdds == LastPrice(hs, e.homeTeam, None)
      && g.awayOdds == (if e.awayTeam == e.homeTeam then None else LastPrice(hs, e.awayTeam, None))
  {
    ScanMarketsFindsLast(MarketsOf(e.bookmakers.value[0]), e.homeTeam, e.awayTeam);
  }

  /**
   * A summary's market table has one entry per market key of the first
   * bookmaker, and the entry of the `i`-th market's key holds that market's
   * outcomes when no later market has the same key.
   */
  lemma SummaryMarkets(e: Event, i: nat)
    requires HasBookmakers(e)
    requires var ms := MarketsOf(e.bookmakers.value[0]);
      i < |ms| && forall j :: i < j < |ms| ==> ms[j].key != ms[i].key
    ensures var ms, g := MarketsOf(e.bookmakers.value[0]), Summarize(e);
      && g.markets.Keys == (set k | 0 <= k < |ms| :: ms[k].key)
      && g.markets[ms[i].key] == ms[i].outcomes
  {
    MarketTableLastWins(MarketsOf(e.bookmakers.value[0]), i);
  }

  /** A bookmaker without a market list yields an empty table and no team odds. */
  lemma NoMarketsNoOdds(e: Event)
    requires HasBookmakers(e) && e.bookmakers.value[0].markets.None?
    ensures Summarize(e).markets == map[]
    ensures Summarize(e).homeOdds == None && Summarize(e).awayOdds == None
  {
  }

  /** Bookmakers after the first never influence the summary. */
  lemma OnlyFirstBookmaker(e: Event, others: seq<Bookmaker>)
    requires HasBookmakers(e)
    ensures Summarize(e.(bookmakers := Some([e.bookmakers.value[0]] + others)))
         == Summarize(e.(bookmakers := Some([e.bookmakers.value[0]])))
  {
  }

  /**
   * An event is dropped exactly when its bookmaker list is missing or empty;
   * the k-th summary is the summary of the k-th surviving event, and the
   * survivors keep their input order.
   */
  lemma NormalizeSelects(events: seq<Event>)
    ensures var idx := Selection.Picked(HasBookmakers, events);
      && |Normalize(events)| == |idx|
      && (forall k :: 0 <= k < |idx| ==> Normalize(events)[k] == Summarize(events[idx[k]]))
      && (forall k, l :: 0 <= k < l < |idx| ==> idx[k] < idx[l])
      && (forall i :: 0 <= i < |events| ==> (i in idx <==> HasBookmakers(events[i])))
  {
    Selection.FilterIsPicked(HasBookmakers, events);
    forall i | 0 <= i < |events|
      ensures i in Selection.Picked(HasBookmakers, events) <==> HasBookmakers(events[i])
    {
      Selection.PickedExactly(HasBookmakers, events, i);
    }
  }

  /**
   * A single event with one bookmaker and one head-to-head market: both team
   * odds are found, and the market's outcomes are copied with no point.
   */
  lemma OneGameExample()
    ensures var a, b := Outcome("A", Some(-150), None), Outcome("B", Some(130), None);
      var e := Event("e1", "A", "B", "2024-01-01T00:00:00Z", "NBA",
                     Some([Bookmaker("BookX", Some([Market(H2H, [a, b])]))]));
      Normalize([e]) == [GameSummary("e1", "A", "B", "2024-01-01T00:00:00Z", "NBA", "BookX",
                                     Some(-150), Some(130), map[H2H := [a, b]])]
  {
    var a, b := Outcome("A", Some(-150), None), Outcome("B", Some(130), None);
    var ms := [Market(H2H, [a, b])];
    var e := Event("e1", "A", "B", "2024-01-01T00:00:00Z", "NBA", Some([Bookmaker("BookX", Some(ms))]));
    assert [e][..0] == [] && [a, b][..1] == [a] && [a][..0] == [] && ms[..0] == [];
    assert ScanOutcomes([a], "A", "B", Odds(None, None)) == Odds(Some(-150), None);
    assert ScanMarkets(ms, "A", "B") == Odds(Some(-150), Some(130));
    assert Selection.Filter(HasBookmakers, [e]) == [e];
  }

  // ---------------------------------------------------------------------------
  // The handler's loops.
  // ---------------------------------------------------------------------------

  /** Builds the summary of one event as the handler does, field by field and outcome by outcome. */
  method SummarizeEvent(game: Event) returns (info: GameSummary)
    requires HasBookmakers(game)
    ensures info == Summarize(game)
  {
    var bookmaker := game.bookmakers.value[0];
    var ms := MarketsOf(bookmaker);
    var homeOdds: Option<int> := None;
    var awayOdds: Option<int> := None;
    var markets: map<string, seq<Outcome>> := map[];
    var i := 0;
    while i < |ms|
      invariant 0 <= i <= |ms|
      invariant Odds(homeOdds, awayOdds) == ScanMarkets(ms[..i], game.homeTeam, game.awayTeam)
      invariant markets == MarketTable(ms[..i])
    {
      var market := ms[i];
      var key := market.key;
      var outs := market.outcomes;
      assert ms[..i + 1][..i] == ms[..i];
      ghost var before := Odds(homeOdds, awayOdds);
      markets := markets[key := []];

      if key == H2H {
        var j := 0;
        while j < |outs|
          invariant 0 <= j <= |outs|
          invariant Odds(homeOdds, awayOdds) == ScanOutcomes(outs[..j], game.homeTeam, game.awayTeam, before)
        {
          var outcome := outs[j];
          assert outs[..j + 1][..j] == outs[..j];
          if outcome.name == game.homeTeam {
            homeOdds := outcome.price;
          } else if outcome.name == game.awayTeam {
            awayOdds := outcome.price;
          }
          j := j + 1;
        }
        assert outs[..j] == outs;
      }

      var j := 0;
      while j < |outs|
        invariant 0 <= j <= |outs|
        invariant markets == MarketTable(ms[..i])[key := outs[..j]]
      {
        var outcome := outs[j];
        var entry := Outcome(outcome.name, outcome.price, outcome.point);
        assert outs[..j + 1] == outs[..j] + [entry];
        markets := markets[key := markets[key] + [entry]];
        j := j + 1;
      }
      assert outs[..j] == outs;
      i := i + 1;
    }
    assert ms[..i] == ms;
    info := GameSummary(game.id, game.homeTeam, game.awayTeam, game.commenceTime, game.sportTitle,
                        bookmaker.title, homeOdds, awayOdds, markets);
  }

  /** The processing loop of the handler: one summary per event that has bookmakers, in order. */
  method NormalizeOdds(events: seq<Event>) returns (games: seq<GameSummary>)
    ensures games == Normalize(events)
  {
    games := [];
    var i := 0;
    while i < |events|
      invariant 0 <= i <= |events|
      invariant games == Normalize(events[..i])
    {
      var game := events[i];
      assert events[..i + 1] == events[..i] + [game];
      Selection.FilterSnoc(HasBookmakers, events[..i], game);
      if game.bookmakers.Some? && |game.bookmakers.value| > 0 {
        var info := SummarizeEvent(game);
        games := games + [info];
      }
      i := i + 1;
    }
    assert events[..i] == events;
  }
}
