/**
 * The sport catalogue: the allow-list the odds handler checks a sport key
 * against, the error message it reports, and the filter the sports handler
 * applies to the provider's sports list.
 */
module SportCatalog {
  import opened Wrappers
  import Selection

  /** The keys the odds handler accepts, in the order its error message lists them. */
  const ValidSports: seq<string> := [
    "basketball_nba", "americanfootball_nfl", "baseball_mlb",
    "soccer_usa_mls", "hockey_nhl", "tennis_atp_singles"
  ]

  const InvalidSportPrefix: string := "Invalid sport. Valid options: "

  /** Python's `sep.join(xs)`: the strings of `xs` with `sep` between neighbours. */
  function Join(xs: seq<string>, sep: string): string {
    if |xs| == 0 then ""
    else if |xs| == 1 then xs[0]
    else xs[0] + sep + Join(xs[1..], sep)
  }

  /** `w` occurs in `s` at `at`. */
  predicate OccursAt(w: string, s: string, at: nat) {
    at + |w| <= |s| && s[at..at + |w|] == w
  }

  /** Where the `i`-th string starts in `Join(xs, sep)`. */
  function JoinOffset(xs: seq<string>, sep: string, i: nat): nat
    requires i < |xs|
  {
    if i == 0 then 0 else |xs[0]| + |sep| + JoinOffset(xs[1..], sep, i - 1)
  }

  /** Every joined string appears in the result, at `JoinOffset`. */
  lemma {:induction false} JoinContains(xs: seq<string>, sep: string, i: nat)
    requires i < |xs|
    ensures OccursAt(xs[i], Join(xs, sep), JoinOffset(xs, sep, i))
  {
    if i > 0 {
      JoinContains(xs[1..], sep, i - 1);
      var rest := Join(xs[1..], sep);
      var at := JoinOffset(xs[1..], sep, i - 1);
      var head := xs[0] + sep;
      assert Join(xs, sep) == head + rest;
      assert (head + rest)[|head| + at..|head| + at + |xs[i]|] == rest[at..at + |xs[i]|];
    }
  }

  /** The sport check of the odds handler: `None` when the key is accepted, else the error text. */
  function ValidateSport(sport: string): (err: Option<string>)
    ensures err.None? <==> sport in ValidSports
    ensures err.Some? ==> InvalidSportPrefix <= err.value
  {
    if sport in ValidSports then None
    else Some(InvalidSportPrefix + Join(ValidSports, ", "))
  }

  /**
   * The error text of a rejected key names every accepted key, each at the
   * place `", ".join` puts it after the fixed prefix.
   */
  lemma RejectionListsEveryKey(sport: string, i: nat)
    requires sport !in ValidSports && i < |ValidSports|
    ensures ValidateSport(sport).Some?
    ensures OccursAt(ValidSports[i], ValidateSport(sport).value,
                     |InvalidSportPrefix| + JoinOffset(ValidSports, ", ", i))
  {
    var listing := Join(ValidSports, ", ");
    JoinContains(ValidSports, ", ", i);
    var at := JoinOffset(ValidSports, ", ", i);
    assert (InvalidSportPrefix + listing)[|InvalidSportPrefix| + at..|InvalidSportPrefix| + at + |ValidSports[i]|]
        == listing[at..at + |ValidSports[i]|];
  }

  /** Joining a string in front of a non-empty list puts one separator between them. */
  lemma JoinCons(x: string, ys: seq<string>, sep: string)
    requires ys != []
    ensures Join([x] + ys, sep) == x + sep + Join(ys, sep)
  {
    assert ([x] + ys)[1..] == ys;
  }

  /** The message of any rejected key (for instance "curling"), spelled out key by key. */
  lemma InvalidSportMessage(sport: string)
    requires sport !in ValidSports
    ensures ValidateSport(sport) == Some(InvalidSportPrefix +
      ("basketball_nba" + ", " +
      ("americanfootball_nfl" + ", " +
      ("baseball_mlb" + ", " +
      ("soccer_usa_mls" + ", " +
      ("hockey_nhl" + ", " + "tennis_atp_singles"))))))
  {
    var t5 := ["tennis_atp_singles"];
    var t4 := ["hockey_nhl"] + t5;
    var t3 := ["soccer_usa_mls"] + t4;
    var t2 := ["baseball_mlb"] + t3;
    var t1 := ["americanfootball_nfl"] + t2;
    assert ValidSports == ["basketball_nba"] + t1;
    JoinCons("hockey_nhl", t5, ", ");
    JoinCons("soccer_usa_mls", t4, ", ");
    JoinCons("baseball_mlb", t3, ", ");
    JoinCons("americanfootball_nfl", t2, ", ");
    JoinCons("basketball_nba", t1, ", ");
    assert Join(t5, ", ") == "tennis_atp_singles";
  }

  /** One entry of the provider's sports list; `active == None` is an entry without the flag. */
  datatype Sport = Sport(key: string, group: string, title: string, active: Option<bool>)

  /** `sport.get('active', False)`. */
  predicate IsActive(s: Sport) {
    s.active.GetOr(false)
  }

  /** The sports handler's filter: the active sports, in input order. */
  function ActiveSports(sports: seq<Sport>): seq<Sport> {
    Selection.Filter(IsActive, sports)
  }

  /**
   * The result is exactly the subsequence of the entries whose flag is true:
   * an entry without the flag or with a false flag is dropped, every other is
   * kept, and the kept ones stay in input order.
   */
  lemma ActiveSportsSelects(sports: seq<Sport>)
    ensures var idx := Selection.Picked(IsActive, sports);
      && |ActiveSports(sports)| == |idx|
      && (forall k :: 0 <= k < |idx| ==> ActiveSports(sports)[k] == sports[idx[k]])
      && (forall k, l :: 0 <= k < l < |idx| ==> idx[k] < idx[l])
      && (forall i :: 0 <= i < |sports| ==> (i in idx <==> sports[i].active == Some(true)))
  {
    Selection.FilterIsPicked(IsActive, sports);
    forall i | 0 <= i < |sports|
      ensures i in Selection.Picked(IsActive, sports) <==> IsActive(sports[i])
    {
      Selection.PickedExactly(IsActive, sports, i);
    }
  }
}
