/**
 * The Make Pick page of the web client: how it renders American odds and the
 * request body it posts to record a pick.
 */
module MakePickPage {
  import opened Wrappers
  import Picks

  /** The character of a decimal digit. */
  function DigitChar(d: nat): char
    requires d < 10
  {
    ('0' as int + d) as char
  }

  /** The value of a decimal digit character. */
  function DigitValue(c: char): nat
    requires '0' <= c <= '9'
  {
    c as int - '0' as int
  }

  /** A non-empty string of decimal digits. */
  predicate IsDigits(s: string) {
    |s| > 0 && forall k :: 0 <= k < |s| ==> '0' <= s[k] <= '9'
  }

  /** The shortest decimal numeral of `n`: digits only, no leading zero unless `n` is 0. */
  function NatToDecimal(n: nat): (s: string)
    ensures IsDigits(s)
    ensures s[0] == '0' <==> n == 0
  {
    if n < 10 then [DigitChar(n)] else NatToDecimal(n / 10) + [DigitChar(n % 10)]
  }

  /** `Number.prototype.toString()` on an integer: a minus sign for negatives, then the digits. */
  function IntToDecimal(i: int): string {
    if i < 0 then "-" + NatToDecimal(-i) else NatToDecimal(i)
  }

  /** `formatOdds`: "N/A" for a missing price, a plus sign in front of a positive one. */
  function FormatOdds(odds: Option<int>): string {
    match odds
    case None => "N/A"
    case Some(n) => if n > 0 then "+" + IntToDecimal(n) else IntToDecimal(n)
  }

  /** The number a string of decimal digits denotes. */
  function DecimalValue(s: string): nat
    requires forall k :: 0 <= k < |s| ==> '0' <= s[k] <= '9'
  {
    if s == [] then 0 else DecimalValue(s[..|s| - 1]) * 10 + DigitValue(s[|s| - 1])
  }

  /** Reads back a rendered price: a signed or unsigned numeral, anything else is no price. */
  function ParseOdds(s: string): Option<int> {
    if |s| > 1 && (s[0] == '+' || s[0] == '-') && IsDigits(s[1..]) then
      Some(if s[0] == '-' then -(DecimalValue(s[1..]) as int) else DecimalValue(s[1..]))
    else if IsDigits(s) then Some(DecimalValue(s))
    else None
  }

  /** The numeral of `n` denotes `n`. */
  lemma {:induction false} DecimalRoundTrip(n: nat)
    ensures DecimalValue(NatToDecimal(n)) == n
  {
    if n >= 10 {
      DecimalRoundTrip(n / 10);
      var s := NatToDecimal(n);
      assert s[..|s| - 1] == NatToDecimal(n / 10);
    }
  }

  /**
   * Nothing is lost in rendering: reading back what `FormatOdds` produced gives
   * the price it was given, and "N/A" exactly for a missing one.
   */
  lemma FormatOddsRoundTrip(odds: Option<int>)
    ensures ParseOdds(FormatOdds(odds)) == odds
  {
    match odds
    case None =>
      assert !IsDigits("N/A") by { assert !('0' <= "N/A"[0] <= '9'); }
    case Some(n) =>
      var m := if n < 0 then -n else n;
      DecimalRoundTrip(m);
      var digits := NatToDecimal(m);
      var s := FormatOdds(odds);
      if n > 0 || n < 0 {
        assert s == [s[0]] + digits && s[1..] == digits;
      } else {
        assert s == digits == "0";
      }
  }

  /**
   * The three shapes of a rendered price: a positive price is "+" and its
   * digits, zero is "0", a negative price is "-" and the digits of its
   * magnitude, with no leading zero; none of them is "N/A", and a leading "+"
   * marks exactly the positive ones.
   */
  lemma FormatOddsShape(n: int)
    ensures var s := FormatOdds(Some(n));
      && s != "N/A"
      && (s[0] == '+' <==> n > 0)
      && (n > 0 ==> IsDigits(s[1..]) && DecimalValue(s[1..]) == n)
      && (n == 0 ==> s == "0")
      && (n < 0 ==> s[0] == '-' && IsDigits(s[1..]) && DecimalValue(s[1..]) == -n)
      && (n != 0 ==> s[1] != '0')
  {
    var m := if n < 0 then -n else n;
    DecimalRoundTrip(m);
    var digits := NatToDecimal(m);
    var s := FormatOdds(Some(n));
    if n != 0 {
      assert s == [s[0]] + digits && s[1..] == digits;
    } else {
      assert s == digits;
    }
  }

  /** `body[key] = value` when the argument was given; `JSON.stringify` drops an undefined one. */
  function WithField(body: map<string, Picks.Json>, key: string, value: Option<Picks.Json>): map<string, Picks.Json> {
    if value.Some? then body[key := value.value] else body
  }

  /**
   * The body `makePick` posts. An argument that is `undefined` is `None`: the
   * market type then defaults to "h2h", the other three keys are left out.
   */
  function PickRequest(gameId: Option<Picks.Json>, selectedTeam: Option<Picks.Json>, odds: Option<Picks.Json>,
                       marketType: Option<Picks.Json>): map<string, Picks.Json>
  {
    var body := map["market_type" := marketType.GetOr(Picks.JStr("h2h"))];
    WithField(WithField(WithField(body, "game_id", gameId), "selected_team", selectedTeam), "odds", odds)
  }

  /**
   * The posted body carries exactly the four pick keys that were given, passes
   * their values through unchanged, and always has a market type, "h2h" unless
   * one was given.
   */
  lemma PickRequestFields(gameId: Option<Picks.Json>, selectedTeam: Option<Picks.Json>, odds: Option<Picks.Json>,
                          marketType: Option<Picks.Json>)
    ensures var body := PickRequest(gameId, selectedTeam, odds, marketType);
      && body.Keys <= {"game_id", "selected_team", "odds", "market_type"}
      && "market_type" in body
      && body["market_type"] == (if marketType.Some? then marketType.value else Picks.JStr("h2h"))
      && ("game_id" in body <==> gameId.Some?) && (gameId.Some? ==> body["game_id"] == gameId.value)
      && ("selected_team" in body <==> selectedTeam.Some?)
      && (selectedTeam.Some? ==> body["selected_team"] == selectedTeam.value)
      && ("odds" in body <==> odds.Some?) && (odds.Some? ==> body["odds"] == odds.value)
  {
  }

  /**
   * The client and the server agree: the body the page posts is refused only
   * when the game, the team or the odds were undefined, and then for the first
   * of those; the market type is never the missing field.
   */
  lemma PickRequestAccepted(gameId: Option<Picks.Json>, selectedTeam: Option<Picks.Json>, odds: Option<Picks.Json>,
                            marketType: Option<Picks.Json>)
    ensures Picks.FirstMissing(Picks.RequiredFields, PickRequest(gameId, selectedTeam, odds, marketType))
         == if gameId.None? then Some("game_id")
            else if selectedTeam.None? then Some("selected_team")
            else if odds.None? then Some("odds")
            else None
  {
    var body := PickRequest(gameId, selectedTeam, odds, marketType);
    PickRequestFields(gameId, selectedTeam, odds, marketType);
    var fields := Picks.RequiredFields;
    var f1, f2, f3 := fields[1..], fields[2..], fields[3..];
    assert f1 == ["selected_team", "odds", "market_type"] && f1[1..] == f2;
    assert f2 == ["odds", "market_type"] && f2[1..] == f3;
    assert f3 == ["market_type"] && f3[1..] == [];
    assert Picks.FirstMissing(f3, body) == None;
    assert Picks.FirstMissing(f2, body) == if odds.None? then Some("odds") else None;
  }
}
