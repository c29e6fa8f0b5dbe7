/**
 * The pick recorder's data: the JSON body a client posts, the fields it must
 * carry, and the pick record the server echoes back without storing it.
 */
module Picks {
  import opened Wrappers

  /** A JSON value as it arrives in a request body (numbers restricted to integers). */
  datatype Json =
    | JNull
    | JBool(b: bool)
    | JNum(n: int)
    | JStr(s: string)
    | JArr(items: seq<Json>)
    | JObj(fields: map<string, Json>)

  /** The fields a pick must carry, in the order they are checked. */
  const RequiredFields: seq<string> := ["game_id", "selected_team", "odds", "market_type"]

  /** The user recorded when the body carries no `user_id`. */
  const DefaultUser: Json := JStr("anonymous")

  /** The status of every freshly recorded pick. */
  const PendingStatus: string := "pending"

  /**
   * The first of `fields` that `body` lacks, or `None` when it has them all:
   * every field before the reported one is present.
   */
  function FirstMissing(fields: seq<string>, body: map<string, Json>): (r: Option<string>)
    ensures r.None? <==> forall i :: 0 <= i < |fields| ==> fields[i] in body
    ensures r.Some? ==>
      exists i :: 0 <= i < |fields| && fields[i] == r.value && r.value !in body &&
        forall j :: 0 <= j < i ==> fields[j] in body
  {
    if fields == [] then None
    else if fields[0] !in body then Some(fields[0])
    else
      var r := FirstMissing(fields[1..], body);
      assert forall i :: 0 <= i < |fields| - 1 ==> fields[1..][i] == fields[i + 1];
      r
  }

  /** A body with only a game id is refused for its missing team, the second field checked. */
  lemma OnlyGameIdMissesTeam()
    ensures FirstMissing(RequiredFields, map["game_id" := JStr("g1")]) == Some("selected_team")
  {
    var body := map["game_id" := JStr("g1")];
    assert RequiredFields[1..] == ["selected_team", "odds", "market_type"];
    assert "selected_team" !in body;
  }

  /** The error text of a body that lacks `field`. */
  function MissingFieldError(field: string): string {
    "Missing required field: " + field
  }

  /**
   * A recorded pick. `id` and `timestamp` come from the clock; the four pick
   * fields and the user are copied from the request body.
   */
  datatype Pick = Pick(
    id: string,
    gameId: Json,
    selectedTeam: Json,
    odds: Json,
    marketType: Json,
    timestamp: string,
    status: string,
    userId: Json)
}
