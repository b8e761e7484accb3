/**
 * The per-player fetch and the settle-all join. The network is abstracted away: the outcome
 * of the request for a player's team resource is a `Response` value, and the parsed body is
 * typed as far as the report reads it (`team.nextEvent[0]` and the fixture's fields).
 */
module Fetch {
  import opened Wrappers
  import opened Roster

  /** One element of `team.nextEvent`: the fields the report reads. */
  datatype Event = Event(date: string, name: string, shortName: string, seasonDisplayName: string)

  /** The `team` object; `nextEvent` is `None` when the member is missing (or falsy). */
  datatype Team = Team(nextEvent: Option<seq<Event>>)

  /**
   * A parsed JSON body: a falsy value (`null`, `false`, `0`, `""`), or a truthy value whose
   * `team` member is an object or is absent (`None`).
   */
  datatype Body = Falsy | Payload(team: Option<Team>)

  /**
   * What `fetch` does for one request: it rejects at the transport level (connection refused,
   * DNS failure, ...), or yields a response with a status code; `body` is `None` when
   * `response.json()` rejects because the text is not JSON.
   */
  datatype Response = TransportFailure(message: string) | Http(status: int, body: Option<Body>) {
    /** `response.ok`: the status is in the range 200 to 299. */
    predicate Ok()
    {
      Http? && 200 <= status <= 299
    }
  }

  /**
   * `fetchPlayerNextMatch`: every failure (transport, non-ok status, malformed JSON) is caught
   * and turned into `null` (`None`); otherwise the parsed body is returned as it is. Being a
   * total function, it never raises.
   */
  function FetchPlayerNextMatch(response: Response): (teamData: Option<Body>)
    ensures teamData.None? <==>
              response.TransportFailure? || !response.Ok() || response.body.None?
    ensures teamData.Some? ==> response.Ok() && teamData == response.body
  {
    match response
    case TransportFailure(_) => None
    case Http(status, body) => if 200 <= status <= 299 then body else None
  }

  /** The value `{ player, teamData }` that the per-player mapper resolves with. */
  datatype Pairing = Pairing(player: Player, teamData: Option<Body>)

  /** The per-player mapper `async (player) => ({ player, teamData: await fetchPlayerNextMatch(...) })`. */
  function Mapper(player: Player, response: Response): (outcome: Settled<Pairing>)
    ensures outcome.Fulfilled?
    ensures outcome.value.player == player
  {
    Fulfilled(Pairing(player, FetchPlayerNextMatch(response)))
  }

  /**
   * `Promise.allSettled(selectedPlayers.map(mapper))`: one settled result per selected player,
   * in selection order whatever the completion order. `responses[i]` is the outcome of the
   * request issued for `players[i]`.
   */
  function AllSettled(players: seq<Player>, responses: seq<Response>): (results: seq<Settled<Pairing>>)
    requires |responses| == |players|
    ensures |results| == |players|
    ensures forall i :: 0 <= i < |results| ==> results[i] == Mapper(players[i], responses[i])
  {
    seq(|players|, i requires 0 <= i < |players| => Mapper(players[i], responses[i]))
  }

  /** Because the fetcher catches everything, no result of the join is ever rejected. */
  lemma NoResultRejected(players: seq<Player>, responses: seq<Response>)
    requires |responses| == |players|
    ensures forall i :: 0 <= i < |players| ==>
              && AllSettled(players, responses)[i].Fulfilled?
              && AllSettled(players, responses)[i].value.player == players[i]
              && AllSettled(players, responses)[i].value.teamData == FetchPlayerNextMatch(responses[i])
  {
  }

  /** `result.status === 'fulfilled' && result.value.teamData`: the payload is present and truthy. */
  predicate HasData(result: Settled<Pairing>)
  {
    result.Fulfilled? && result.value.teamData.Some? && result.value.teamData.value.Payload?
  }

  /** `body.team.nextEvent[0]`, or `None` where that unguarded read does not yield an event. */
  function NextFixture(body: Body): (fixture: Option<Event>)
    ensures fixture.Some? <==>
              && body.Payload? && body.team.Some? && body.team.value.nextEvent.Some?
              && |body.team.value.nextEvent.value| > 0
    ensures fixture.Some? ==> fixture.value == body.team.value.nextEvent.value[0]
  {
    match body
    case Payload(Some(Team(Some(events)))) => if |events| > 0 then Some(events[0]) else None
    case _ => None
  }

  /**
   * The report loop throws a TypeError on this result: the payload is truthy but has no
   * `team`, no `nextEvent`, or an empty `nextEvent` (reading `.date` of `undefined`).
   */
  predicate Throws(result: Settled<Pairing>)
  {
    HasData(result) && NextFixture(result.value.teamData.value).None?
  }

  /** The reason the click handler's promise rejects with when the loop throws; one message stands for every failing read. */
  const TYPE_ERROR := "TypeError: Cannot read properties of undefined"
}
