/**
 * src/App.jsx: the page keeps the mask `checkedState` and the rendered entries `logs`. A click
 * selects the ticked players, fetches each one's next fixture, and replaces `logs` with one
 * entry per selected player, in selection order: a fixture block for a truthy payload, an
 * error entry otherwise. A truthy payload without `team.nextEvent[0]` makes the loop throw,
 * and then `logs` is left as it was.
 */
module App {
  import opened Wrappers
  import opened Roster
  import opened Fixture
  import opened Fetch

  /**
   * One rendered `<div>`: a fixture block keyed by the player id whose lines are separated by
   * `<br />`, or an error entry (class "error") whose key is `undefined` only for a rejected result.
   */
  datatype LogEntry =
    | FixtureBlock(key: int, lines: seq<string>)
    | ErrorBlock(errorKey: Option<int>, text: string)

  /** The category label shown under the name. */
  function SexLabel(sex: int): string
  {
    if sex == 1 then "Masculin" else "Féminines"
  }

  /** The text of the error entry; JSX renders an `undefined` name as nothing. */
  function ErrorText(name: string): string
  {
    "ERREUR - données non accessibles pour : " + name
  }

  /** A fixture block: name, category, date, `home : away`, short name, season, in that order. */
  function FixtureEntry(player: Player, fixture: Event, formatDate: string -> string): LogEntry
  {
    FixtureBlock(player.id, [
      player.name,
      SexLabel(player.sex),
      formatDate(fixture.date),
      Home(fixture.name) + " : " + Away(fixture.name).GetOr(""),
      fixture.shortName,
      fixture.seasonDisplayName])
  }

  /** The error entry for a result; `result.value?.player` is `undefined` for a rejected one. */
  function ErrorEntry(result: Settled<Pairing>): LogEntry
  {
    if result.Fulfilled? then ErrorBlock(Some(result.value.player.id), ErrorText(result.value.player.name))
    else ErrorBlock(None, ErrorText(""))
  }

  /** The entry the `forEach` callback pushes for a result it does not throw on. */
  function EntryFor(result: Settled<Pairing>, formatDate: string -> string): LogEntry
    requires !Throws(result)
  {
    if HasData(result) then FixtureEntry(result.value.player, NextFixture(result.value.teamData.value).value, formatDate)
    else ErrorEntry(result)
  }

  /** What the `forEach` over the settled results produces: all entries, or the TypeError it throws. */
  function Report(results: seq<Settled<Pairing>>, formatDate: string -> string): Settled<seq<LogEntry>>
  {
    if exists i :: 0 <= i < |results| && Throws(results[i]) then Rejected(TYPE_ERROR)
    else Fulfilled(seq(|results|, i requires 0 <= i < |results| => EntryFor(results[i], formatDate)))
  }

  /** The outcome of one click for the selected players and their requests' outcomes. */
  function GenerateReport(selected: seq<Player>, responses: seq<Response>, formatDate: string -> string): Settled<seq<LogEntry>>
    requires |responses| == |selected|
  {
    Report(AllSettled(selected, responses), formatDate)
  }

  /** The key an entry is rendered with. */
  function KeyOf(entry: LogEntry): Option<int>
  {
    match entry
    case FixtureBlock(key, _) => Some(key)
    case ErrorBlock(key, _) => key
  }

  /** The `forEach` loop of `handleButtonClick`, pushing into `logMessages`. */
  method BuildLogs(results: seq<Settled<Pairing>>, formatDate: string -> string)
    returns (outcome: Settled<seq<LogEntry>>)
    ensures outcome == Report(results, formatDate)
  {
    var logMessages: seq<LogEntry> := [];
    var i := 0;
    while i < |results|
      invariant 0 <= i <= |results|
      invariant |logMessages| == i
      invariant forall k :: 0 <= k < i ==> !Throws(results[k]) && logMessages[k] == EntryFor(results[k], formatDate)
    {
      var result := results[i];
      if result.Fulfilled? && result.value.teamData.Some? && result.value.teamData.value.Payload? {
        var fixture := NextFixture(result.value.teamData.value);
        if fixture.None? {
          return Rejected(TYPE_ERROR);
        }
        logMessages := logMessages + [FixtureEntry(result.value.player, fixture.value, formatDate)];
      } else {
        logMessages := logMessages + [ErrorEntry(result)];
      }
      i := i + 1;
    }
    assert logMessages == seq(|results|, k requires 0 <= k < |results| => EntryFor(results[k], formatDate));
    return Fulfilled(logMessages);
  }

  /** The page state: the roster, `checkedState` and `logs`. */
  class Page {
    const roster: seq<Player>
    var checkedState: seq<bool>
    var logs: seq<LogEntry>

    /** One mask bit per roster entry, so that box `i` is the box of `roster[i]`. */
    ghost predicate Valid()
      reads this
    {
      |checkedState| == |roster|
    }

    /** The output section is rendered when `logs.length > 0`. */
    predicate OutputShown()
      reads this
    {
      |logs| > 0
    }

    /** Every player starts ticked; there are no logs yet. */
    constructor (roster: seq<Player>)
      ensures Valid() && this.roster == roster
      ensures checkedState == InitialMask(|roster|) && logs == []
    {
      this.roster := roster;
      checkedState := InitialMask(|roster|);
      logs := [];
    }

    /**
     * `handleCheckboxChange(index)`: flips bit `index`, nothing else. For a roster index the next
     * click's selection loses or gains exactly `roster[index]`.
     */
    method HandleCheckboxChange(index: int)
      requires Valid()
      modifies this
      ensures Valid()
      ensures checkedState == Toggle(old(checkedState), index) && logs == old(logs)
      ensures 0 <= index < |roster| ==> ToggledContents(roster, old(checkedState), index)
    {
      if 0 <= index < |roster| {
        ToggleSelectContents(roster, checkedState, index);
      }
      checkedState := Toggle(checkedState, index);
    }

    /**
     * `handleButtonClick`: `responses[i]` is the outcome of the request for the i-th selected
     * player. On a fulfilled click `logs` holds the report; on a rejected one it is unchanged.
     */
    method HandleButtonClick(responses: seq<Response>, formatDate: string -> string) returns (fulfilled: bool)
      requires Valid()
      requires |responses| == |Select(roster, checkedState)|
      modifies this
      ensures Valid() && checkedState == old(checkedState)
      ensures var outcome := GenerateReport(Select(roster, checkedState), responses, formatDate);
              && fulfilled == outcome.Fulfilled?
              && logs == if outcome.Fulfilled? then outcome.value else old(logs)
      ensures fulfilled ==> (OutputShown() <==> Select(roster, checkedState) != [])
    {
      var selectedPlayers := Select(roster, checkedState);
      var results := AllSettled(selectedPlayers, responses);
      var outcome := BuildLogs(results, formatDate);
      OneEntryPerPlayer(selectedPlayers, responses, formatDate);
      fulfilled := outcome.Fulfilled?;
      if fulfilled {
        logs := outcome.value;
      }
    }
  }

  /** One entry per selected player, keyed by that player's id, in selection order; none for an empty selection. */
  lemma OneEntryPerPlayer(selected: seq<Player>, responses: seq<Response>, formatDate: string -> string)
    requires |responses| == |selected|
    ensures var outcome := GenerateReport(selected, responses, formatDate);
            outcome.Fulfilled? ==>
              && |outcome.value| == |selected|
              && forall i :: 0 <= i < |selected| ==> KeyOf(outcome.value[i]) == Some(selected[i].id)
    ensures selected == [] ==> GenerateReport(selected, responses, formatDate) == Fulfilled([])
  {
  }

  /**
   * Entry i is an error entry, naming player i, exactly when the fetcher returned a falsy value
   * (`null` on every failure) for player i.
   */
  lemma ErrorEntryIffNoData(selected: seq<Player>, responses: seq<Response>, formatDate: string -> string, i: nat)
    requires |responses| == |selected| && i < |selected|
    requires GenerateReport(selected, responses, formatDate).Fulfilled?
    ensures var entry := GenerateReport(selected, responses, formatDate).value[i];
            var teamData := FetchPlayerNextMatch(responses[i]);
            && (entry.ErrorBlock? <==> teamData.None? || teamData.value.Falsy?)
            && (entry.ErrorBlock? ==> entry == ErrorBlock(Some(selected[i].id), ErrorText(selected[i].name)))
  {
  }

  /**
   * A fixture entry shows the player's name, category label, date, the `home : away` halves of
   * the fixture name (nothing after the colon when "at" does not occur), short name and season.
   */
  lemma FixtureEntryLayout(selected: seq<Player>, responses: seq<Response>, formatDate: string -> string, i: nat)
    requires |responses| == |selected| && i < |selected|
    requires GenerateReport(selected, responses, formatDate).Fulfilled?
    requires GenerateReport(selected, responses, formatDate).value[i].FixtureBlock?
    ensures var teamData := FetchPlayerNextMatch(responses[i]);
            && teamData.Some? && NextFixture(teamData.value).Some?
            && var f := NextFixture(teamData.value).value;
               var p := selected[i];
               GenerateReport(selected, responses, formatDate).value[i].lines == [
                 p.name,
                 if p.sex == 1 then "Masculin" else "Féminines",
                 formatDate(f.date),
                 Home(f.name) + " : " + (if HasSeparator(f.name) then Away(f.name).value else ""),
                 f.shortName,
                 f.seasonDisplayName]
  {
    var f := NextFixture(FetchPlayerNextMatch(responses[i]).value).value;
    HomeAway(f.name);
  }

  /**
   * The click rejects, leaving `logs` as it was, exactly when some selected player's request
   * yields a truthy payload without `team.nextEvent[0]`.
   */
  lemma RejectsIffMissingNextEvent(selected: seq<Player>, responses: seq<Response>, formatDate: string -> string)
    requires |responses| == |selected|
    ensures GenerateReport(selected, responses, formatDate).Rejected? <==>
              exists i :: 0 <= i < |selected| && FetchPlayerNextMatch(responses[i]).Some?
                            && FetchPlayerNextMatch(responses[i]).value.Payload?
                            && NextFixture(FetchPlayerNextMatch(responses[i]).value).None?
  {
    var results := AllSettled(selected, responses);
    if GenerateReport(selected, responses, formatDate).Rejected? {
      var i :| 0 <= i < |results| && Throws(results[i]);
      assert FetchPlayerNextMatch(responses[i]).Some?;
    }
  }

  /** A player's entry depends on that player's own request only. */
  lemma Isolation(selected: seq<Player>, responses: seq<Response>, other: seq<Response>, formatDate: string -> string, i: nat)
    requires |responses| == |other| == |selected| && i < |selected|
    requires responses[i] == other[i]
    requires GenerateReport(selected, responses, formatDate).Fulfilled?
    requires GenerateReport(selected, other, formatDate).Fulfilled?
    ensures GenerateReport(selected, responses, formatDate).value[i] == GenerateReport(selected, other, formatDate).value[i]
  {
  }

  /** Two results that do not throw give their two entries. */
  lemma ReportOfTwo(first: Settled<Pairing>, second: Settled<Pairing>, formatDate: string -> string)
    requires !Throws(first) && !Throws(second)
    ensures Report([first, second], formatDate) == Fulfilled([EntryFor(first, formatDate), EntryFor(second, formatDate)])
  {
    var results := [first, second];
    assert !exists i :: 0 <= i < |results| && Throws(results[i]);
    var entries := seq(|results|, i requires 0 <= i < |results| => EntryFor(results[i], formatDate));
    assert entries[0] == EntryFor(first, formatDate) && entries[1] == EntryFor(second, formatDate);
    assert entries == [EntryFor(first, formatDate), EntryFor(second, formatDate)];
  }

  /** Two ticked players; the first gets a fixture, the second a 404: a fixture entry, then an error entry. */
  lemma FixtureThenNotFound(p1: Player, p2: Player, fixture: Event, formatDate: string -> string)
    ensures var page := [p1, p2];
            var responses := [Http(200, Some(Payload(Some(Team(Some([fixture])))))), Http(404, None)];
            && Select(page, InitialMask(2)) == page
            && GenerateReport(page, responses, formatDate)
               == Fulfilled([FixtureEntry(p1, fixture, formatDate), ErrorBlock(Some(p2.id), ErrorText(p2.name))])
  {
    var page := [p1, p2];
    var responses := [Http(200, Some(Payload(Some(Team(Some([fixture])))))), Http(404, None)];
    assert Select(page, InitialMask(2)) == page by {
      InitialSelectsAll(page);
    }
    assert GenerateReport(page, responses, formatDate)
           == Fulfilled([FixtureEntry(p1, fixture, formatDate), ErrorBlock(Some(p2.id), ErrorText(p2.name))]) by {
      var first := Fulfilled(Pairing(p1, Some(Payload(Some(Team(Some([fixture])))))));
      var second := Fulfilled(Pairing(p2, None));
      assert AllSettled(page, responses) == [first, second];
      ReportOfTwo(first, second, formatDate);
    }
  }

  /** A payload whose `team.nextEvent` is empty makes the click reject instead of yielding an error entry. */
  lemma EmptyNextEventRejects(p: Player, formatDate: string -> string)
    ensures GenerateReport([p], [Http(200, Some(Payload(Some(Team(Some([]))))))], formatDate).Rejected?
  {
    assert Throws(AllSettled([p], [Http(200, Some(Payload(Some(Team(Some([]))))))])[0]);
  }
}
