/**
 * src/CODE.jsx: the same page with the report built as one string. A click appends, for each
 * selected player in selection order, a text block ending in "\n\n" or an error span, and
 * replaces `logs` with the result. The file also holds `logNextMatchDetails`, a guarded
 * console logger that the click handler never calls; the click handler reads
 * `team.nextEvent[0]` unguarded.
 */
module Code {
  import opened Wrappers
  import opened Roster
  import opened Fixture
  import opened Fetch

  /** What `console.log` or `console.error` receives. */
  datatype ConsoleLine = ConsoleLog(text: string) | ConsoleError(text: string)

  /** `home : away`; a template literal renders a missing away half as "undefined". */
  function MatchLine(fixtureName: string): string
  {
    Home(fixtureName) + " : " + Away(fixtureName).GetOr("undefined")
  }

  /** Name, date, `home : away`, short name and season, separated by newlines. */
  function FixtureText(playerName: string, fixture: Event, formatDate: string -> string): string
  {
    playerName + "\n" + formatDate(fixture.date) + "\n" + MatchLine(fixture.name) + "\n"
    + fixture.shortName + "\n" + fixture.seasonDisplayName
  }

  /** `logNextMatchDetails(playerName, team)`, with `team` absent when falsy. */
  function LogNextMatchDetails(playerName: string, team: Option<Team>, formatDate: string -> string): ConsoleLine
  {
    if team.None? || team.value.nextEvent.None? || |team.value.nextEvent.value| == 0 then
      ConsoleError("No next event data found for player: " + playerName)
    else
      ConsoleLog(FixtureText(playerName, team.value.nextEvent.value[0], formatDate))
  }

  /** The error block appended for a player without data. */
  function ErrorSpan(name: string): string
  {
    "<span class=\"error\">ERREUR - données non open source: " + name + "</span>\n\n"
  }

  /** The block appended for a result the loop does not throw on; an `undefined` name renders as "undefined". */
  function BlockFor(result: Settled<Pairing>, formatDate: string -> string): string
    requires !Throws(result)
  {
    if HasData(result) then
      FixtureText(result.value.player.name, NextFixture(result.value.teamData.value).value, formatDate) + "\n\n"
    else if result.Fulfilled? then ErrorSpan(result.value.player.name)
    else ErrorSpan("undefined")
  }

  /** No result makes the loop throw. */
  predicate NoneThrows(results: seq<Settled<Pairing>>)
  {
    forall i :: 0 <= i < |results| ==> !Throws(results[i])
  }

  /** The blocks of all results, in order. */
  function Blocks(results: seq<Settled<Pairing>>, formatDate: string -> string): seq<string>
    requires NoneThrows(results)
  {
    seq(|results|, i requires 0 <= i < |results| => BlockFor(results[i], formatDate))
  }

  /** The blocks appended one after another, as `logMessages +=` does. */
  function Concat(blocks: seq<string>): string
  {
    if blocks == [] then "" else Concat(blocks[..|blocks| - 1]) + blocks[|blocks| - 1]
  }

  /** What the `forEach` loop leaves in `logMessages`, or the TypeError it throws. */
  function Report(results: seq<Settled<Pairing>>, formatDate: string -> string): Settled<string>
  {
    if NoneThrows(results) then Fulfilled(Concat(Blocks(results, formatDate))) else Rejected(TYPE_ERROR)
  }

  /** The outcome of one click for the selected players and their requests' outcomes. */
  function GenerateReport(selected: seq<Player>, responses: seq<Response>, formatDate: string -> string): Settled<string>
    requires |responses| == |selected|
  {
    Report(AllSettled(selected, responses), formatDate)
  }

  /**
   * The body of the `forEach` callback for one result: the text it appends to `logMessages`,
   * or `None` where it throws.
   */
  method AppendedBlock(result: Settled<Pairing>, formatDate: string -> string) returns (block: Option<string>)
    ensures block.None? <==> Throws(result)
    ensures block.Some? ==> block.value == BlockFor(result, formatDate)
  {
    if HasData(result) {
      var fixture := NextFixture(result.value.teamData.value);
      if fixture.None? {
        return None;
      }
      block := Some(FixtureText(result.value.player.name, fixture.value, formatDate) + "\n\n");
    } else {
      block := Some(ErrorSpan(if result.Fulfilled? then result.value.player.name else "undefined"));
    }
  }

  /** The `forEach` loop of `handleButtonClick`, accumulating `logMessages` with `+=`. */
  method BuildLogs(results: seq<Settled<Pairing>>, formatDate: string -> string) returns (outcome: Settled<string>)
    ensures outcome == Report(results, formatDate)
  {
    var logMessages := "";
    var i := 0;
    while i < |results|
      invariant 0 <= i <= |results|
      invariant NoneThrows(results[..i])
      invariant logMessages == Concat(Blocks(results[..i], formatDate))
    {
      var block := AppendedBlock(results[i], formatDate);
      if block.None? {
        return Rejected(TYPE_ERROR);
      }
      BlocksStep(results, i, formatDate);
      logMessages := logMessages + block.value;
      i := i + 1;
    }
    assert results[..i] == results;
    return Fulfilled(logMessages);
  }

  /** One more result that does not throw appends its block. */
  lemma BlocksStep(results: seq<Settled<Pairing>>, i: nat, formatDate: string -> string)
    requires i < |results| && NoneThrows(results[..i]) && !Throws(results[i])
    ensures NoneThrows(results[..i + 1])
    ensures Concat(Blocks(results[..i + 1], formatDate))
            == Concat(Blocks(results[..i], formatDate)) + BlockFor(results[i], formatDate)
  {
    var longer := results[..i + 1];
    assert longer[..i] == results[..i];
    assert Blocks(longer, formatDate)[..i] == Blocks(results[..i], formatDate);
  }

  /** The page state: the roster, `checkedState` and the `logs` string. */
  class Page {
    const roster: seq<Player>
    var checkedState: seq<bool>
    var logs: string

    /** One mask bit per roster entry, so that box `i` is the box of `roster[i]`. */
    ghost predicate Valid()
      reads this
    {
      |checkedState| == |roster|
    }

    /** The output section is rendered when `logs` is truthy, i.e. not the empty string. */
    predicate OutputShown()
      reads this
    {
      logs != ""
    }

    /** Every player starts ticked; `logs` starts as ''. */
    constructor (roster: seq<Player>)
      ensures Valid() && this.roster == roster
      ensures checkedState == InitialMask(|roster|) && logs == ""
    {
      this.roster := roster;
      checkedState := InitialMask(|roster|);
      logs := "";
    }

    /**
     * `handleCheckboxChange(index)`: flips bit `index`, nothing else. For a roster index the next
     * click's selection loses or gains exactly `roster[index]`.
     */
    method HandleCheckboxChange(index: int)
      requires Valid()
      modifies this
      ensures Valid()
      ensures checkedState == Toggle(old(checkedState), index) && logs == old(logs)
      ensures 0 <= index < |roster| ==> ToggledContents(roster, old(checkedState), index)
    {
      if 0 <= index < |roster| {
        ToggleSelectContents(roster, checkedState, index);
      }
      checkedState := Toggle(checkedState, index);
    }

    /**
     * `handleButtonClick`: `responses[i]` is the outcome of the request for the i-th selected
     * player. On a fulfilled click `logs` holds the report; on a rejected one it is unchanged.
     */
    method HandleButtonClick(responses: seq<Response>, formatDate: string -> string) returns (fulfilled: bool)
      requires Valid()
      requires |responses| == |Select(roster, checkedState)|
      modifies this
      ensures Valid() && checkedState == old(checkedState)
      ensures var outcome := GenerateReport(Select(roster, checkedState), responses, formatDate);
              && fulfilled == outcome.Fulfilled?
              && logs == if outcome.Fulfilled? then outcome.value else old(logs)
      ensures fulfilled ==> (OutputShown() <==> Select(roster, checkedState) != [])
    {
      var selectedPlayers := Select(roster, checkedState);
      var results := AllSettled(selectedPlayers, responses);
      var outcome := BuildLogs(results, formatDate);
      ReportIsBlocksInOrder(selectedPlayers, responses, formatDate);
      fulfilled := outcome.Fulfilled?;
      if fulfilled {
        logs := outcome.value;
      }
    }
  }

  /** `s` ends in a blank line. */
  predicate EndsWithBlankLine(s: string)
  {
    |s| >= 2 && s[|s| - 2..] == "\n\n"
  }

  /** Appending two runs of blocks appends their texts. */
  lemma {:induction false} ConcatAppend(a: seq<string>, b: seq<string>)
    ensures Concat(a + b) == Concat(a) + Concat(b)
    decreases |b|
  {
    if b == [] {
      assert a + b == a;
    } else {
      var n, ab := |b| - 1, a + b;
      assert ab[..|ab| - 1] == a + b[..n];
      assert ab[|ab| - 1] == b[n];
      ConcatAppend(a, b[..n]);
      calc {
        Concat(ab);
        Concat(a + b[..n]) + b[n];
        Concat(a) + Concat(b[..n]) + b[n];
        Concat(a) + Concat(b);
      }
    }
  }

  /** Block k sits in the text between the blocks before it and the blocks after it. */
  lemma ConcatAround(blocks: seq<string>, k: nat)
    requires k < |blocks|
    ensures Concat(blocks) == Concat(blocks[..k]) + blocks[k] + Concat(blocks[k + 1..])
  {
    var before, block, after := blocks[..k], blocks[k], blocks[k + 1..];
    CutAt(blocks, k);
    ConcatAppend(before + [block], after);
    ConcatAppend(before, [block]);
    ConcatSingle(block);
  }

  /** A sequence is its part before index `k`, its element at `k` and its part after `k`. */
  lemma CutAt(blocks: seq<string>, k: nat)
    requires k < |blocks|
    ensures blocks == (blocks[..k] + [blocks[k]]) + blocks[k + 1..]
  {
  }

  /** One block alone is its own text. */
  lemma ConcatSingle(block: string)
    ensures Concat([block]) == block
  {
    assert [block][..0] == [];
  }

  /** Every block ends in "\n\n". */
  lemma BlocksEndWithBlankLine(results: seq<Settled<Pairing>>, formatDate: string -> string)
    requires NoneThrows(results)
    ensures forall k :: 0 <= k < |results| ==> EndsWithBlankLine(Blocks(results, formatDate)[k])
  {
    forall k | 0 <= k < |results|
      ensures EndsWithBlankLine(Blocks(results, formatDate)[k])
    {
      BlockEndsWithBlankLine(results[k], formatDate);
    }
  }

  /** The block of one result ends in "\n\n". */
  lemma BlockEndsWithBlankLine(result: Settled<Pairing>, formatDate: string -> string)
    requires !Throws(result)
    ensures EndsWithBlankLine(BlockFor(result, formatDate))
  {
    var block := BlockFor(result, formatDate);
    if HasData(result) {
      BlankLineAfter(FixtureText(result.value.player.name, NextFixture(result.value.teamData.value).value, formatDate));
    } else {
      var name := if result.Fulfilled? then result.value.player.name else "undefined";
      assert block == "<span class=\"error\">ERREUR - données non open source: " + name + "</span>" + "\n\n";
      BlankLineAfter("<span class=\"error\">ERREUR - données non open source: " + name + "</span>");
    }
  }

  /** Any text followed by "\n\n" ends in a blank line. */
  lemma BlankLineAfter(text: string)
    ensures EndsWithBlankLine(text + "\n\n")
  {
    var s := text + "\n\n";
    assert s[|s| - 2..] == "\n\n";
  }

  /** Blocks that end in "\n\n" give a text that is empty exactly when there are none, and ends in "\n\n" otherwise. */
  lemma ConcatOfBlankLineBlocks(blocks: seq<string>)
    requires forall k :: 0 <= k < |blocks| ==> EndsWithBlankLine(blocks[k])
    ensures Concat(blocks) == "" <==> blocks == []
    ensures blocks != [] ==> EndsWithBlankLine(Concat(blocks))
  {
    if blocks != [] {
      var last := blocks[|blocks| - 1];
      var text := Concat(blocks);
      assert text == Concat(blocks[..|blocks| - 1]) + last;
      assert text[|text| - 2..] == last[|last| - 2..];
    }
  }

  /**
   * The report of a fulfilled click is the concatenation, in selection order, of one block per
   * selected player; it is empty, and the output hidden, exactly when nobody is selected.
   */
  lemma ReportIsBlocksInOrder(selected: seq<Player>, responses: seq<Response>, formatDate: string -> string)
    requires |responses| == |selected|
    ensures var results := AllSettled(selected, responses);
            var outcome := GenerateReport(selected, responses, formatDate);
            outcome.Fulfilled? ==>
              && NoneThrows(results)
              && |Blocks(results, formatDate)| == |selected|
              && outcome.value == Concat(Blocks(results, formatDate))
              && (outcome.value == "" <==> selected == [])
              && (selected != [] ==> EndsWithBlankLine(outcome.value))
    ensures selected == [] ==> GenerateReport(selected, responses, formatDate) == Fulfilled("")
  {
    var results := AllSettled(selected, responses);
    if NoneThrows(results) {
      BlocksEndWithBlankLine(results, formatDate);
      ConcatOfBlankLineBlocks(Blocks(results, formatDate));
    }
  }

  /**
   * Block i of a fulfilled report is exactly the error span naming player i when the fetcher
   * returned a falsy value for it, and the fixture text followed by "\n\n" otherwise.
   */
  lemma BlockOfPlayer(selected: seq<Player>, responses: seq<Response>, formatDate: string -> string, i: nat)
    requires |responses| == |selected| && i < |selected|
    requires GenerateReport(selected, responses, formatDate).Fulfilled?
    ensures var results := AllSettled(selected, responses);
            var teamData := FetchPlayerNextMatch(responses[i]);
            && NoneThrows(results)
            && Blocks(results, formatDate)[i] ==
               if teamData.None? || teamData.value.Falsy? then
                 "<span class=\"error\">ERREUR - données non open source: " + selected[i].name + "</span>\n\n"
               else
                 FixtureText(selected[i].name, NextFixture(teamData.value).value, formatDate) + "\n\n"
  {
  }

  /** Without "at" in the fixture name, the match line reads "<name> : undefined". */
  lemma MatchLineWithoutSeparator(fixtureName: string)
    requires !HasSeparator(fixtureName)
    ensures MatchLine(fixtureName) == fixtureName + " : undefined"
  {
    HomeAway(fixtureName);
  }

  /**
   * `logNextMatchDetails` logs nothing but an error when `team` is falsy, `nextEvent` is
   * missing or `nextEvent[0]` is absent; otherwise it logs the fixture text.
   */
  lemma LoggerGuard(playerName: string, team: Option<Team>, formatDate: string -> string)
    ensures var line := LogNextMatchDetails(playerName, team, formatDate);
            && (line.ConsoleError? <==> NextFixture(Payload(team)).None?)
            && (line.ConsoleError? ==> line.text == "No next event data found for player: " + playerName)
            && (line.ConsoleLog? ==>
                  line.text == FixtureText(playerName, NextFixture(Payload(team)).value, formatDate))
  {
  }

  /**
   * The guard of `logNextMatchDetails` fires exactly where the click handler's unguarded read
   * throws; where it does not fire, the click handler's block is the logged text plus "\n\n".
   */
  lemma ClickHandlerSkipsTheGuard(result: Settled<Pairing>, formatDate: string -> string)
    requires HasData(result)
    ensures var line := LogNextMatchDetails(result.value.player.name, result.value.teamData.value.team, formatDate);
            && (Throws(result) <==> line.ConsoleError?)
            && (!Throws(result) ==> BlockFor(result, formatDate) == line.text + "\n\n")
  {
  }
}
