# nextEventChecker core, modelled in Dafny

nextEventChecker is a small page with a roster of football players and one checkbox per player. Every box starts ticked. A button fetches each ticked player's next fixture from the ESPN site API and shows one report entry per ticked player. `src/App.jsx` renders the report as JSX entries. `src/CODE.jsx` builds it as one HTML string, and also contains a guarded console logger, `logNextMatchDetails`, that nothing calls.

This model keeps the sequential core of both files:

- **Selection mask** (`Roster`). `checkedState` is a `seq<bool>`, and `handleCheckboxChange` flips one index. The selection is the order-preserving filter of the roster by the mask.
- **Fetch-outcome normalisation** (`Fetch`). A request's outcome is a `Response` value: a transport failure, or a status code with a body that may fail to parse. `FetchPlayerNextMatch` maps every failure to `null` (`None`). The settle-all join is a sequential map that keeps each player paired with its own result.
- **Report assembly** (`App`, `Code`). Each file has a spec function `Report` and a loop method `BuildLogs` proved equal to it. Each file also has a class `Page` whose fields are `checkedState` and `logs`. Its methods just update those fields.
- **Field formatting** (`Fixture`, `App`, `Code`). `split('at')` is modelled as JavaScript's string split. The model also covers the sex label, the fixed line layout, and the error texts.
- **Comparison** (`Agreement`). The only module that imports both `App` and `Code`: the two click handlers reject on the same inputs and give the same number of entries.

The model keeps these behaviours of the code as written:

- A truthy payload with no `team`, no `nextEvent`, or an empty `nextEvent` does not give an error entry. The unguarded `teamData.team.nextEvent[0]` (src/App.jsx:55, src/CODE.jsx:78) throws a TypeError. The click handler's promise then rejects and `logs` keeps its previous value (`App.RejectsIffMissingNextEvent`, `App.EmptyNextEventRejects`). Only `logNextMatchDetails` has the guard (`Code.ClickHandlerSkipsTheGuard`).
- The away half is the text between the first `"at"` and the second one, not everything after the first. A team name containing `"at"` is cut (`Fixture.WatfordIsCut`).
- A missing away half shows as nothing in App.jsx, because JSX drops `undefined`. In CODE.jsx it shows as `undefined`, because of the template literal (`Code.MatchLineWithoutSeparator`).
- The category labels are hard-coded French strings.
- A parsed body that is itself falsy (for example the JSON text `null`) gives an error entry, just like a failed fetch.

Every function is deterministic, so the same selection and the same responses always give the same report.

Outside inputs are parameters:
- the outcome of each HTTP request: `responses[i]` is the outcome for the i-th selected player;
- the locale-dependent date formatting (`new Date(d).toLocaleString()`), a function `formatDate`;
- the roster, an arbitrary `seq<Player>`.

## Model

| member | source | states |
|---|---|---|
| `Roster.InitialMask` | src/App.jsx:25 | the initial mask has one entry per roster player and every entry is `true` |
| `Roster.Toggle` | src/App.jsx:32-36 | toggling index i keeps the length, flips entry i, and leaves every other entry as it was (an out-of-range index changes nothing) |
| `Roster.ToggleTwice` | src/App.jsx:32-36 | toggling the same index twice restores the mask |
| `Roster.ToggleSelectContents` | src/CODE.jsx:55-60 | unticking box i removes exactly `roster[i]` from the selection and keeps every other selected player; ticking it adds exactly `roster[i]` (as multisets) |
| `Roster.ToggleSelectCount` | src/App.jsx:32-36 | toggling a box changes the selection's size by exactly one: down for a ticked box, up for an unticked one |
| `Roster.Select` | src/App.jsx:43 | `playersData.filter((_, index) => checkedState[index])`; its contents and order are given by `SelectByIndices` against `SelectedIndices`, and the effect of a toggle by `ToggleSelectContents` |
| `Roster.Bit` | src/App.jsx:43 | `checkedState[index]` as a filter condition, falsy past the end of the mask; `SelectAgree` states that only bits below the roster length matter |
| `Roster.SelectedIndices` | src/App.jsx:43 | the indices of the set bits, strictly increasing, each of them set, and every set index below the roster length among them |
| `Roster.SelectByIndices` | src/CODE.jsx:66 | the selection is exactly the roster read at the increasing set-bit indices: the filter keeps roster order and drops nothing that is ticked |
| `Roster.SelectAgree` | src/App.jsx:43 | only the mask bits below the roster length matter to the selection |
| `Roster.InitialSelectsAll` | src/CODE.jsx:48 | with the initial mask every roster player is selected, in roster order |
| `Fixture.Split` | src/App.jsx:62 | `split('at')` yields at least one piece; the pieces joined with "at" give back the name; no piece contains "at"; the first piece is a prefix of the name |
| `Fixture.Home` | src/App.jsx:62 | `split('at')[0]`, always present; `HomeAway` proves it is the longest prefix before the first "at" |
| `Fixture.Away` | src/App.jsx:62 | `split('at')[1]`, `undefined` when there is no "at"; `HomeAway` proves when it is absent and where it ends |
| `Fixture.SplitWithoutSeparator` | src/App.jsx:62 | a name without "at" splits into itself alone |
| `Fixture.SplitAtFirst` | src/CODE.jsx:83 | a name made of an "at"-free `h`, then "at", then `t` splits into `h` followed by the pieces of `t` (the split is case-sensitive and cuts at every occurrence) |
| `Fixture.HomeAway` | src/App.jsx:62 | home is the "at"-free prefix before the first "at"; away is absent exactly when "at" does not occur; otherwise away is the "at"-free text after the first "at", ending at the end of the name or at the next "at" |
| `Fixture.TeamAAtTeamB` | src/CODE.jsx:41 | "Team A at Team B" shows home "Team A " and away " Team B" |
| `Fixture.WatfordIsCut` | src/CODE.jsx:83 | "Lens at Watford" shows home "Lens " and away " W"; the piece "ford" is dropped |
| `Fetch.Response.Ok` | src/App.jsx:16 | `response.ok`: an HTTP response with a status from 200 to 299; `FetchPlayerNextMatch` states that a response without it gives `null` |
| `Fetch.FetchPlayerNextMatch` | src/App.jsx:13-22 | the result is `null` exactly on a transport failure, a status outside 200-299, or a body that does not parse; otherwise it is the parsed body itself; the function is total, so it never raises |
| `Fetch.Mapper` | src/CODE.jsx:70-73 | the per-player mapper always fulfils, with the player it was given |
| `Fetch.AllSettled` | src/App.jsx:46-51 | the join yields one result per selected player, in selection order, each the mapper's result for that player and that player's own request |
| `Fetch.NoResultRejected` | src/CODE.jsx:13-22 | because the fetcher catches every failure, no joined result is rejected, so the `rejected` branch of the report loop is never taken |
| `Fetch.NextFixture` | src/App.jsx:55 | `team.nextEvent[0]` yields an event exactly when the payload has a `team` with a non-empty `nextEvent`, and then it is the first element |
| `Fetch.HasData` | src/App.jsx:54 | `result.status === 'fulfilled' && result.value.teamData`; `App.ErrorEntryIffNoData` states that exactly the other results get an error entry |
| `Fetch.Throws` | src/App.jsx:54-56 | the unguarded `teamData.team.nextEvent[0].date` fails on a truthy payload that has no `team`, no `nextEvent` or an empty `nextEvent`; `App.RejectsIffMissingNextEvent` and `Agreement.AgreesWithApp` tie it to the click rejecting |
| `App.SexLabel` | src/App.jsx:60 | `sex === 1 ? 'Masculin' : 'Féminines'`; it is the second line in `FixtureEntryLayout` |
| `App.FixtureEntry` | src/App.jsx:57-66 | the fixture `<div>` keyed by the player id; `FixtureEntryLayout` states its six lines |
| `App.ErrorEntry` | src/App.jsx:69-73 | the error `<div>`, keyed by the player id when there is a player; `ErrorEntryIffNoData` states its key and text |
| `App.ErrorText` | src/App.jsx:71 | the error message followed by the name; `ErrorEntryIffNoData` states the exact text |
| `App.KeyOf` | src/App.jsx:58 | the `key` an entry is rendered with; `OneEntryPerPlayer` states it is the player id, in selection order |
| `App.EntryFor` | src/App.jsx:54-74 | the entry the `forEach` callback pushes for one result; `ErrorEntryIffNoData` and `FixtureEntryLayout` say which entry it is |
| `App.Report` | src/App.jsx:53-75 | all entries in result order, or the TypeError; `OneEntryPerPlayer`, `RejectsIffMissingNextEvent` and `Isolation` state its properties, and `App.BuildLogs` is proved equal to it |
| `App.GenerateReport` | src/App.jsx:43-75 | the report for the selected players and their request outcomes; `FixtureThenNotFound` and `EmptyNextEventRejects` are instances of it |
| `App.BuildLogs` | src/App.jsx:53-75 | the `forEach` loop pushing into `logMessages` produces exactly `Report`: every entry in order, or a TypeError when an unguarded read fails |
| `App.Page.constructor` | src/App.jsx:25-26 | every box starts ticked and `logs` starts empty |
| `App.Page.HandleCheckboxChange` | src/App.jsx:32-37 | the new mask is the old mask toggled at `index`; `logs` is unchanged |
| `App.Page.HandleButtonClick` | src/App.jsx:42-78 | a fulfilled click sets `logs` to the report for the current selection, and the output section is then shown exactly when somebody is selected; a rejected one leaves `logs` unchanged; the mask never changes |
| `App.Page.OutputShown` | src/App.jsx:101 | the output section is rendered when `logs.length > 0`; `HandleButtonClick` states that after a fulfilled click it holds exactly when somebody is selected |
| `App.OneEntryPerPlayer` | src/App.jsx:44-77 | a fulfilled report has exactly one entry per selected player, keyed by that player's id, in selection order; an empty selection gives an empty report, so the output section (shown only when `logs.length > 0`) stays hidden |
| `App.ErrorEntryIffNoData` | src/App.jsx:67-73 | entry i is an error entry exactly when the fetcher returned `null` or a falsy body for player i; the error entry then carries that player's id and the text "ERREUR - données non accessibles pour : " followed by the name |
| `App.FixtureEntryLayout` | src/App.jsx:57-66 | a fixture entry has these lines, in order: the name; "Masculin" when `sex === 1`, else "Féminines"; the formatted date; home, then " : ", then away or nothing; the short name; the season display name |
| `App.RejectsIffMissingNextEvent` | src/App.jsx:54-55 | the click rejects exactly when some selected player's fetch yields a truthy payload without `team.nextEvent[0]` |
| `App.Isolation` | src/App.jsx:46-51 | a player's entry depends only on that player's own request outcome |
| `App.FixtureThenNotFound` | src/App.jsx:53-75 | two ticked players, the first with a fixture and the second answered with HTTP 404, give a fixture entry and then an error entry naming the second player |
| `App.EmptyNextEventRejects` | src/App.jsx:55 | a payload whose `team.nextEvent` is empty makes the click reject instead of producing an error entry |
| `Code.MatchLine` | src/CODE.jsx:83 | `` `${home} : ${away}` ``, with a missing away half rendered as "undefined"; `MatchLineWithoutSeparator` states that case |
| `Code.FixtureText` | src/CODE.jsx:81-85 | name, date, match line, short name and season joined by newlines; `LoggerGuard` and `ClickHandlerSkipsTheGuard` state that the logger and the click loop both print it |
| `Code.ErrorSpan` | src/CODE.jsx:88 | the red error span in the report string; `BlockOfPlayer` states when it is used and what it reads |
| `Code.BlockFor` | src/CODE.jsx:77-89 | the text the callback appends for one result; `BlockOfPlayer` and `BlockEndsWithBlankLine` state it |
| `Code.Concat` | src/CODE.jsx:80 | the blocks appended one after another; `ConcatAppend` and `ConcatAround` state how it spreads over append |
| `Code.Blocks` | src/CODE.jsx:76-90 | the per-result blocks in result order; `ReportIsBlocksInOrder` states their count and order |
| `Code.NoneThrows` | src/CODE.jsx:77-79 | no result makes the unguarded read fail; `Report` fulfils exactly when it holds, and `AgreesWithApp` states that this is when App.jsx's click fulfils too |
| `Code.Report` | src/CODE.jsx:76-90 | the concatenated blocks, or the TypeError; `ReportIsBlocksInOrder` and `AgreesWithApp` state its properties, and `Code.BuildLogs` is proved equal to it |
| `Code.GenerateReport` | src/CODE.jsx:66-90 | the report string for the selected players and their request outcomes; `AgreesWithApp` relates it to `App.GenerateReport` |
| `Code.AppendedBlock` | src/CODE.jsx:77-89 | the `forEach` callback for one result throws exactly when the payload is truthy and lacks `team.nextEvent[0]`; otherwise it appends exactly that result's block |
| `Code.BuildLogs` | src/CODE.jsx:76-90 | the `forEach` loop accumulating `logMessages +=` produces exactly `Report`: the concatenated blocks, or a TypeError |
| `Code.Page.constructor` | src/CODE.jsx:48-49 | every box starts ticked and `logs` starts as the empty string |
| `Code.Page.HandleCheckboxChange` | src/CODE.jsx:55-60 | the new mask is the old mask toggled at `index`; `logs` is unchanged |
| `Code.Page.HandleButtonClick` | src/CODE.jsx:65-93 | a fulfilled click sets `logs` to the report string for the current selection, and the output section is then shown exactly when somebody is selected; a rejected one leaves `logs` unchanged; the mask never changes |
| `Code.Page.OutputShown` | src/CODE.jsx:116 | the output section is rendered when `logs` is a non-empty string; `HandleButtonClick` states that after a fulfilled click it holds exactly when somebody is selected |
| `Code.ConcatAppend` | src/CODE.jsx:80 | appending two runs of blocks appends their texts |
| `Code.ConcatAround` | src/CODE.jsx:76-90 | block k sits in the report text after the blocks before it and before the blocks after it |
| `Code.BlocksEndWithBlankLine` | src/CODE.jsx:85-88 | every block, fixture or error, ends in "\n\n" |
| `Code.BlockEndsWithBlankLine` | src/CODE.jsx:85-88 | the block of one result, fixture or error, ends in "\n\n" |
| `Code.ConcatOfBlankLineBlocks` | src/CODE.jsx:116 | blocks ending in "\n\n" concatenate to the empty string exactly when there are none, and otherwise to a text ending in "\n\n" |
| `Code.ReportIsBlocksInOrder` | src/CODE.jsx:67-92 | a fulfilled report is the concatenation, in selection order, of one block per selected player; it is "", and the output hidden, exactly when nobody is selected |
| `Code.BlockOfPlayer` | src/CODE.jsx:77-89 | block i is exactly `<span class="error">ERREUR - données non open source: NAME</span>\n\n` when the fetcher returned `null` or a falsy body for player i, and otherwise the fixture text followed by "\n\n" |
| `Code.MatchLineWithoutSeparator` | src/CODE.jsx:83 | without "at" in the fixture name the match line reads "NAME : undefined" |
| `Code.LogNextMatchDetails` | src/CODE.jsx:29-45 | the line `logNextMatchDetails` writes; `LoggerGuard` states which line it is |
| `Code.LoggerGuard` | src/CODE.jsx:29-45 | `logNextMatchDetails` only logs an error, with no match output, when `team` is falsy, `nextEvent` is missing or `nextEvent[0]` is absent; otherwise it logs name, date, `home : away`, short name and season, newline-separated |
| `Code.ClickHandlerSkipsTheGuard` | src/CODE.jsx:76-85 | for a truthy payload, the click loop throws exactly where the logger's guard fires; elsewhere the loop's block is the logged text plus "\n\n" |
| `Agreement.AgreesWithApp` | src/CODE.jsx:76-90 | both files reject a click on the same inputs, and their fulfilled reports have the same number of entries or blocks |

## Left out

- The HTTP transport and the URL built from `espn_league` and `espn_club_id` (src/App.jsx:15, src/CODE.jsx:15). Each request's outcome is a `Response` parameter.
- The concurrency of `async`/`await` and `Promise.allSettled`. The join is a sequential map over responses given in selection order. A click is modelled as atomic: checkbox changes during the awaited fetches, and a slower click overwriting a newer report, are not modelled.
- `new Date(...).toLocaleString()`, which depends on locale and time zone. It is the parameter `formatDate`.
- `console.error` in the fetcher and its "HTTP error! status" message: a diagnostic side effect only. What `logNextMatchDetails` would print is modelled as a returned `ConsoleLine`.
- React state hooks, JSX markup and CSS, and the `dangerouslySetInnerHTML` rendering of the report string. `logs` is a field holding entries (App.jsx) or a string (CODE.jsx), not a rendered tree.
- The contents of `DATA/players.json`. The roster is any `seq<Player>`; `sex` is an integer, so a non-number `sex` (which `=== 1` also rejects) is not represented.
- JSON shapes beyond what the report reads: `null` elements inside `nextEvent`, a non-string `fixture.name`, or a missing `season`.
  - App.jsx and CODE.jsx would also throw on these.
  - The model types an event as four strings.
- `App.Page.HandleButtonClick` and `Code.Page.HandleButtonClick` require one response per selected player. That requirement describes the environment: it is not a check the page makes.
- The message of the TypeError. JavaScript names `null` or `undefined` and the property whose read fails, for example `.date` for an empty `nextEvent`. The rejection is never handled, so the model uses one constant reason.
