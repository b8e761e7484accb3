/**
 * src/App.jsx and src/CODE.jsx compared: the two click handlers share the selection, the fetcher
 * and the unguarded `team.nextEvent[0]` read, and differ only in how each result is rendered.
 */
module Agreement {
  import opened Roster
  import opened Fetch
  import App
  import Code

  /** Both files reject a click on the same inputs, and fulfilled clicks give one entry or block per player. */
  lemma AgreesWithApp(selected: seq<Player>, responses: seq<Response>, formatDate: string -> string)
    requires |responses| == |selected|
    ensures Code.GenerateReport(selected, responses, formatDate).Rejected? <==>
            App.GenerateReport(selected, responses, formatDate).Rejected?
    ensures Code.GenerateReport(selected, responses, formatDate).Fulfilled? ==>
              |App.GenerateReport(selected, responses, formatDate).value|
              == |Code.Blocks(AllSettled(selected, responses), formatDate)|
  {
  }
}
