/**
  Which question catalog and station list the form shows. The choice
  follows the `transportType` field: "metro" and "tram" select their
  catalog, any other value leaves the previous choice in place.
 */
module ModeSelection {
  import opened Outcomes
  import opened SurveyConfig

  /** The three pieces of state the transport-type effect sets together. */
  datatype Selection = Selection(questions: Catalog, stationList: seq<string>, transportType: string)

  /** On mount: the metro catalog and stations, with no transport type recorded yet. */
  const Initial: Selection := Selection(MetroQuestions, MetroStations, "")

  function ModeName(m: Mode): string {
    match m
    case Metro => "metro"
    case Tram => "tram"
  }

  /** The selection a mode stands for. */
  function Selected(m: Mode): Selection {
    Selection(CatalogFor(m), StationsFor(m), ModeName(m))
  }

  /** The mode a field value names, if any. */
  function ParseMode(value: string): (r: Option<Mode>)
    ensures r.Some? ==> ModeName(r.value) == value
    ensures r.None? ==> value != "metro" && value != "tram"
  {
    if value == "metro" then Some(Metro)
    else if value == "tram" then Some(Tram)
    else None
  }

  /**
    Catalog, stations and recorded type always belong to one mode; before a
    type is recorded that mode is metro.
   */
  ghost predicate Consistent(sel: Selection) {
    || sel == Initial
    || sel == Selected(Metro)
    || sel == Selected(Tram)
  }

  /** The effect that runs when the watched `transportType` value changes. */
  function OnTransportType(sel: Selection, value: string): (r: Selection)
    ensures value == "metro" ==> r.questions == MetroQuestions && r.stationList == MetroStations
    ensures value == "tram" ==> r.questions == TramQuestions && r.stationList == TramStations
    ensures value != "metro" && value != "tram" ==> r == sel
    ensures ParseMode(value).Some? ==> r == Selected(ParseMode(value).value)
    ensures Consistent(sel) ==> Consistent(r)
  {
    match ParseMode(value)
    case Some(m) => Selected(m)
    case None => sel
  }

  /** The mode named by the last "metro" or "tram" among the values, if any. */
  function LastMode(values: seq<string>): Option<Mode>
    decreases |values|
  {
    if |values| == 0 then None
    else
      match ParseMode(values[|values| - 1])
      case Some(m) => Some(m)
      case None => LastMode(values[..|values| - 1])
  }

  /** Feeds a series of field values to the effect, oldest first. */
  function Follow(sel: Selection, values: seq<string>): Selection
    decreases |values|
  {
    if |values| == 0 then sel
    else OnTransportType(Follow(sel, values[..|values| - 1]), values[|values| - 1])
  }

  /**
    Whatever values the field takes, the form shows the catalog of the last
    one that named a mode, and the initial metro selection if none did.
   */
  lemma {:induction false} FollowShowsLastMode(values: seq<string>)
    ensures Follow(Initial, values)
         == match LastMode(values) case Some(m) => Selected(m) case None => Initial
    decreases |values|
  {
    if |values| > 0 {
      FollowShowsLastMode(values[..|values| - 1]);
    }
  }

  /** Clearing the field (as a form reset does) keeps the catalog of the mode chosen before. */
  lemma ClearingKeepsMode(m: Mode)
    ensures OnTransportType(Selected(m), "") == Selected(m)
    ensures Follow(Initial, ["tram", ""]) == Selected(Tram)
  {
    assert ["tram", ""][..1] == ["tram"];
    assert ["tram"][..0] == [];
  }

  /** The service name in the thank-you text: "Metro" only for a recorded metro choice. */
  function ServiceName(sel: Selection): (r: string)
    ensures Consistent(sel) && sel.transportType != "" ==>
      (r == "Metro" <==> sel.questions == MetroQuestions)
    ensures sel.transportType == "" ==> r == "Tram"
  {
    if sel.transportType == "metro" then "Metro" else "Tram"
  }

  /** Choosing a mode, whatever was shown before, makes the thank-you text name that mode's service. */
  lemma ChoiceNamesService(sel: Selection, m: Mode)
    ensures ServiceName(OnTransportType(sel, ModeName(m))) == (if m == Metro then "Metro" else "Tram")
  {
  }
}
