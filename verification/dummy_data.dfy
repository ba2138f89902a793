/** Sample-data seeding (src/utils/dummyDataService.ts): four populators
    upsert rows into their tables one after another, stop at the first
    error and report it with their own heading; the caller runs all four and
    folds their results into one. The database calls are given as their
    outcomes; the rows themselves (built from the clock) are not modelled. */
module DummyData {
  import opened Common
  import opened Text

  /** How one `upsert` settled: no error, an error object returned by the
      client, or an exception whose `message` may be missing. */
  datatype TableOutcome = Stored | Errored(error: string) | Threw(thrown: Option<string>)

  /** A table a populator writes, with the prefix its error is reported with. */
  datatype Table = Table(name: string, errorPrefix: string, outcome: TableOutcome)

  /** What a populator, and the whole seeding, resolves to. */
  datatype DummyDataResult = DummyDataResult(success: bool, message: Option<string>)

  /** The text a failed table contributes: a returned error is rethrown with
      the table's prefix; a thrown error's message is interpolated as is,
      "undefined" when missing. */
  function ErrorText(t: Table): string
    requires !t.outcome.Stored?
  {
    match t.outcome
    case Errored(m) => t.errorPrefix + m
    case Threw(m) => if m.Some? then m.value else "undefined"
  }

  /** The tables in order, until the first failure: the failure's text and
      the number of upserts issued. */
  function RunTables(tables: seq<Table>): (r: (Option<string>, nat))
    ensures r.1 <= |tables|
    ensures r.0.None? <==> forall i :: 0 <= i < |tables| ==> tables[i].outcome.Stored?
    ensures r.0.None? ==> r.1 == |tables|
    ensures r.0.Some? ==>
      && 1 <= r.1
      && (forall i :: 0 <= i < r.1 - 1 ==> tables[i].outcome.Stored?)
      && !tables[r.1 - 1].outcome.Stored?
      && r.0.value == ErrorText(tables[r.1 - 1])
    decreases |tables|
  {
    if |tables| == 0 then (None, 0)
    else if !tables[0].outcome.Stored? then (Some(ErrorText(tables[0])), 1)
    else
      var rest := RunTables(tables[1..]);
      (rest.0, rest.1 + 1)
  }

  /** A populator: success when every table is stored, otherwise its heading
      and the first failure's text. */
  function Populate(heading: string, tables: seq<Table>): (r: DummyDataResult)
    ensures r.success <==> forall i :: 0 <= i < |tables| ==> tables[i].outcome.Stored?
    ensures r.success ==> r.message.None?
    ensures !r.success ==> r.message == Some(heading + RunTables(tables).0.value)
  {
    match RunTables(tables).0
    case None => DummyDataResult(true, None)
    case Some(e) => DummyDataResult(false, Some(heading + e))
  }

  function TrackingTables(feeding: TableOutcome, diaper: TableOutcome, sleep: TableOutcome,
                          growth: TableOutcome): seq<Table> {
    [Table("feeding_tracking", "Feeding data error: ", feeding),
     Table("diaper_tracking", "Diaper data error: ", diaper),
     Table("sleep_tracking", "Sleep data error: ", sleep),
     Table("growth_tracking", "Growth data error: ", growth)]
  }

  function CommunityTables(groups: TableOutcome, events: TableOutcome): seq<Table> {
    [Table("community_groups", "Community groups error: ", groups),
     Table("events", "Events error: ", events)]
  }

  function ResourcesTables(guides: TableOutcome): seq<Table> {
    [Table("guides", "Guides error: ", guides)]
  }

  function WellnessTables(mood: TableOutcome, hydration: TableOutcome): seq<Table> {
    [Table("mood_tracking", "Mood data error: ", mood),
     Table("hydration_tracking", "Hydration data error: ", hydration)]
  }

  /** `populateTrackingData`: succeeds, silently, exactly when all four
      tracking tables are stored. */
  function PopulateTracking(feeding: TableOutcome, diaper: TableOutcome, sleep: TableOutcome,
                            growth: TableOutcome): (r: DummyDataResult)
    ensures r.success <==> feeding.Stored? && diaper.Stored? && sleep.Stored? && growth.Stored?
    ensures r.success ==> r.message.None?
  {
    Populate("Tracking data: ", TrackingTables(feeding, diaper, sleep, growth))
  }

  /** `populateCommunityData`: succeeds exactly when groups and events are stored. */
  function PopulateCommunity(groups: TableOutcome, events: TableOutcome): (r: DummyDataResult)
    ensures r.success <==> groups.Stored? && events.Stored?
    ensures r.success ==> r.message.None?
  {
    Populate("Community data: ", CommunityTables(groups, events))
  }

  /** `populateResourcesData`: succeeds exactly when the guides are stored. */
  function PopulateResources(guides: TableOutcome): (r: DummyDataResult)
    ensures r.success <==> guides.Stored?
    ensures r.success ==> r.message.None?
  {
    Populate("Resources data: ", ResourcesTables(guides))
  }

  /** `populateWellnessData`: succeeds exactly when mood and hydration are stored. */
  function PopulateWellness(mood: TableOutcome, hydration: TableOutcome): (r: DummyDataResult)
    ensures r.success <==> mood.Stored? && hydration.Stored?
    ensures r.success ==> r.message.None?
  {
    Populate("Wellness data: ", WellnessTables(mood, hydration))
  }

  /** The tracking tables are written feeding, diaper, sleep, growth; the
      first failure stops the rest and names its table. */
  lemma TrackingStopsAtFirstError(feeding: TableOutcome, diaper: TableOutcome, sleep: TableOutcome,
                                  growth: TableOutcome, m: string)
    ensures feeding == Errored(m) ==>
      && RunTables(TrackingTables(feeding, diaper, sleep, growth)).1 == 1
      && PopulateTracking(feeding, diaper, sleep, growth).message == Some("Tracking data: " + ("Feeding data error: " + m))
    ensures feeding.Stored? && diaper == Errored(m) ==>
      && RunTables(TrackingTables(feeding, diaper, sleep, growth)).1 == 2
      && PopulateTracking(feeding, diaper, sleep, growth).message == Some("Tracking data: " + ("Diaper data error: " + m))
    ensures feeding.Stored? && diaper.Stored? && sleep == Errored(m) ==>
      && RunTables(TrackingTables(feeding, diaper, sleep, growth)).1 == 3
      && PopulateTracking(feeding, diaper, sleep, growth).message == Some("Tracking data: " + ("Sleep data error: " + m))
    ensures feeding.Stored? && diaper.Stored? && sleep.Stored? && growth == Errored(m) ==>
      && RunTables(TrackingTables(feeding, diaper, sleep, growth)).1 == 4
      && PopulateTracking(feeding, diaper, sleep, growth).message == Some("Tracking data: " + ("Growth data error: " + m))
  {
    var ts := TrackingTables(feeding, diaper, sleep, growth);
    var r := RunTables(ts);
    if !(feeding.Stored? && diaper.Stored? && sleep.Stored? && growth.Stored?) {
      assert r.0.Some? by { assert !ts[0].outcome.Stored? || !ts[1].outcome.Stored? || !ts[2].outcome.Stored? || !ts[3].outcome.Stored?; }
      var k := r.1 - 1;
      assert !ts[k].outcome.Stored?;
      assert feeding.Stored? ==> k != 0;
      assert feeding.Stored? && diaper.Stored? ==> k != 1;
      assert feeding.Stored? && diaper.Stored? && sleep.Stored? ==> k != 2;
      assert !feeding.Stored? ==> k <= 0 by { if k > 0 { assert ts[0].outcome.Stored?; } }
      assert !diaper.Stored? ==> k <= 1 by { if k > 1 { assert ts[1].outcome.Stored?; } }
      assert !sleep.Stored? ==> k <= 2 by { if k > 2 { assert ts[2].outcome.Stored?; } }
    }
  }

  /** Every failing populator reports under its own heading. */
  lemma FailuresCarryLabels(a: TableOutcome, b: TableOutcome, c: TableOutcome, d: TableOutcome)
    ensures var r := PopulateTracking(a, b, c, d); !r.success ==> r.message.Some? && |r.message.value| >= 15 && r.message.value[..15] == "Tracking data: "
    ensures var r := PopulateCommunity(a, b); !r.success ==> r.message.Some? && |r.message.value| >= 16 && r.message.value[..16] == "Community data: "
    ensures var r := PopulateResources(a); !r.success ==> r.message.Some? && |r.message.value| >= 16 && r.message.value[..16] == "Resources data: "
    ensures var r := PopulateWellness(a, b); !r.success ==> r.message.Some? && |r.message.value| >= 15 && r.message.value[..15] == "Wellness data: "
  {
  }

  /** The positions from `from` on of the failed results, in increasing
      order: `results.filter(r => !r.success)` as indices. */
  function FailedPositions(rs: seq<DummyDataResult>, from: nat): (r: seq<nat>)
    requires from <= |rs|
    ensures forall k :: 0 <= k < |r| ==> from <= r[k] < |rs| && !rs[r[k]].success
    ensures forall k, l :: 0 <= k < l < |r| ==> r[k] < r[l]
    ensures forall i :: from <= i < |rs| && !rs[i].success ==> i in r
    decreases |rs| - from
  {
    if from == |rs| then []
    else if rs[from].success then FailedPositions(rs, from + 1)
    else [from] + FailedPositions(rs, from + 1)
  }

  /** The messages of the failed results from `from` on, in order; `join`
      writes a missing message as "". */
  function FailureMessagesFrom(rs: seq<DummyDataResult>, from: nat): (r: seq<string>)
    requires from <= |rs|
    ensures var idx := FailedPositions(rs, from);
            |r| == |idx| && forall k :: 0 <= k < |r| ==> r[k] == rs[idx[k]].message.GetOr("")
    decreases |rs| - from
  {
    if from == |rs| then []
    else
      var rest := FailureMessagesFrom(rs, from + 1);
      if rs[from].success then rest else [rs[from].message.GetOr("")] + rest
  }

  /** `failedOperations.map(r => r.message)`: the messages of the failed
      results, in order. */
  function FailureMessages(rs: seq<DummyDataResult>): (r: seq<string>)
    ensures |r| <= |rs|
    ensures r == [] <==> forall i :: 0 <= i < |rs| ==> rs[i].success
    ensures var idx := FailedPositions(rs, 0);
            |r| == |idx| && forall k :: 0 <= k < |r| ==> r[k] == rs[idx[k]].message.GetOr("")
  {
    NoPositionsIffAllSucceeded(rs);
    FailureMessagesFrom(rs, 0)
  }

  /** There are at most as many failed positions as results, and none
      exactly when every result succeeded. */
  lemma NoPositionsIffAllSucceeded(rs: seq<DummyDataResult>)
    ensures |FailedPositions(rs, 0)| <= |rs|
    ensures FailedPositions(rs, 0) == [] <==> forall i :: 0 <= i < |rs| ==> rs[i].success
  {
    var idx := FailedPositions(rs, 0);
    PositionsBounded(idx, |rs|);
    if idx != [] {
      assert !rs[idx[0]].success;
    }
  }

  /** A strictly increasing sequence of positions below `n` has at most `n`
      elements. */
  lemma {:induction false} PositionsBounded(idx: seq<nat>, n: nat)
    requires forall k :: 0 <= k < |idx| ==> idx[k] < n
    requires forall k, l :: 0 <= k < l < |idx| ==> idx[k] < idx[l]
    ensures |idx| <= n
    decreases n
  {
    if |idx| > 0 {
      var last := idx[|idx| - 1];
      var front := idx[..|idx| - 1];
      assert forall k :: 0 <= k < |front| ==> front[k] < last;
      PositionsBounded(front, last);
    }
  }

  const SummaryPrefix: string := "Some data could not be populated: "

  /** `populateDummyData` once the four populators have resolved, in the
      order tracking, community, resources, wellness. */
  function PopulateDummyData(tracking: DummyDataResult, community: DummyDataResult,
                             resources: DummyDataResult, wellness: DummyDataResult): (r: DummyDataResult)
    ensures r.success <==> tracking.success && community.success && resources.success && wellness.success
    ensures r.success ==> r.message.None?
    ensures !r.success ==> r.message == Some(SummaryPrefix + Join(FailureMessages([tracking, community, resources, wellness]), ", "))
  {
    var rs := [tracking, community, resources, wellness];
    var failed := FailureMessages(rs);
    assert failed == [] <==> tracking.success && community.success && resources.success && wellness.success by {
      assert rs[0] == tracking && rs[1] == community && rs[2] == resources && rs[3] == wellness;
    }
    if |failed| > 0 then DummyDataResult(false, Some(SummaryPrefix + Join(failed, ", ")))
    else DummyDataResult(true, None)
  }

  /** The outer `catch`: a rejection of `Promise.all` reports its message,
      or "Unknown error occurred" when that is missing or empty. The four
      populators catch their own errors, so this path is not reached. */
  function PopulateDummyDataThrew(message: Option<string>): (r: DummyDataResult)
    ensures !r.success && r.message.Some? && r.message.value != ""
    ensures Truthy(message) ==> r.message == message
    ensures !Truthy(message) ==> r.message == Some("Unknown error occurred")
  {
    DummyDataResult(false, Some(OrElse(message, "Unknown error occurred")))
  }

  /** With one failure the summary is that failure's message; with two they
      are joined by ", " in populator order. */
  lemma SummaryExamples(m1: string, m2: string)
    ensures var ok := DummyDataResult(true, None);
            var r := PopulateDummyData(ok, ok, ok, DummyDataResult(false, Some(m1)));
            r.message == Some(SummaryPrefix + m1)
    ensures var ok := DummyDataResult(true, None);
            var r := PopulateDummyData(DummyDataResult(false, Some(m1)), ok, DummyDataResult(false, Some(m2)), ok);
            r.message == Some(SummaryPrefix + m1 + ", " + m2)
  {
    var ok := DummyDataResult(true, None);
    var f1 := DummyDataResult(false, Some(m1));
    var f2 := DummyDataResult(false, Some(m2));
    LastFailureMessages(m1);
    TwoFailureMessages(m1, m2);
    assert Join([m1, m2], ", ") == m1 + ", " + m2 by { assert [m1, m2][1..] == [m2]; }
    assert SummaryPrefix + (m1 + ", " + m2) == SummaryPrefix + m1 + ", " + m2;
  }

  lemma LastFailureMessages(m1: string)
    ensures var ok := DummyDataResult(true, None);
            FailureMessages([ok, ok, ok, DummyDataResult(false, Some(m1))]) == [m1]
  {
    var one := [DummyDataResult(true, None), DummyDataResult(true, None), DummyDataResult(true, None), DummyDataResult(false, Some(m1))];
    assert FailureMessagesFrom(one, 4) == [];
    assert FailureMessagesFrom(one, 3) == [m1];
    assert FailureMessagesFrom(one, 2) == [m1];
    assert FailureMessagesFrom(one, 1) == [m1];
  }

  lemma TwoFailureMessages(m1: string, m2: string)
    ensures var ok := DummyDataResult(true, None);
            FailureMessages([DummyDataResult(false, Some(m1)), ok, DummyDataResult(false, Some(m2)), ok]) == [m1, m2]
  {
    var two := [DummyDataResult(false, Some(m1)), DummyDataResult(true, None), DummyDataResult(false, Some(m2)), DummyDataResult(true, None)];
    assert FailureMessagesFrom(two, 4) == [];
    assert FailureMessagesFrom(two, 3) == [];
    assert FailureMessagesFrom(two, 2) == [m2];
    assert FailureMessagesFrom(two, 1) == [m2];
  }

  /** A populator's failure always makes the whole seeding fail, and its
      message appears in the summary. */
  lemma FailureSurfaces(tracking: DummyDataResult, community: DummyDataResult,
                        resources: DummyDataResult, wellness: DummyDataResult)
    requires !community.success
    ensures !PopulateDummyData(tracking, community, resources, wellness).success
    ensures community.message.GetOr("") in FailureMessages([tracking, community, resources, wellness])
  {
    var rs := [tracking, community, resources, wellness];
    var idx := FailedPositions(rs, 0);
    assert 1 in idx;
    var k :| 0 <= k < |idx| && idx[k] == 1;
    assert FailureMessages(rs)[k] == community.message.GetOr("");
  }
}
