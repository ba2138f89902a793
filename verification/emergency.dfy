/** The emergency page (src/pages/Emergency.tsx over the data of
    src/data/emergency.ts): a list of nearby hospitals of which one is
    shown in detail, with fallbacks for missing contact data, and a card per
    first-aid guide that previews the guide's steps. */
module Emergency {
  import opened Common
  import opened Text

  /** A hospital entry; the map coordinates are only displayed. */
  datatype Hospital = Hospital(
    name: string,
    distance: string,
    phone: Option<string>,
    emergency: Option<string>,
    services: Option<seq<string>>)

  datatype Guide = Guide(title: string, description: Option<string>, steps: string)

  const Hospitals: seq<Hospital> := [
    Hospital("City Memorial Hospital", "2.1 miles", Some("(212) 555-0123"), Some("911"),
             Some(["Pediatric ER", "Labor & Delivery", "NICU"])),
    Hospital("Westside Medical Center", "3.8 miles", Some("(212) 555-0145"), Some("911"),
             Some(["Pediatric Care", "OB/GYN", "Emergency Services"])),
    Hospital("Community Children's Hospital", "5.2 miles", Some("(212) 555-0178"), Some("911"),
             Some(["Pediatric Specialty", "Child Emergency", "Family Support"]))
  ]

  /** One numbered step of a guide's text: "Step <number>: <text>...". */
  datatype Step = Step(number: string, text: string)

  function StepText(st: Step): string {
    "Step " + st.number + ": " + st.text + "..."
  }

  /** The steps text of a guide: its numbered steps separated by spaces. */
  function StepsText(steps: seq<Step>): string
    decreases |steps|
  {
    if |steps| == 0 then ""
    else if |steps| == 1 then StepText(steps[0])
    else StepText(steps[0]) + " " + StepsText(steps[1..])
  }

  const ChokingSteps: seq<Step> := [
    Step("1", "Position baby face-down on your forearm"), Step("2", "Give five back blows"),
    Step("3", "Turn baby over"), Step("4", "Give five chest compressions"),
    Step("5", "Repeat until object is dislodged")]
  const FeverSteps: seq<Step> := [
    Step("1", "Take temperature accurately"), Step("2", "Assess severity"),
    Step("3", "Keep baby hydrated"), Step("4", "Use appropriate medication"),
    Step("5", "Monitor and seek help if needed")]
  const CprSteps: seq<Step> := [
    Step("1", "Check for responsiveness"), Step("2", "Call for help"), Step("3", "Open airway"),
    Step("4", "Check breathing"), Step("5", "Begin compressions")]

  const FirstAid: seq<Guide> := [
    Guide("Infant Choking Relief", Some("What to do if your baby is choking"), StepsText(ChokingSteps)),
    Guide("Fever Management", Some("How to handle baby fevers"), StepsText(FeverSteps)),
    Guide("CPR for Infants", Some("Emergency resuscitation techniques"), StepsText(CprSteps))
  ]

  // ---------------------------------------------------------------------
  // Hospital list and detail

  /** The detail panel starts on the first hospital; an empty list has none
      (the page would fail reading its name). */
  function InitialActive(hospitals: seq<Hospital>): (r: Option<Hospital>)
    ensures r.Some? <==> |hospitals| > 0
    ensures r.Some? ==> r.value == hospitals[0]
  {
    if |hospitals| > 0 then Some(hospitals[0]) else None
  }

  /** An entry of the list is highlighted when its name is the active one's. */
  predicate Highlighted(active: Hospital, entry: Hospital) {
    active.name == entry.name
  }

  /** Clicking an entry makes it the active hospital. */
  function Select(active: Hospital, clicked: Hospital): (r: Hospital)
    ensures Highlighted(r, clicked)
  {
    clicked
  }

  predicate DistinctNames(hospitals: seq<Hospital>) {
    forall i, j :: 0 <= i < j < |hospitals| ==> hospitals[i].name != hospitals[j].name
  }

  /** With distinct names, selecting an entry highlights it and no other. */
  lemma ExactlyOneHighlighted(hospitals: seq<Hospital>, active: Hospital, i: nat)
    requires DistinctNames(hospitals) && i < |hospitals|
    ensures forall j :: 0 <= j < |hospitals| ==> (Highlighted(Select(active, hospitals[i]), hospitals[j]) <==> j == i)
  {
  }

  /** The shipped hospitals have distinct names, and the first one starts
      highlighted. */
  lemma ShippedHospitals()
    ensures |Hospitals| == 3 && DistinctNames(Hospitals)
    ensures InitialActive(Hospitals) == Some(Hospitals[0])
    ensures forall j :: 0 <= j < |Hospitals| ==> (Highlighted(Hospitals[0], Hospitals[j]) <==> j == 0)
  {
  }

  /** The emergency number shown: the entry's own when non-empty, else "911". */
  function EmergencyLine(h: Hospital): (r: string)
    ensures Truthy(h.emergency) ==> r == h.emergency.value
    ensures !Truthy(h.emergency) ==> r == "911"
  {
    OrElse(h.emergency, "911")
  }

  /** The reception number shown, or "Not available". */
  function Reception(h: Hospital): (r: string)
    ensures Truthy(h.phone) ==> r == h.phone.value
    ensures !Truthy(h.phone) ==> r == "Not available"
  {
    OrElse(h.phone, "Not available")
  }

  /** The items of the services list. A missing list shows the fallback
      item; an empty array is truthy, so it shows no item at all. */
  function ServicesShown(h: Hospital): (r: seq<string>)
    ensures h.services.None? ==> r == ["Information not available"]
    ensures h.services.Some? ==> r == h.services.value
  {
    match h.services
    case None => ["Information not available"]
    case Some(services) => services
  }

  /** Every hospital shows some emergency number and reception text; only
      an explicitly empty services list shows an empty list. */
  lemma ContactFallbacks(h: Hospital)
    ensures EmergencyLine(h) != "" && Reception(h) != ""
    ensures ServicesShown(h) == [] <==> h.services == Some([])
  {
  }

  /** The card's description, or the default text. */
  function DescriptionShown(g: Guide): (r: string)
    ensures Truthy(g.description) ==> r == g.description.value
    ensures !Truthy(g.description) ==> r == "Emergency first aid information"
  {
    OrElse(g.description, "Emergency first aid information")
  }

  // ---------------------------------------------------------------------
  // The steps preview

  const FullGuideItem: string := "View complete guide for full instructions"

  /** Each previewed step, trimmed and followed by "...". */
  function MarkSteps(pieces: seq<string>): seq<string>
    decreases |pieces|
  {
    if |pieces| == 0 then [] else [Trim(pieces[0]) + "..."] + MarkSteps(pieces[1..])
  }

  /** `steps.split(': ')[1]`, absent when there is no ": ". */
  function SecondPiece(steps: string): (r: Option<string>)
    ensures r.None? <==> NoOccurrence(steps, ": ")
  {
    var parts := Split(steps, ": ");
    if |parts| < 2 then
      assert NoOccurrence(steps, ": ") by { JoinSplit(steps, ": "); }
      None
    else
      assert !NoOccurrence(steps, ": ") by {
        if NoOccurrence(steps, ": ") { SplitWithoutSeparator(steps, ": "); }
      }
      Some(parts[1])
  }

  /** The preview of that piece: cut before its first "...", split on
      "Step ", without the empty pieces, each trimmed and marked. */
  function Preview(piece: string): seq<string> {
    MarkSteps(NonEmpty(Split(Split(piece, "...")[0], "Step ")))
  }

  /** The list items of a guide card: the preview of the second piece and
      then the fixed last item. Without any ": " the second piece does not
      exist and rendering fails. */
  function StepsShown(steps: string): (r: Result<seq<string>>)
    ensures r.Failure? <==> NoOccurrence(steps, ": ")
    ensures r.Success? ==> |r.value| >= 1 && r.value[|r.value| - 1] == FullGuideItem
  {
    match SecondPiece(steps)
    case None => Failure("Cannot read properties of undefined (reading 'split')")
    case Some(piece) => Success(Preview(piece) + [FullGuideItem])
  }

  /** The second piece is what lies between the first ": " and the next one. */
  lemma SecondPieceBetween(p: string, mid: string, rest: string)
    requires ':' !in p && ':' !in mid
    ensures SecondPiece(p + ": " + mid + ": " + rest) == Some(mid)
  {
    var steps := p + ": " + mid + ": " + rest;
    assert steps == p + ": " + (mid + ": " + rest);
    SplitLeading(p, ": ", mid + ": " + rest);
    SplitLeading(mid, ": ", rest);
  }

  /** With a single ": ", the second piece is everything after it. */
  lemma SecondPieceLast(p: string, mid: string)
    requires ':' !in p && ':' !in mid
    ensures SecondPiece(p + ": " + mid) == Some(mid)
  {
    SplitLeading(p, ": ", mid);
    SplitWithoutChar(mid, ": ");
  }

  /** A piece that starts with a step text free of '.' and 'S' previews
      just that text. */
  lemma PreviewIs(body: string, q: string)
    requires PlainStepText(body)
    ensures Preview(body + "..." + q) == [body + "..."]
  {
    TrimOfTrimmed(body);
    SplitLeading(body, "...", q);
    SplitWithoutChar(body, "Step ");
    assert NonEmpty([body]) == [body];
    assert MarkSteps([body]) == [Trim(body) + "..."] + MarkSteps([]);
  }

  /** The second piece of a numbered steps text is the first step's text,
      its "..." and, when another step follows, " Step " and its number. */
  lemma SecondPieceOfSteps(steps: seq<Step>) returns (q: string)
    requires NumberedShape(steps)
    ensures SecondPiece(StepsText(steps)) == Some(steps[0].text + "..." + q)
  {
    var p := "Step " + steps[0].number;
    assert ':' !in p;
    if |steps| == 1 {
      q := "";
      var mid := steps[0].text + "..." + q;
      assert ':' !in mid;
      assert StepsText(steps) == p + ": " + mid;
      SecondPieceLast(p, mid);
    } else {
      q := " Step " + steps[1].number;
      var mid := steps[0].text + "..." + q;
      assert ':' !in mid;
      var tail := steps[1].text + "..." + (if |steps| == 2 then "" else " " + StepsText(steps[2..]));
      assert StepsText(steps[1..]) == "Step " + steps[1].number + ": " + tail by {
        if |steps| > 2 { assert steps[1..][1..] == steps[2..]; }
      }
      assert StepsText(steps) == p + ": " + mid + ": " + tail;
      SecondPieceBetween(p, mid, tail);
    }
  }

  /** A step text the preview keeps whole: non-empty, without surrounding
      whitespace, and without ':', '.' or 'S' (so without ": ", "..." or
      "Step "). */
  predicate PlainStepText(t: string) {
    && t != "" && !IsSpace(t[0]) && !IsSpace(t[|t| - 1])
    && forall c :: c in t ==> c != ':' && c != '.' && c != 'S'
  }

  /** The shape `FirstStepOnly` needs: a plain first text, and step numbers
      without ':' for the first two steps. */
  predicate NumberedShape(steps: seq<Step>) {
    && |steps| >= 1
    && PlainStepText(steps[0].text) && ':' !in steps[0].number
    && (|steps| >= 2 ==> ':' !in steps[1].number)
  }

  /** A guide written as numbered steps previews only its first step, the
      first "..." ending the preview, whatever the later steps say. */
  lemma FirstStepOnly(steps: seq<Step>)
    requires NumberedShape(steps)
    ensures StepsShown(StepsText(steps)) == Success([steps[0].text + "...", FullGuideItem])
  {
    var q := SecondPieceOfSteps(steps);
    var piece := steps[0].text + "..." + q;
    PreviewIs(steps[0].text, q);
    assert StepsShown(StepsText(steps)) == Success(Preview(piece) + [FullGuideItem]);
    assert Preview(piece) + [FullGuideItem] == [steps[0].text + "...", FullGuideItem];
  }

  /** The first texts of the shipped guides are plain. */
  lemma ChokingTextPlain()
    ensures PlainStepText("Position baby face-down on your forearm")
  {
  }

  lemma FeverTextPlain()
    ensures PlainStepText("Take temperature accurately")
  {
  }

  lemma CprTextPlain()
    ensures PlainStepText("Check for responsiveness")
  {
  }

  /** The shipped guides have the numbered shape. */
  lemma ShippedShapes()
    ensures NumberedShape(ChokingSteps) && NumberedShape(FeverSteps) && NumberedShape(CprSteps)
  {
    ChokingTextPlain();
    assert ChokingSteps[0].text == "Position baby face-down on your forearm";
    FeverTextPlain();
    assert FeverSteps[0].text == "Take temperature accurately";
    CprTextPlain();
    assert CprSteps[0].text == "Check for responsiveness";
  }

  /** Each shipped guide previews only its first step: "Position baby
      face-down on your forearm...", "Take temperature accurately..." and
      "Check for responsiveness...". */
  lemma ShippedGuidesShowFirstStep()
    ensures StepsShown(FirstAid[0].steps) == Success([ChokingSteps[0].text + "...", FullGuideItem])
    ensures StepsShown(FirstAid[1].steps) == Success([FeverSteps[0].text + "...", FullGuideItem])
    ensures StepsShown(FirstAid[2].steps) == Success([CprSteps[0].text + "...", FullGuideItem])
  {
    ShippedShapes();
    FirstStepOnly(ChokingSteps);
    FirstStepOnly(FeverSteps);
    FirstStepOnly(CprSteps);
  }

  /** A steps text without ": " cannot be rendered. */
  lemma StepsWithoutColonFail()
    ensures StepsShown("Call 911").Failure?
  {
    NoOccurrenceWithoutChar("Call 911", ": ");
  }
}
