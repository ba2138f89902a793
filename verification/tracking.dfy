/** The four logging forms of the tracking page (src/pages/Tracking.tsx):
    feeding, sleep, diaper and growth. Each form is a record of text values;
    which controls it renders depends on the selected type, the browser
    refuses to submit while a rendered `required` input is empty, and a
    submission shows a toast and puts the form back to its initial value. */
module Tracking {
  import opened Common
  import opened Text

  datatype Kind = FeedingForm | SleepForm | DiaperForm | GrowthForm

  datatype Field =
    | Time | Type | Amount | Side | Duration
    | Start | End | Quality
    | Color
    | Date | Weight | Height | HeadCircumference

  /** The keys of each form's state object. */
  function Fields(kind: Kind): set<Field> {
    match kind
    case FeedingForm => {Time, Type, Amount, Side, Duration}
    case SleepForm => {Start, End, Quality}
    case DiaperForm => {Time, Type, Color}
    case GrowthForm => {Date, Weight, Height, HeadCircumference}
  }

  /** A form's state: one text value per field. */
  type Form = map<Field, string>

  predicate WellFormed(kind: Kind, f: Form) {
    f.Keys == Fields(kind)
  }

  /** The value of a field; every field of a well-formed form is present. */
  function Value(f: Form, field: Field): string {
    if field in f then f[field] else ""
  }

  /** The value each form starts with and returns to after a submission. */
  function Initial(kind: Kind): (r: Form)
    ensures WellFormed(kind, r)
  {
    match kind
    case FeedingForm => map[Time := "", Type := "Breastmilk", Amount := "", Side := "Left", Duration := ""]
    case SleepForm => map[Start := "", End := "", Quality := "Good"]
    case DiaperForm => map[Time := "", Type := "Wet", Color := ""]
    case GrowthForm => map[Date := "", Weight := "", Height := "", HeadCircumference := ""]
  }

  /** The options each select offers; the other fields are free inputs. */
  function Options(kind: Kind, field: Field): seq<string> {
    match (kind, field)
    case (FeedingForm, Type) => ["Breastmilk", "Formula", "Solid"]
    case (FeedingForm, Side) => ["Left", "Right", "Both"]
    case (SleepForm, Quality) => ["Excellent", "Good", "Fair", "Poor"]
    case (DiaperForm, Type) => ["Wet", "Dirty", "Both"]
    case (DiaperForm, Color) => ["Yellow", "Brown", "Green", "Black"]
    case _ => []
  }

  /** A rendered control: the field it edits and whether it carries the
      `required` attribute (only the text and date inputs do). */
  datatype Control = Control(field: Field, required: bool)

  /** The controls a form renders for its current values, in order. */
  function Controls(kind: Kind, f: Form): seq<Control> {
    match kind
    case FeedingForm =>
      [Control(Time, true), Control(Type, false)]
      + (if Value(f, Type) != "Solid" then [Control(Amount, true)] else [])
      + (if Value(f, Type) == "Breastmilk" then [Control(Side, false), Control(Duration, true)] else [])
    case SleepForm =>
      [Control(Start, true), Control(End, true), Control(Quality, false)]
    case DiaperForm =>
      [Control(Time, true), Control(Type, false)]
      + (if Value(f, Type) == "Dirty" || Value(f, Type) == "Both" then [Control(Color, false)] else [])
    case GrowthForm =>
      [Control(Date, true), Control(Weight, true), Control(Height, true), Control(HeadCircumference, true)]
  }

  predicate Shown(kind: Kind, f: Form, field: Field) {
    exists i :: 0 <= i < |Controls(kind, f)| && Controls(kind, f)[i].field == field
  }

  predicate Required(kind: Kind, f: Form, field: Field) {
    exists i :: 0 <= i < |Controls(kind, f)| && Controls(kind, f)[i].field == field && Controls(kind, f)[i].required
  }

  /** The browser's constraint validation: every rendered required input
      holds a non-empty value. Hidden fields never block a submission. */
  predicate Submittable(kind: Kind, f: Form) {
    forall i :: 0 <= i < |Controls(kind, f)| && Controls(kind, f)[i].required ==> Value(f, Controls(kind, f)[i].field) != ""
  }

  /** Every rendered control edits a field of the form, and each field is
      rendered at most once. */
  lemma ControlsAreFields(kind: Kind, f: Form)
    ensures forall i :: 0 <= i < |Controls(kind, f)| ==> Controls(kind, f)[i].field in Fields(kind)
    ensures forall i, j :: 0 <= i < j < |Controls(kind, f)| ==> Controls(kind, f)[i].field != Controls(kind, f)[j].field
  {
  }

  /** Feeding: the amount is shown and required exactly when the type is
      not "Solid"; the side select is shown exactly for breast milk and is
      never required; the duration is shown and required exactly for breast
      milk; time is always required. */
  lemma FeedingFieldRules(f: Form)
    ensures Shown(FeedingForm, f, Amount) <==> Value(f, Type) != "Solid"
    ensures Required(FeedingForm, f, Amount) <==> Value(f, Type) != "Solid"
    ensures Shown(FeedingForm, f, Side) <==> Value(f, Type) == "Breastmilk"
    ensures !Required(FeedingForm, f, Side)
    ensures Shown(FeedingForm, f, Duration) <==> Value(f, Type) == "Breastmilk"
    ensures Required(FeedingForm, f, Duration) <==> Value(f, Type) == "Breastmilk"
    ensures Required(FeedingForm, f, Time) && Shown(FeedingForm, f, Type) && !Required(FeedingForm, f, Type)
  {
    var cs := Controls(FeedingForm, f);
    assert cs[0].field == Time && cs[1].field == Type;
    if Value(f, Type) != "Solid" {
      assert cs[2] == Control(Amount, true);
    }
    if Value(f, Type) == "Breastmilk" {
      assert cs[3] == Control(Side, false) && cs[4] == Control(Duration, true);
    }
  }

  /** Diaper: the color select is shown exactly for "Dirty" and "Both" and
      is never required; time is always required. */
  lemma DiaperFieldRules(f: Form)
    ensures Shown(DiaperForm, f, Color) <==> Value(f, Type) == "Dirty" || Value(f, Type) == "Both"
    ensures !Required(DiaperForm, f, Color)
    ensures Required(DiaperForm, f, Time) && !Required(DiaperForm, f, Type)
  {
    var cs := Controls(DiaperForm, f);
    assert cs[0].field == Time;
    if Value(f, Type) == "Dirty" || Value(f, Type) == "Both" {
      assert cs[2] == Control(Color, false);
    }
  }

  /** When each form may be submitted, in terms of its values. */
  lemma SubmittableRules(f: Form)
    ensures Submittable(FeedingForm, f) <==>
      && Value(f, Time) != ""
      && (Value(f, Type) != "Solid" ==> Value(f, Amount) != "")
      && (Value(f, Type) == "Breastmilk" ==> Value(f, Duration) != "")
    ensures Submittable(SleepForm, f) <==> Value(f, Start) != "" && Value(f, End) != ""
    ensures Submittable(DiaperForm, f) <==> Value(f, Time) != ""
    ensures Submittable(GrowthForm, f) <==>
      Value(f, Date) != "" && Value(f, Weight) != "" && Value(f, Height) != "" && Value(f, HeadCircumference) != ""
  {
    var cs := Controls(FeedingForm, f);
    if Value(f, Type) == "Solid" {
      assert cs == [Control(Time, true), Control(Type, false)];
    } else if Value(f, Type) == "Breastmilk" {
      assert cs == [Control(Time, true), Control(Type, false), Control(Amount, true),
                    Control(Side, false), Control(Duration, true)];
      assert Submittable(FeedingForm, f) <==> Value(f, Time) != "" && Value(f, Amount) != "" && Value(f, Duration) != "" by {
        assert cs[0].required && cs[2].required && cs[4].required;
      }
    } else {
      assert cs == [Control(Time, true), Control(Type, false), Control(Amount, true)];
      assert Submittable(FeedingForm, f) <==> Value(f, Time) != "" && Value(f, Amount) != "" by {
        assert cs[0].required && cs[2].required;
      }
    }
    assert Controls(SleepForm, f)[0].field == Start && Controls(SleepForm, f)[1].field == End;
    assert Controls(DiaperForm, f)[0].field == Time;
    var gs := Controls(GrowthForm, f);
    assert gs[0].field == Date && gs[1].field == Weight && gs[2].field == Height && gs[3].field == HeadCircumference;
  }

  /** A freshly reset form cannot be submitted again: its first required
      input is empty. */
  lemma InitialNotSubmittable(kind: Kind)
    ensures !Submittable(kind, Initial(kind))
  {
    var f := Initial(kind);
    assert Controls(kind, f)[0].required && Value(f, Controls(kind, f)[0].field) == "";
  }

  /** Every select starts on one of its own options, except the diaper
      color, which starts empty and is hidden until a soiled type is picked. */
  lemma InitialSelections()
    ensures Value(Initial(FeedingForm), Type) in Options(FeedingForm, Type)
    ensures Value(Initial(FeedingForm), Side) in Options(FeedingForm, Side)
    ensures Value(Initial(SleepForm), Quality) in Options(SleepForm, Quality)
    ensures Value(Initial(DiaperForm), Type) in Options(DiaperForm, Type)
    ensures Value(Initial(DiaperForm), Color) !in Options(DiaperForm, Color)
    ensures !Shown(DiaperForm, Initial(DiaperForm), Color)
  {
    var cs := Controls(DiaperForm, Initial(DiaperForm));
    assert |cs| == 2;
  }

  /** A reset empties every free input; only the selects keep a value. */
  lemma ResetClearsFreeInputs(kind: Kind, field: Field)
    requires field in Fields(kind) && Options(kind, field) == []
    ensures Value(Initial(kind), field) == ""
  {
  }

  /** `setNewX({...newX, field: value})`: that field takes the value and
      every other field keeps its own. */
  function Update(f: Form, field: Field, value: string): (r: Form)
    ensures Value(r, field) == value
    ensures forall g :: g != field ==> Value(r, g) == Value(f, g)
    ensures r.Keys == f.Keys + {field}
  {
    f[field := value]
  }

  /** An edit keeps a form well formed. */
  lemma UpdateKeepsWellFormed(kind: Kind, f: Form, field: Field, value: string)
    requires WellFormed(kind, f) && field in Fields(kind)
    ensures WellFormed(kind, Update(f, field, value))
  {
  }

  /** Switching a feeding to "Solid" hides the amount, side and duration
      but keeps their values: switching back shows them again as they were. */
  lemma StaleValuesKept(f: Form, back: string)
    ensures var g := Update(f, Type, "Solid");
            && Value(g, Amount) == Value(f, Amount) && Value(g, Side) == Value(f, Side)
            && Value(g, Duration) == Value(f, Duration)
            && !Shown(FeedingForm, g, Amount) && !Shown(FeedingForm, g, Side)
            && Update(g, Type, back) == Update(f, Type, back)
  {
    var g := Update(f, Type, "Solid");
    FeedingFieldRules(g);
  }

  /** The toast a submission shows: feeding and diaper name the submitted
      type, sleep and growth use fixed text. */
  function SubmitToast(kind: Kind, f: Form): (r: Toast)
    ensures r.variant == Plain && r.duration.None?
    ensures kind == FeedingForm ==> r.title == "Feeding logged" && r.description == Value(f, Type) + " feeding recorded successfully."
    ensures kind == SleepForm ==> r.title == "Sleep logged" && r.description == "Sleep session recorded successfully."
    ensures kind == DiaperForm ==> r.title == "Diaper logged" && r.description == Value(f, Type) + " diaper recorded successfully."
    ensures kind == GrowthForm ==> r.title == "Growth logged" && r.description == "Growth measurements recorded successfully."
  {
    match kind
    case FeedingForm => PlainToast("Feeding logged", Value(f, Type) + " feeding recorded successfully.")
    case SleepForm => PlainToast("Sleep logged", "Sleep session recorded successfully.")
    case DiaperForm => PlainToast("Diaper logged", Value(f, Type) + " diaper recorded successfully.")
    case GrowthForm => PlainToast("Growth logged", "Growth measurements recorded successfully.")
  }

  /** Pressing the save button: nothing happens while the browser blocks the
      form; otherwise the handler shows its toast and resets the form. */
  function Submit(kind: Kind, f: Form): (r: Option<(Toast, Form)>)
    ensures r.Some? <==> Submittable(kind, f)
    ensures r.Some? ==> r.value.1 == Initial(kind) && r.value.0 == SubmitToast(kind, f)
  {
    if Submittable(kind, f) then Some((SubmitToast(kind, f), Initial(kind))) else None
  }

  /** A second press right after a submission does nothing, because the
      reset form is incomplete. */
  lemma SubmitOnce(kind: Kind, f: Form)
    requires Submittable(kind, f)
    ensures Submit(kind, f).Some?
    ensures Submit(kind, Submit(kind, f).value.1).None?
  {
    InitialNotSubmittable(kind);
  }

  /** A solid-food feeding needs only its time, whatever the hidden amount
      and duration hold. */
  lemma SolidFeedingNeedsOnlyTime(f: Form)
    requires Value(f, Type) == "Solid" && Value(f, Time) != ""
    ensures Submit(FeedingForm, f).Some?
    ensures Submit(FeedingForm, f).value.0 == PlainToast("Feeding logged", "Solid feeding recorded successfully.")
  {
    SubmittableRules(f);
    SolidFeedingText();
  }

  lemma SolidFeedingText()
    ensures "Solid" + " feeding recorded successfully." == "Solid feeding recorded successfully."
  {
  }
}
