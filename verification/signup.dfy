/** The two-step signup wizard (src/pages/Signup.tsx): step 1 collects
    name, email and password, step 2 the baby's details. Typing a full
    name also fills the first and last names, split at the first space. */
module Signup {
  import opened Common
  import opened Text

  datatype Field =
    | Name | FirstName | LastName | Email | Password | ConfirmPassword | BabyName | BabyBirthDate

  datatype Form = Form(
    name: string,
    firstName: string,
    lastName: string,
    email: string,
    password: string,
    confirmPassword: string,
    babyName: string,
    babyBirthDate: string)

  const EmptyForm: Form := Form("", "", "", "", "", "", "", "")

  function Get(f: Form, field: Field): string {
    match field
    case Name => f.name
    case FirstName => f.firstName
    case LastName => f.lastName
    case Email => f.email
    case Password => f.password
    case ConfirmPassword => f.confirmPassword
    case BabyName => f.babyName
    case BabyBirthDate => f.babyBirthDate
  }

  /** `{ ...prev, [field]: value }`. */
  function Set(f: Form, field: Field, value: string): (r: Form)
    ensures Get(r, field) == value
    ensures forall g :: g != field ==> Get(r, g) == Get(f, g)
  {
    match field
    case Name => f.(name := value)
    case FirstName => f.(firstName := value)
    case LastName => f.(lastName := value)
    case Email => f.(email := value)
    case Password => f.(password := value)
    case ConfirmPassword => f.(confirmPassword := value)
    case BabyName => f.(babyName := value)
    case BabyBirthDate => f.(babyBirthDate := value)
  }

  /** The first and last name derived from a full name: with at least one
      space, the text before the first space and everything after it; with
      none, the whole name and "". */
  function SplitName(value: string): (r: (string, string)) {
    var pieces := Split(value, " ");
    if |pieces| > 1 then (pieces[0], Join(pieces[1..], " ")) else (value, "")
  }

  /** `handleChange`: stores the value; a change of the full name also
      rewrites the first and last names. */
  function HandleChange(f: Form, field: Field, value: string): (r: Form)
    ensures Get(r, field) == value
    ensures field != Name ==> r == Set(f, field, value)
    ensures field == Name ==> r == Set(f, Name, value).(firstName := SplitName(value).0, lastName := SplitName(value).1)
  {
    var r := Set(f, field, value);
    if field == Name then r.(firstName := SplitName(value).0, lastName := SplitName(value).1) else r
  }

  /** With a space in the name, first name, a space and last name
      reassemble the full name, and the first name is the text before the
      first space. */
  lemma NameRoundTrip(value: string, i: nat)
    requires OccursAt(value, " ", i)
    requires forall j :: 0 <= j < i ==> !OccursAt(value, " ", j)
    ensures SplitName(value).0 + " " + SplitName(value).1 == value
    ensures SplitName(value).0 == value[..i]
  {
    SplitFirstPiece(value, " ", i);
    var pieces := Split(value, " ");
    JoinSplit(value, " ");
    assert Join(pieces, " ") == pieces[0] + " " + Join(pieces[1..], " ");
  }

  /** A name without spaces is all first name. */
  lemma NameWithoutSpace(value: string)
    requires NoOccurrence(value, " ")
    ensures SplitName(value) == (value, "")
  {
    SplitWithoutSeparator(value, " ");
  }

  /** The first name never contains a space. */
  lemma FirstNameHasNoSpace(f: Form, value: string)
    ensures NoOccurrence(HandleChange(f, Name, value).firstName, " ")
  {
    var pieces := Split(value, " ");
    if |pieces| <= 1 {
      if !NoOccurrence(value, " ") {
        var i := FirstSpace(value);
        SplitFirstPiece(value, " ", i);
      }
    }
  }

  /** The position of the first space of a name that has one. */
  lemma FirstSpace(value: string) returns (i: nat)
    requires !NoOccurrence(value, " ")
    ensures OccursAt(value, " ", i)
    ensures forall j :: 0 <= j < i ==> !OccursAt(value, " ", j)
  {
    var r := IndexOf(value, " ");
    i := r.value;
  }

  /** Editing any field other than the full name changes only that field. */
  lemma OtherEditsAreLocal(f: Form, field: Field, value: string)
    requires field != Name
    ensures forall g :: g != field ==> Get(HandleChange(f, field, value), g) == Get(f, g)
  {
  }

  datatype Check = Passed | Rejected(message: string)

  const MismatchText: string := "Passwords do not match"
  const ShortPasswordText: string := "Password must be at least 6 characters"

  /** `validateStep1`: a mismatch is reported before a short password. */
  function ValidateStep1(f: Form): (r: Check)
    ensures r.Passed? <==> f.password == f.confirmPassword && |f.password| >= 6
    ensures f.password != f.confirmPassword ==> r == Rejected(MismatchText)
    ensures f.password == f.confirmPassword && |f.password| < 6 ==> r == Rejected(ShortPasswordText)
  {
    if f.password != f.confirmPassword then Rejected(MismatchText)
    else if |f.password| < 6 then Rejected(ShortPasswordText)
    else Passed
  }

  /** A short, mismatched password is reported as a mismatch by
      `validateStep1` itself; the page's own checks stop this input first. */
  lemma MismatchReportedFirst()
    ensures ValidateStep1(EmptyForm.(password := "abc", confirmPassword := "abd")) == Rejected(MismatchText)
    ensures !Step1Submittable(EmptyForm.(name := "Ann", email := "a@b.co", password := "abc", confirmPassword := "abd"), _ => true)
  {
  }

  /** The browser's checks on the step-1 form: every input is required,
      the e-mail must pass the browser's e-mail syntax check `isEmail`, and
      the password needs at least six characters. */
  predicate Step1Submittable(f: Form, isEmail: string -> bool) {
    f.name != "" && f.email != "" && isEmail(f.email) && |f.password| >= 6 && f.confirmPassword != ""
  }

  /** The browser's checks on the step-2 form: both baby fields are required. */
  predicate Step2Submittable(f: Form) {
    f.babyName != "" && f.babyBirthDate != ""
  }

  /** The wizard: current step, form, error banner and loading flag. */
  datatype Wizard = Wizard(step: nat, form: Form, error: string, isLoading: bool)

  const InitialWizard: Wizard := Wizard(1, EmptyForm, "", false)

  /** `handleNextStep`: clears the error, then either advances to step 2
      or shows the validation message and stays. */
  function NextStep(w: Wizard): (r: Wizard)
    ensures r.form == w.form && r.isLoading == w.isLoading
    ensures ValidateStep1(w.form).Passed? ==> r.step == 2 && r.error == ""
    ensures ValidateStep1(w.form).Rejected? ==> r.step == w.step && r.error == ValidateStep1(w.form).message
  {
    var w := w.(error := "");
    match ValidateStep1(w.form)
    case Passed => w.(step := 2)
    case Rejected(m) => w.(error := m)
  }

  /** Pressing "Continue" on step 1: the browser blocks a form that fails
      its checks, so nothing changes; otherwise `handleNextStep` runs. On
      the page the password is never too short when validation runs. */
  function PressNext(w: Wizard, isEmail: string -> bool): (r: Wizard)
    requires w.step == 1
    ensures r.form == w.form && r.isLoading == w.isLoading
    ensures !Step1Submittable(w.form, isEmail) ==> r == w
    ensures r.step == 2 <==> Step1Submittable(w.form, isEmail) && w.form.password == w.form.confirmPassword
    ensures Step1Submittable(w.form, isEmail) ==> r.error == (if r.step == 2 then "" else MismatchText)
  {
    if Step1Submittable(w.form, isEmail) then NextStep(w) else w
  }

  /** The short-password message never appears on the page: a press
      either changes nothing or shows no error or the mismatch. */
  lemma PageNeverReportsShortPassword(w: Wizard, isEmail: string -> bool)
    requires w.step == 1 && w.error != ShortPasswordText
    ensures PressNext(w, isEmail).error != ShortPasswordText
  {
  }

  /** A valid password with a short confirmation passes the browser and is
      reported as a mismatch. */
  lemma ShortConfirmationIsAMismatch()
    ensures var f := EmptyForm.(name := "Ann", email := "a@b.co", password := "secret", confirmPassword := "abc");
            var r := PressNext(InitialWizard.(form := f), _ => true);
            r.step == 1 && r.error == MismatchText
  {
  }

  /** The Back button of step 2. */
  function Back(w: Wizard): (r: Wizard)
    ensures r.step == 1 && r.form == w.form && r.error == w.error
  {
    w.(step := 1)
  }

  /** Step 2 is reached only with a valid step 1, and leaves the form intact. */
  lemma NextThenBack(w: Wizard)
    requires w.step == 1
    ensures NextStep(w).step == 2 <==> ValidateStep1(w.form).Passed?
    ensures Back(NextStep(w)).step == 1 && Back(NextStep(w)).form == w.form
  {
  }

  /** `handleSubmit` starts: loading on, error cleared. */
  function BeginSubmit(w: Wizard): (r: Wizard)
    ensures r.isLoading && r.error == "" && r.step == w.step && r.form == w.form
  {
    w.(isLoading := true, error := "")
  }

  const SignupFallback: string := "An error occurred during signup."

  /** `handleSubmit` settles: loading off; a failure shows its message, or
      the fallback when the message is missing or empty. */
  function FinishSubmit(w: Wizard, outcome: Outcome): (r: Wizard)
    ensures !r.isLoading && r.step == w.step && r.form == w.form
    ensures outcome.Succeeded? ==> r.error == w.error
    ensures outcome.Failed? ==> r.error == OrElse(outcome.message, SignupFallback)
  {
    match outcome
    case Succeeded => w.(isLoading := false)
    case Failed(m) => w.(isLoading := false, error := OrElse(m, SignupFallback))
  }

  /** Pressing "Create account" on step 2: the browser blocks a form
      without the baby's name or birth date; otherwise `handleSubmit` runs
      and settles. */
  function PressSubmit(w: Wizard, outcome: Outcome): (r: Wizard)
    ensures !Step2Submittable(w.form) ==> r == w
    ensures Step2Submittable(w.form) ==>
      !r.isLoading && r.step == w.step && r.form == w.form && (r.error != "" <==> outcome.Failed?)
  {
    if Step2Submittable(w.form) then FinishSubmit(BeginSubmit(w), outcome) else w
  }

  /** A submission always ends with loading off and, on failure, a
      non-empty error banner. */
  lemma SubmitSettles(w: Wizard, outcome: Outcome)
    ensures var r := FinishSubmit(BeginSubmit(w), outcome);
            !r.isLoading && (outcome.Failed? <==> r.error != "")
  {
  }
}
