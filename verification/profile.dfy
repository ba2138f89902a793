/** The profile page (src/pages/Profile.tsx): an editable form over the
    user's metadata, an avatar upload, and the save action. The storage
    and auth backends are parameters: each call's settlement is an
    `Outcome`, the public URL of a stored file is a function of its path,
    and the random token of the avatar name is passed in. */
module Profile {
  import opened Common
  import opened Text
  import opened Users
  import Navigation

  /** This page's own copy of `getUserInitials`. */
  function GetUserInitials(u: Option<User>): (r: string)
    ensures r == Navigation.GetUserInitials(u)
  {
    if u.None? then "U"
    else if Truthy(FirstNameOf(u)) && Truthy(LastNameOf(u)) then
      FirstChar(FirstNameOf(u).value) + FirstChar(LastNameOf(u).value)
    else
      OrElse(match u.value.email case Some(e) => Some(Upper(FirstChar(e))) case None => None, "U")
  }

  // ---------------------------------------------------------------------
  // Calendar dates and the "yyyy-MM-dd" format

  /** A calendar date as the date picker yields it (time zones are not modelled). */
  datatype Date = Date(year: nat, month: nat, day: nat)

  /** The form's birth date: a calendar date, or the Invalid Date that
      `new Date(...)` yields for a stored string it cannot parse. */
  datatype BirthDate = Picked(date: Date) | InvalidDate

  predicate ValidDate(d: Date) {
    d.year <= 9999 && 1 <= d.month <= 12 && 1 <= d.day <= 31
  }

  function Pow10(w: nat): (r: nat)
    ensures r >= 1
  {
    if w == 0 then 1 else 10 * Pow10(w - 1)
  }

  predicate IsDigit(c: char) {
    '0' <= c <= '9'
  }

  function DigitChar(d: nat): (c: char)
    requires d < 10
    ensures IsDigit(c) && (c as int) - ('0' as int) == d
  {
    (('0' as int) + d) as char
  }

  /** `n` written with exactly `w` decimal digits, zero-padded on the left. */
  function PadNumber(n: nat, w: nat): (r: string)
    ensures |r| == w
    ensures forall k :: 0 <= k < w ==> IsDigit(r[k])
  {
    if w == 0 then "" else PadNumber(n / 10, w - 1) + [DigitChar(n % 10)]
  }

  function DigitValue(c: char): nat
    requires IsDigit(c)
  {
    (c as int) - ('0' as int)
  }

  /** The number a string of decimal digits denotes. */
  function DigitsValue(s: string): nat
    requires forall k :: 0 <= k < |s| ==> IsDigit(s[k])
  {
    if s == [] then 0 else 10 * DigitsValue(s[..|s| - 1]) + DigitValue(s[|s| - 1])
  }

  /** Reading back a padded number gives the number, when it fits. */
  lemma {:induction false} PadNumberValue(n: nat, w: nat)
    requires n < Pow10(w)
    ensures DigitsValue(PadNumber(n, w)) == n
  {
    if w > 0 {
      PadNumberValue(n / 10, w - 1);
      var s := PadNumber(n, w);
      assert s[..|s| - 1] == PadNumber(n / 10, w - 1);
    }
  }

  /** `format(date, 'yyyy-MM-dd')`. */
  function FormatDate(d: Date): (r: string)
    ensures |r| == 10 && r[4] == '-' && r[7] == '-'
  {
    PadNumber(d.year, 4) + "-" + PadNumber(d.month, 2) + "-" + PadNumber(d.day, 2)
  }

  /** An ISO calendar date "yyyy-MM-dd", if `s` has that shape. */
  function ParseIsoDate(s: string): Option<Date> {
    if |s| == 10 && s[4] == '-' && s[7] == '-'
       && (forall k :: 0 <= k < 10 && k != 4 && k != 7 ==> IsDigit(s[k]))
    then Some(Date(DigitsValue(s[..4]), DigitsValue(s[5..7]), DigitsValue(s[8..])))
    else None
  }

  /** The 'yyyy-MM-dd' text of a valid date decodes back to that date
      under the ISO reading of the text. */
  lemma FormatDateRoundTrip(d: Date)
    requires ValidDate(d)
    ensures ParseIsoDate(FormatDate(d)) == Some(d)
  {
    var s := FormatDate(d);
    assert s[..4] == PadNumber(d.year, 4);
    assert s[5..7] == PadNumber(d.month, 2);
    assert s[8..] == PadNumber(d.day, 2);
    PadNumberValue(d.year, 4);
    PadNumberValue(d.month, 2);
    PadNumberValue(d.day, 2);
  }

  // ---------------------------------------------------------------------
  // The form

  datatype ProfileForm = ProfileForm(firstName: string, lastName: string, babyName: string, babyBirthDate: Option<BirthDate>)

  /** `new Date(text)`, given the calendar date the browser reads from the
      text, or none when it cannot read one. */
  function ReadStoredDate(parsed: Option<Date>): (r: BirthDate)
    ensures r.InvalidDate? <==> parsed.None?
    ensures r.Picked? ==> r.date == parsed.value
  {
    match parsed
    case Some(d) => Picked(d)
    case None => InvalidDate
  }

  /** The form's initial values: each text field is the stored value, or
      "" when it is missing or empty; the birth date is the stored one,
      read by `parse`, only when one is stored, and the Invalid Date when
      `parse` cannot read it. */
  function InitialForm(u: Option<User>, parse: string -> Option<Date>): (r: ProfileForm)
    ensures r.firstName == OrElse(FirstNameOf(u), "")
    ensures r.lastName == OrElse(LastNameOf(u), "")
    ensures r.babyName == OrElse(BabyNameOf(u), "")
    ensures r.babyBirthDate.Some? <==> Truthy(BabyBirthDateOf(u))
    ensures r.babyBirthDate.Some? ==> (r.babyBirthDate.value.InvalidDate? <==> parse(BabyBirthDateOf(u).value).None?)
    ensures r.babyBirthDate.Some? && r.babyBirthDate.value.Picked? ==>
      Some(r.babyBirthDate.value.date) == parse(BabyBirthDateOf(u).value)
  {
    ProfileForm(OrElse(FirstNameOf(u), ""), OrElse(LastNameOf(u), ""), OrElse(BabyNameOf(u), ""),
                if Truthy(BabyBirthDateOf(u)) then Some(ReadStoredDate(parse(BabyBirthDateOf(u).value))) else None)
  }

  /** Without metadata every field starts empty. */
  lemma DefaultsWithoutMetadata(u: Option<User>, parse: string -> Option<Date>)
    requires u.None? || u.value.metadata.None?
    ensures InitialForm(u, parse) == ProfileForm("", "", "", None)
  {
  }

  datatype TextField = FirstNameField | LastNameField | BabyNameField

  /** `handleInputChange`: sets one text field. */
  function HandleInputChange(f: ProfileForm, field: TextField, value: string): (r: ProfileForm)
    ensures field == FirstNameField ==> r == f.(firstName := value)
    ensures field == LastNameField ==> r == f.(lastName := value)
    ensures field == BabyNameField ==> r == f.(babyName := value)
  {
    match field
    case FirstNameField => f.(firstName := value)
    case LastNameField => f.(lastName := value)
    case BabyNameField => f.(babyName := value)
  }

  /** `handleDateChange`: the picked date, or none when the picker is cleared. */
  function HandleDateChange(f: ProfileForm, d: Option<Date>): (r: ProfileForm)
    ensures r.(babyBirthDate := f.babyBirthDate) == f
    ensures r.babyBirthDate.Some? <==> d.Some?
    ensures d.Some? ==> r.babyBirthDate == Some(Picked(d.value))
  {
    f.(babyBirthDate := if d.Some? then Some(Picked(d.value)) else None)
  }

  // ---------------------------------------------------------------------
  // Page state, avatar upload and save

  datatype Page = Page(form: ProfileForm, avatarUrl: Option<string>, loading: bool, uploading: bool)

  /** What an action did: the new page state, the backend request it made
      (if any) and the toasts shown. */
  datatype Effect<Req> = Effect(page: Page, request: Option<Req>, toasts: seq<Toast>)

  /** The storage path of a new avatar: "avatars/", the user id, a dash,
      the random token, a dot and the extension of the chosen file. */
  function AvatarPath(userId: string, token: string, fileName: string): (r: string)
    ensures var prefix := "avatars/" + userId + "-" + token + ".";
            |r| >= |prefix| && r[..|prefix|] == prefix && IsExtension(r[|prefix|..], fileName)
  {
    var prefix := "avatars/" + userId + "-" + token + ".";
    var r := prefix + AfterLast(fileName, ".");
    assert r[|prefix|..] == AfterLast(fileName, ".");
    r
  }

  /** The extension is what follows the last dot, or the whole name when
      there is none. */
  lemma AvatarExtension(fileName: string)
    ensures NoOccurrence(fileName, ".") ==> AfterLast(fileName, ".") == fileName
    ensures !NoOccurrence(fileName, ".") ==>
      fileName == fileName[..|fileName| - |AfterLast(fileName, ".")| - 1] + "." + AfterLast(fileName, ".")
    ensures NoOccurrence(AfterLast(fileName, "."), ".")
  {
    var e := AfterLast(fileName, ".");
    if !NoOccurrence(fileName, ".") {
      var i := |fileName| - |e| - 1;
      assert fileName[i..i + 1] == ".";
      assert fileName == fileName[..i] + fileName[i..i + 1] + fileName[i + 1..];
    }
  }

  /** A name with a dot keeps only what follows it. */
  lemma AvatarPathWithExtension()
    ensures AvatarPath("u1", "k3x", "me.png") == "avatars/u1-k3x.png"
  {
    AfterLastChar("me", '.', "png");
    assert "me" + ['.'] + "png" == "me.png";
  }

  /** A name without a dot is used whole as the extension. */
  lemma AvatarPathWithoutExtension()
    ensures AvatarPath("u1", "k3x", "photo") == "avatars/u1-k3x.photo"
  {
    NoOccurrenceWithoutChar("photo", ".");
  }

  /** How an awaited call without a checked result settled: it resolved
      (whatever it returned) or it threw. */
  datatype Settled = Resolved | Threw

  /** The requests of an avatar upload: the storage path, and the URL
      written to the user's metadata when the upload went through. */
  datatype AvatarRequests = AvatarRequests(uploadPath: string, metadataAvatarUrl: Option<string>)

  const AvatarUpdatedToast: Toast := PlainToast("Avatar updated", "Your profile picture has been updated successfully")
  const AvatarFailedToast: Toast := ErrorToast("Upload failed", "There was a problem uploading your avatar")

  /** `handleUploadAvatar`: without a file or a user nothing happens.
      Otherwise the file is uploaded under `AvatarPath`; when that succeeds
      its public URL is written to the user's metadata, whose returned
      error is not checked. Only when both calls got through does the page
      show the new avatar; any failure, including a thrown metadata write,
      gives one destructive toast. Either way uploading ends. */
  function UploadAvatar(p: Page, fileName: Option<string>, u: Option<User>, token: string,
                        upload: Outcome, metadata: Settled, urlFor: string -> string): (r: Effect<AvatarRequests>)
    ensures fileName.None? || u.None? ==> r == Effect(p, None, [])
    ensures fileName.Some? && u.Some? ==>
      && r.request.Some?
      && r.request.value.uploadPath == AvatarPath(u.value.id, token, fileName.value)
      && (r.request.value.metadataAvatarUrl.Some? <==> upload.Succeeded?)
      && (upload.Succeeded? ==> r.request.value.metadataAvatarUrl == Some(urlFor(r.request.value.uploadPath)))
      && !r.page.uploading && r.page.form == p.form && r.page.loading == p.loading
    ensures fileName.Some? && u.Some? && upload.Succeeded? && metadata.Resolved? ==>
      r.page.avatarUrl == r.request.value.metadataAvatarUrl && r.toasts == [AvatarUpdatedToast]
    ensures fileName.Some? && u.Some? && (upload.Failed? || metadata.Threw?) ==>
      r.page.avatarUrl == p.avatarUrl && r.toasts == [AvatarFailedToast]
  {
    if fileName.None? || u.None? then Effect(p, None, [])
    else
      var path := AvatarPath(u.value.id, token, fileName.value);
      var done := p.(uploading := false);
      match upload
      case Failed(_) => Effect(done, Some(AvatarRequests(path, None)), [AvatarFailedToast])
      case Succeeded =>
        var url := urlFor(path);
        var req := Some(AvatarRequests(path, Some(url)));
        match metadata
        case Resolved => Effect(done.(avatarUrl := Some(url)), req, [AvatarUpdatedToast])
        case Threw => Effect(done, req, [AvatarFailedToast])
  }

  /** The effect that shows the avatar recorded in the user's metadata,
      when there is one, over the avatar currently shown. */
  function ShownAvatar(u: Option<User>, current: Option<string>): (r: Option<string>)
    ensures Truthy(AvatarUrlOf(u)) ==> r == AvatarUrlOf(u)
    ensures !Truthy(AvatarUrlOf(u)) ==> r == current
  {
    if Truthy(AvatarUrlOf(u)) then AvatarUrlOf(u) else current
  }

  /** The user after the metadata write of an upload: the avatar URL set,
      every other entry kept. */
  function WithAvatar(u: User, url: string): User {
    var m := if u.metadata.Some? then u.metadata.value else Metadata(None, None, None, None, None);
    u.(metadata := Some(m.(avatarUrl := Some(url))))
  }

  /** Once the metadata write has reached the user, the page shows the same
      avatar as it did right after the upload, on any later render. */
  lemma UploadedAvatarShownAgain(p: Page, fileName: string, u: User, token: string,
                                 urlFor: string -> string, later: Option<string>)
    requires urlFor(AvatarPath(u.id, token, fileName)) != ""
    ensures var r := UploadAvatar(p, Some(fileName), Some(u), token, Succeeded, Resolved, urlFor);
            ShownAvatar(Some(WithAvatar(u, r.request.value.metadataAvatarUrl.value)), later) == r.page.avatarUrl
  {
  }

  /** The metadata the save action sends. */
  datatype ProfileUpdate = ProfileUpdate(firstName: string, lastName: string, babyName: string, babyBirthDate: Option<string>)

  /** date-fns' error for formatting an Invalid Date. */
  const InvalidTimeValue: string := "Invalid time value"

  /** `handleSubmit`: without a user nothing happens. An Invalid Date in
      the form makes `format` throw before anything is sent. Otherwise the
      form is sent with the birth date as "yyyy-MM-dd" (omitted when
      unset). Loading ends whatever the outcome. */
  function SaveProfile(p: Page, u: Option<User>, outcome: Outcome): (r: Effect<ProfileUpdate>)
    ensures u.None? ==> r == Effect(p, None, [])
    ensures u.Some? ==> !r.page.loading && r.page.uploading == p.uploading && r.page.form == p.form
    ensures u.Some? && p.form.babyBirthDate == Some(InvalidDate) ==>
      r.request.None? && r.toasts == [ErrorToast("Update failed", InvalidTimeValue)]
    ensures u.Some? && p.form.babyBirthDate != Some(InvalidDate) ==>
      && r.request.Some?
      && r.request.value.firstName == p.form.firstName
      && r.request.value.lastName == p.form.lastName
      && r.request.value.babyName == p.form.babyName
      && (r.request.value.babyBirthDate.Some? <==> p.form.babyBirthDate.Some?)
      && (p.form.babyBirthDate.Some? ==> r.request.value.babyBirthDate == Some(FormatDate(p.form.babyBirthDate.value.date)))
      && (outcome.Succeeded? ==> r.toasts == [PlainToast("Profile updated", "Your profile has been updated successfully")])
      && (outcome.Failed? ==> r.toasts == [ErrorToast("Update failed", OrElse(outcome.message, "There was a problem updating your profile"))])
  {
    if u.None? then Effect(p, None, [])
    else if p.form.babyBirthDate == Some(InvalidDate) then
      Effect(p.(loading := false), None, [ErrorToast("Update failed", InvalidTimeValue)])
    else
      var date := match p.form.babyBirthDate case Some(d) => Some(FormatDate(d.date)) case None => None;
      var req := ProfileUpdate(p.form.firstName, p.form.lastName, p.form.babyName, date);
      var toast := match outcome
        case Succeeded => PlainToast("Profile updated", "Your profile has been updated successfully")
        case Failed(m) => ErrorToast("Update failed", OrElse(m, "There was a problem updating your profile"));
      Effect(p.(loading := false), Some(req), [toast])
  }

  /** A picked birth date is sent as text that decodes back to it under
      the ISO reading. */
  lemma SavedDateReadsBack(p: Page, u: Option<User>, outcome: Outcome)
    requires u.Some? && p.form.babyBirthDate.Some? && p.form.babyBirthDate.value.Picked?
    requires ValidDate(p.form.babyBirthDate.value.date)
    ensures ParseIsoDate(SaveProfile(p, u, outcome).request.value.babyBirthDate.value) == Some(p.form.babyBirthDate.value.date)
  {
    FormatDateRoundTrip(p.form.babyBirthDate.value.date);
  }

  /** Edits reach the backend: after typing into one text field and picking
      a valid date, a save sends the typed text in that field and a date
      that decodes back to the picked one. Picking a date also repairs an
      unreadable stored date. */
  lemma EditsReachSave(p: Page, u: User, field: TextField, value: string, d: Date, outcome: Outcome)
    requires ValidDate(d)
    ensures var f := HandleDateChange(HandleInputChange(p.form, field, value), Some(d));
            var r := SaveProfile(p.(form := f), Some(u), outcome);
            && r.request.Some? && r.request.value.babyBirthDate.Some?
            && ParseIsoDate(r.request.value.babyBirthDate.value) == Some(d)
            && (field == FirstNameField ==> r.request.value.firstName == value)
            && (field == LastNameField ==> r.request.value.lastName == value)
            && (field == BabyNameField ==> r.request.value.babyName == value)
  {
    var f := HandleDateChange(HandleInputChange(p.form, field, value), Some(d));
    SavedDateReadsBack(p.(form := f), Some(u), outcome);
  }

  /** A stored birth date the browser cannot read blocks every save from
      the freshly loaded page: nothing is sent and "Update failed" shows. */
  lemma UnreadableStoredDateBlocksSave(u: User, parse: string -> Option<Date>, outcome: Outcome,
                                       avatar: Option<string>)
    requires Truthy(BabyBirthDateOf(Some(u))) && parse(BabyBirthDateOf(Some(u)).value).None?
    ensures var r := SaveProfile(Page(InitialForm(Some(u), parse), avatar, false, false), Some(u), outcome);
            r.request.None? && r.toasts == [ErrorToast("Update failed", InvalidTimeValue)]
  {
  }
}
