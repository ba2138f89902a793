/** The top navigation bar (src/components/Navigation.tsx): the six main
    links, the highlighting of the current one, and the signed-in user's
    avatar initials, name and sign-out action. */
module Navigation {
  import opened Common
  import opened Text
  import opened Users
  import Auth
  import Signup

  /** `getUserInitials`: "U" without a user; the first characters of first
      and last name (case kept) when both are non-empty; otherwise the
      upper-cased first character of the email, or "U" when there is no
      email or it is empty. */
  function GetUserInitials(u: Option<User>): (r: string)
    ensures u.None? ==> r == "U"
    ensures u.Some? && Truthy(FirstNameOf(u)) && Truthy(LastNameOf(u)) ==>
      r == [FirstNameOf(u).value[0], LastNameOf(u).value[0]]
    ensures u.Some? && !(Truthy(FirstNameOf(u)) && Truthy(LastNameOf(u))) ==>
      r == (if Truthy(u.value.email) then [UpperChar(u.value.email.value[0])] else "U")
  {
    if u.None? then "U"
    else if Truthy(FirstNameOf(u)) && Truthy(LastNameOf(u)) then
      FirstChar(FirstNameOf(u).value) + FirstChar(LastNameOf(u).value)
    else
      OrElse(match u.value.email case Some(e) => Some(Upper(FirstChar(e))) case None => None, "U")
  }

  /** The initials are one or two characters long. */
  lemma InitialsLength(u: Option<User>)
    ensures 1 <= |GetUserInitials(u)| <= 2
  {
  }

  /** An email's initial is upper-cased only in the email case; the name
      initials keep their case. */
  lemma InitialsExamples()
    ensures GetUserInitials(Some(User("1", Some("jane@example.com"), None))) == "J"
    ensures GetUserInitials(Some(User("1", Some("jane@example.com"),
              Some(Metadata(Some("jane"), Some("doe"), None, None, None))))) == "jd"
    ensures GetUserInitials(Some(User("1", Some(""), Some(Metadata(Some("Jane"), Some(""), None, None, None))))) == "U"
  {
    assert Upper("j") == "J";
  }

  /** `isActive`: exact path equality, no prefix matching. */
  predicate IsActive(pathname: string, path: string) {
    pathname == path
  }

  datatype NavItem = NavItem(name: string, path: string)

  const NavItems: seq<NavItem> := [
    NavItem("Home", "/"),
    NavItem("Resources", "/resources"),
    NavItem("Wellness", "/wellness"),
    NavItem("Community", "/community"),
    NavItem("Tracking", "/tracking"),
    NavItem("Emergency", "/emergency")
  ]

  /** The six links have pairwise distinct paths, so at most one of them
      is highlighted on any page, and "Home" only at the root. */
  lemma AtMostOneActive(pathname: string)
    ensures |NavItems| == 6
    ensures forall i, j :: 0 <= i < j < |NavItems| ==> NavItems[i].path != NavItems[j].path
    ensures forall i, j ::
      0 <= i < |NavItems| && 0 <= j < |NavItems| && IsActive(pathname, NavItems[i].path) && IsActive(pathname, NavItems[j].path)
      ==> i == j
    ensures IsActive(pathname, NavItems[0].path) <==> pathname == "/"
  {
  }

  /** The name line of the user panel: shown only when the first name is
      truthy, as first name, a space and the last name (or nothing, which
      leaves a trailing space). */
  function DisplayName(u: Option<User>): (r: Option<string>)
    ensures r.Some? <==> Truthy(FirstNameOf(u))
    ensures r.Some? ==> r.value == FirstNameOf(u).value + " " + OrElse(LastNameOf(u), "")
  {
    if Truthy(FirstNameOf(u)) then Some(FirstNameOf(u).value + " " + OrElse(LastNameOf(u), "")) else None
  }

  /** A user with only a first name is shown with a trailing space. */
  lemma DisplayNameTrailingSpace(id: string, first: string)
    requires first != ""
    ensures DisplayName(Some(User(id, None, Some(Metadata(Some(first), None, None, None, None))))) == Some(first + " ")
  {
    assert first + " " + "" == first + " ";
  }

  const SignedOutToast: Toast := PlainToast("Signed out successfully", "You have been signed out of your account")
  const SignOutFailedToast: Toast := ErrorToast("Sign out failed", "An error occurred while signing out")

  /** `handleSignOut` of the dropdown, given how the awaited `signOut`
      call behaved: the toasts it showed itself, then the success toast if
      it resolved or the failure toast if it rejected. */
  function HandleSignOut(signOut: Auth.CallResult): (r: seq<Toast>)
    ensures !signOut.rejects ==> r == signOut.toasts + [SignedOutToast]
    ensures signOut.rejects ==> r == signOut.toasts + [SignOutFailedToast]
  {
    signOut.toasts + [if signOut.rejects then SignOutFailedToast else SignedOutToast]
  }

  /** With the context's `signOut` as written, a failed sign-out from the
      dropdown also ends with "Signed out successfully". */
  lemma DropdownSignOutAsWritten(message: string)
    ensures var r := HandleSignOut(Auth.SignOutCall(Failed(Some(message))));
            |r| == 2 && r[0].title == "Sign out failed" && r[0].variant == Destructive && r[1] == SignedOutToast
  {
  }

  /** With the rethrowing `signOut`, the dropdown's last toast is the
      success toast exactly when the backend call succeeded. */
  lemma DropdownSignOutCorrected(outcome: Outcome)
    ensures var r := HandleSignOut(Auth.SignOutRethrowing(outcome));
            |r| >= 1 && (r[|r| - 1] == SignedOutToast <==> outcome.Succeeded?)
  {
  }

  /** A name entered at signup is shown back whole: when the full name
      has its first space after a non-empty first word, the first and last
      names it is split into display as the original name. */
  lemma SignupNameDisplayed(id: string, email: Option<string>, name: string, i: nat)
    requires 0 < i && OccursAt(name, " ", i)
    requires forall j :: 0 <= j < i ==> !OccursAt(name, " ", j)
    ensures var (first, last) := Signup.SplitName(name);
            DisplayName(Some(User(id, email, Some(Metadata(Some(first), Some(last), None, None, None))))) == Some(name)
  {
    Signup.NameRoundTrip(name, i);
    var (first, last) := Signup.SplitName(name);
    assert first == name[..i];
    assert OrElse(Some(last), "") == last;
  }
}
