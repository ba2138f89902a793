/** The slide-in menu for small screens (src/components/MobileMenu.tsx):
    the same links and user panel as the navigation bar, and actions that
    close the menu once they are done. The menu's open flag belongs to the
    navigation bar and is closed through the `onClose` callback. */
module MobileMenu {
  import opened Common
  import opened Text
  import opened Users
  import Navigation
  import Auth

  /** This component's own copy of `getUserInitials`. */
  function GetUserInitials(u: Option<User>): (r: string)
    ensures r == Navigation.GetUserInitials(u)
  {
    if u.None? then "U"
    else if Truthy(FirstNameOf(u)) && Truthy(LastNameOf(u)) then
      FirstChar(FirstNameOf(u).value) + FirstChar(LastNameOf(u).value)
    else
      OrElse(match u.value.email case Some(e) => Some(Upper(FirstChar(e))) case None => None, "U")
  }

  /** The menu after an action: whether it is still open, where the router
      went, and the toasts shown, in order. */
  datatype MenuEffect = MenuEffect(isOpen: bool, navigateTo: Option<string>, toasts: seq<Toast>)

  /** `handleSignOut`, given how the awaited `signOut` call behaved: the
      toasts it showed itself, then, if it resolved, the menu closes with a
      success toast; if it rejected, the menu stays as it was and a failure
      toast follows. */
  function HandleSignOut(isOpen: bool, signOut: Auth.CallResult): (r: MenuEffect)
    ensures r.navigateTo.None?
    ensures signOut.rejects ==> r == MenuEffect(isOpen, None, signOut.toasts + [Navigation.SignOutFailedToast])
    ensures !signOut.rejects ==> r == MenuEffect(false, None, signOut.toasts + [Navigation.SignedOutToast])
  {
    if signOut.rejects then MenuEffect(isOpen, None, signOut.toasts + [Navigation.SignOutFailedToast])
    else MenuEffect(false, None, signOut.toasts + [Navigation.SignedOutToast])
  }

  /** The open menu is closed exactly when `signOut` resolves. */
  lemma SignOutClosesIffResolved(signOut: Auth.CallResult)
    ensures !HandleSignOut(true, signOut).isOpen <==> !signOut.rejects
  {
  }

  /** Signing out through the menu with the context's `signOut` as it is
      written: the failure branch is unreachable, because `signOut`
      swallows its error. A backend failure closes the menu and shows
      "Sign out failed" followed by "Signed out successfully". */
  function SignOutAsWritten(outcome: Outcome): MenuEffect {
    HandleSignOut(true, Auth.SignOutCall(outcome))
  }

  lemma SignOutAsWrittenContradicts(message: string)
    ensures var r := SignOutAsWritten(Failed(Some(message)));
            && !r.isOpen
            && |r.toasts| == 2
            && r.toasts[0].title == "Sign out failed"
            && r.toasts[1] == Navigation.SignedOutToast
  {
  }

  /** Signing out with a `signOut` that rethrows after its toast: the menu
      closes and the success toast appears only when the backend call
      succeeded; a failure leaves the menu open with failure toasts only. */
  function SignOutCorrected(outcome: Outcome): MenuEffect {
    HandleSignOut(true, Auth.SignOutRethrowing(outcome))
  }

  lemma SignOutCorrectedIsConsistent(outcome: Outcome)
    ensures !SignOutCorrected(outcome).isOpen <==> outcome.Succeeded?
    ensures Navigation.SignedOutToast in SignOutCorrected(outcome).toasts <==> outcome.Succeeded?
    ensures outcome.Failed? ==> forall t :: t in SignOutCorrected(outcome).toasts ==> t.variant == Destructive
  {
  }

  /** What the login button, the profile button and every link do: the
      router goes to the path, then the menu closes, silently. */
  function GoThenClose(path: string): (r: MenuEffect)
    ensures !r.isOpen && r.navigateTo == Some(path) && r.toasts == []
  {
    MenuEffect(false, Some(path), [])
  }

  /** `handleLogin`. */
  const HandleLogin: MenuEffect := GoThenClose("/login")

  /** `handleProfileClick`. */
  const HandleProfileClick: MenuEffect := GoThenClose("/profile")

  /** A navigation link: the router follows it and the menu closes. */
  function FollowLink(item: Navigation.NavItem): (r: MenuEffect)
    ensures !r.isOpen && r.navigateTo == Some(item.path) && r.toasts == []
  {
    GoThenClose(item.path)
  }

  /** Every navigating action closes the menu without a toast, and each
      goes where its own target says: login and profile to different pages,
      a link to its own path. */
  lemma NavigatingActionsClose(item: Navigation.NavItem)
    ensures !HandleLogin.isOpen && !HandleProfileClick.isOpen && !FollowLink(item).isOpen
    ensures HandleLogin.toasts == [] && HandleProfileClick.toasts == [] && FollowLink(item).toasts == []
    ensures HandleLogin.navigateTo != HandleProfileClick.navigateTo
    ensures FollowLink(item).navigateTo == Some(item.path)
  {
  }
}
