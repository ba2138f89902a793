# MomCare core, modelled in Dafny

MomCare is a React web app for new mothers. This project models the parts
of it that carry decisions of their own, as pure functions over immutable
datatypes:

- **The assistant chat** (`AssistantRules`, `AssistantChat`). The
  rule-based classifier lower-cases the input and walks an ordered table of
  eleven keyword rules; the first rule with a keyword that is a substring
  wins, and a fixed fallback answers everything else. Around it sit the
  floating window's open/minimise toggles, the blank-input submit guard and
  the append-only transcript. The reply timer is an explicit `Respond` step
  that consumes a queue of captured inputs.
- **The resource library filter** (`Resources`): a category tab plus a
  case-insensitive title search.
- **The signup wizard** (`Signup`): the full-name split, step-1 password
  validation, and the step and loading transitions.
- **The authentication context** (`Auth`). It covers:
  - the friendly error texts;
  - the toasts and rejections of each auth call;
  - the state update and redirect caused by each auth event;
  - the Google return URL;
  - the `useAuth` guard.
- **The navigation bar, mobile menu and profile page** (`Navigation`,
  `MobileMenu`, `Profile`). They cover the three copies of the user
  initials, the active link, the display name, the close-after-action
  rules, and the profile form. The form parts are the defaults, the saved
  date format and the avatar storage path.
- **The tracking forms** (`Tracking`): which inputs each form renders and
  requires, the browser's required-field gate, and the reset after a
  submission.
- **The emergency page** (`Emergency`): the hospital selection, the
  contact and service fallbacks, and the first-aid step preview. The
  preview splits the step string several times.
- **Sample-data seeding** (`DummyData`): the per-table error prefixes,
  stop-at-first-error order, and the summary message.
- **The storage helpers** (`Storage`): the unique object path that keeps
  the file's extension, and the URL/`null`/`false` results with their
  toasts.

`Common` holds `Option`, `Result`, call outcomes and toasts. `Text` holds
the JavaScript string operations the source relies on, as used here:
`toLowerCase`, `includes`, `indexOf`, `split`, `join`, `pop` of a split,
`trim` and `charAt`.

The backend (Supabase auth, database and storage), the router,
`sessionStorage`, timers, clocks and random ids are not called. A call's
settlement is an input such as `Outcome`, `UploadReply` or `TableOutcome`.
`sessionStorage` is a map, and a navigation is returned as data. Ids,
timestamps and random tokens are parameters.

## Model

| member | source | states |
|---|---|---|
| `AssistantRules.Recognise` | src/components/AssistantChat.tsx:82-123 | the intent is the fallback exactly when no rule fires on the lower-cased input; otherwise it is the intent of some rule of the table |
| `AssistantRules.Classify` | src/components/AssistantChat.tsx:86-123 | the reply is always one of the twelve fixed texts |
| `AssistantRules.ReplyInjective` | src/components/AssistantChat.tsx:89-122 | the twelve reply texts are pairwise distinct, so a reply identifies its intent |
| `AssistantRules.RuleIntentsDistinct` | src/components/AssistantChat.tsx:88-120 | the eleven rules have pairwise distinct intents, none of them the fallback |
| `AssistantRules.FirstFiring` | src/components/AssistantChat.tsx:88-123 | the index found is a firing rule with no firing rule before it; none found means no rule from the start index fires |
| `AssistantRules.FirstMatchWins` | src/components/AssistantChat.tsx:88-120 | the reply is rule k's exactly when rule k fires and no earlier rule does |
| `AssistantRules.FallbackIffNoKeyword` | src/components/AssistantChat.tsx:121-123 | the fallback reply is given if and only if no keyword of any rule is a substring of the lower-cased input |
| `AssistantRules.GreetingTakesPrecedence` | src/components/AssistantChat.tsx:88-90 | any input whose lower-case form contains "hello" or "hi" gets the greeting, whatever else it contains |
| `AssistantRules.HiMatchesInsideWords` | src/components/AssistantChat.tsx:88 | "is this an emergency" gets the greeting, because "this" contains "hi" |
| `AssistantRules.UpperCaseGreeting` | src/components/AssistantChat.tsx:83 | "HELLO" gets the greeting |
| `AssistantRules.CaseInsensitive` | src/components/AssistantChat.tsx:83 | classifying an input and classifying its lower-case form give the same reply |
| `AssistantRules.TrackingKeywordRedundant` | src/components/AssistantChat.tsx:91 | the tracking rule fires exactly when "track" is a substring; its second keyword adds nothing |
| `AssistantRules.TrackReplyIff` | src/components/AssistantChat.tsx:88-93 | the tracking reply is given exactly when the greeting rule does not fire and the input contains "track" |
| `AssistantRules.EveryKeywordSelectsItsRule` | src/components/AssistantChat.tsx:88-120 | every keyword of every rule, entered on its own, gets that rule's reply: no keyword is shadowed by an earlier rule |
| `AssistantRules.NotShadowed` | src/components/AssistantChat.tsx:88-120 | no keyword of a rule makes an earlier rule fire |
| `AssistantRules.AnyKeywordFromMeans` | src/components/AssistantChat.tsx:88 | the OR of substring tests holds exactly when some keyword from that position on is a substring |
| `AssistantRules.FiresMeans` | src/components/AssistantChat.tsx:88 | a rule fires exactly when one of its keywords is a substring of the text |
| `AssistantChat.Initial` | src/components/AssistantChat.tsx:19-31 | the initial chat is closed, not minimised, not typing, with an empty input and only the welcome message (id "welcome"), and satisfies the transcript invariant |
| `AssistantChat.ToggleChat` | src/components/AssistantChat.tsx:40-52 | the open flag flips and the minimised flag is cleared; every other part of the chat, the typing indicator included, is unchanged; the welcome toast is emitted on every opening, not only the first |
| `AssistantChat.ToggleChatTwice` | src/components/AssistantChat.tsx:40-52 | toggling twice restores the chat except for the minimised flag, and exactly one of the two toggles emits the toast |
| `AssistantChat.ToastOnEveryOpening` | src/components/AssistantChat.tsx:44-51 | the toast appears again on the second opening |
| `AssistantChat.ToggleMinimize` | src/components/AssistantChat.tsx:54-56 | only the minimised flag changes |
| `AssistantChat.SetInput` | src/components/AssistantChat.tsx:29 | typing changes only the input box |
| `AssistantChat.Submit` | src/components/AssistantChat.tsx:58-80 | a blank input (after trimming) changes nothing; otherwise exactly one user message holding the raw untrimmed input is appended, the input is cleared, typing is shown and that input is queued for a reply |
| `AssistantChat.Respond` | src/components/AssistantChat.tsx:76-79 | the reply timer appends exactly one assistant message, the classifier's answer to the input it captured, hides the typing indicator and leaves the earlier transcript and the window flags alone |
| `AssistantChat.TextsOfAppend` | src/components/AssistantChat.tsx:71 | appending a message extends the user or the assistant texts by its content, according to its role |
| `AssistantChat.SubmitKeepsValid` | src/components/AssistantChat.tsx:58-80 | a submission keeps the transcript invariant: each answer is the classifier's reply to the question at its position, the unanswered questions are the queued ones, no question is blank |
| `AssistantChat.AskKeepsValid` | src/components/AssistantChat.tsx:64-73 | appending a non-blank question and queuing it keeps the invariant |
| `AssistantChat.AskKeepsTranscript` | src/components/AssistantChat.tsx:64-73 | the question/answer correspondence survives a new question |
| `AssistantChat.RespondKeepsValid` | src/components/AssistantChat.tsx:125-132 | a reply keeps the transcript invariant |
| `AssistantChat.UiStepsKeepValid` | src/components/AssistantChat.tsx:40-56 | opening, closing, minimising and typing keep the invariant |
| `AssistantChat.QuestionThenAnswer` | src/components/AssistantChat.tsx:64-79 | in a quiet chat a question is followed directly by the classifier's answer to it |
| `AssistantChat.TypingHiddenWhileReplyPending` | src/components/AssistantChat.tsx:76-79 | with two questions in flight, the first reply hides the typing indicator although the second reply is still pending |
| `Resources.Filter` | src/pages/Resources.tsx:91-99 | an item is kept exactly when the tab is "All" or its category, and its lower-cased title contains the lower-cased term; the result is an order-preserving subsequence of the list that holds each kept item exactly as often as the list does |
| `Resources.EmptyStateIffNoneKept` | src/pages/Resources.tsx:154-156 | the "No … found" message appears exactly when no item passes the filter |
| `Resources.EverythingByDefault` | src/pages/Resources.tsx:92-93 | the "All" tab with an empty search shows every item, in order |
| `Resources.NarrowingSearch` | src/pages/Resources.tsx:93 | when the longer term contains the shorter one, every item shown for the longer term is shown for the shorter |
| `Resources.OnlyTitleSearched` | src/pages/Resources.tsx:91-99 | two items with the same title and category are kept or dropped together, whatever their descriptions |
| `Resources.SearchIgnoresCase` | src/pages/Resources.tsx:93 | the filter gives the same result for a term and its lower-case form |
| `Resources.TabShowsOnlyItsCategory` | src/pages/Resources.tsx:92 | a tab other than "All" shows only items of that category |
| `Resources.BabyCareDownloads` | src/pages/Resources.tsx:62-82 | with the "Baby Care" tab and no search, the first and third downloads are shown |
| `Signup.Set` | src/pages/Signup.tsx:32 | the edited field takes the value and every other field keeps its own |
| `Signup.HandleChange` | src/pages/Signup.tsx:30-45 | the value is stored; a full-name edit also rewrites the first and last names from the split of the name |
| `Signup.NameRoundTrip` | src/pages/Signup.tsx:35-40 | with a space in the name, first name + " " + last name gives back the name, and the first name is the text before the first space |
| `Signup.NameWithoutSpace` | src/pages/Signup.tsx:41-42 | a name without spaces becomes the first name, with an empty last name |
| `Signup.FirstNameHasNoSpace` | src/pages/Signup.tsx:36-38 | the derived first name never contains a space |
| `Signup.OtherEditsAreLocal` | src/pages/Signup.tsx:32 | editing any field other than the full name changes only that field |
| `Signup.ValidateStep1` | src/pages/Signup.tsx:47-57 | step 1 passes exactly when the passwords match and are at least 6 characters long; a mismatch is reported before a short password |
| `Signup.MismatchReportedFirst` | src/pages/Signup.tsx:47-53 | `validateStep1` reports a short, mismatched password as "Passwords do not match"; on the page, the password's `minLength` stops that input before validation runs |
| `Signup.NextStep` | src/pages/Signup.tsx:59-66 | the error is cleared and the wizard moves to step 2 exactly when validation passes; otherwise it stays and shows the message |
| `Signup.PressNext` | src/pages/Signup.tsx:140-205 | pressing Continue on step 1 changes nothing unless every input is filled, the e-mail passes the browser's check and the password has at least 6 characters; then step 2 is reached exactly when the passwords match, and otherwise the mismatch is shown |
| `Signup.PageNeverReportsShortPassword` | src/pages/Signup.tsx:186-187 | because of `minLength={6}`, the page never shows "Password must be at least 6 characters" |
| `Signup.ShortConfirmationIsAMismatch` | src/pages/Signup.tsx:198-205 | the confirmation has no `minLength`: a 6-character password with a 3-character confirmation passes the browser and is reported as a mismatch |
| `Signup.Back` | src/pages/Signup.tsx:256 | Back returns to step 1 and keeps the form |
| `Signup.NextThenBack` | src/pages/Signup.tsx:59-66 | step 2 is reached only with a valid step 1, and going back keeps the form |
| `Signup.BeginSubmit` | src/pages/Signup.tsx:70-71 | a submission starts with loading on and the error cleared |
| `Signup.FinishSubmit` | src/pages/Signup.tsx:96-100 | loading ends; a failure shows its message, or "An error occurred during signup." when it is missing or empty |
| `Signup.PressSubmit` | src/pages/Signup.tsx:219-247 | pressing Create account changes nothing unless the baby's name and birth date are filled; otherwise the submission settles with loading off and a non-empty error exactly when it failed |
| `Signup.SubmitSettles` | src/pages/Signup.tsx:68-101 | every submission ends with loading off, and with a non-empty error exactly when it failed |
| `Auth.FriendlyMessage` | src/contexts/AuthContext.tsx:74-93 | the four exact backend messages map to their fixed explanations; any other message passes through; a missing or empty message gives the fallback |
| `Auth.FriendlyMessageNonEmpty` | src/contexts/AuthContext.tsx:78-93 | the explanation is never empty when the fallback is not |
| `Auth.FriendlyMessageCaseSensitive` | src/contexts/AuthContext.tsx:78-79 | matching is case-sensitive: "invalid login credentials" is shown as it is |
| `Auth.HandleAuthError` | src/contexts/AuthContext.tsx:95-101 | one destructive "Authentication Error" toast with the friendly text, then the same error is rethrown |
| `Auth.AuthCall` | src/contexts/AuthContext.tsx:104-181 | a success shows the call's toast and resolves; a failure shows the auth-error toast with the call's fallback and rejects with the backend's error |
| `Auth.SignUpCall` | src/contexts/AuthContext.tsx:104-128 | success shows "Account created!" and resolves; failure shows the authentication-error toast with the fallback "An error occurred during signup." and rejects with the backend's error |
| `Auth.SignInCall` | src/contexts/AuthContext.tsx:130-150 | success shows "Login successful" and resolves; failure shows the authentication-error toast with the fallback "Please check your credentials and try again." and rejects |
| `Auth.GoogleRedirectCall` | src/contexts/AuthContext.tsx:161-177 | success shows "Redirecting to Google" and resolves; failure shows the authentication-error toast with the fallback "Google login failed. Please try again." and rejects |
| `Auth.ResetPassword` | src/contexts/AuthContext.tsx:199-215 | success shows "Password reset email sent" and resolves; failure shows the authentication-error toast with the fallback "An error occurred. Please try again." and rejects |
| `Auth.AuthCallsReportFailures` | src/contexts/AuthContext.tsx:104-215 | sign-up, sign-in, reset and the Google call each show exactly one toast, destructive and rejecting exactly when the call failed |
| `Auth.SignOutCall` | src/contexts/AuthContext.tsx:183-197 | as written, sign-out never rejects; a failure shows one "Sign out failed" toast with the message or its fallback |
| `Auth.SignOutRethrowing` | src/contexts/AuthContext.tsx:183-197 | the corrected sign-out shows the same toasts and rejects exactly when the backend call failed |
| `Auth.UpdateProfileCall` | src/contexts/AuthContext.tsx:217-235 | a failure shows one destructive "Update failed" toast and rejects; a success shows nothing |
| `Auth.InitialState` | src/contexts/AuthContext.tsx:23-25 | the provider starts without session or user, loading |
| `Auth.StoredReturnUrl` | src/contexts/AuthContext.tsx:39 | the stored return URL when it is present and non-empty, else "/" |
| `Auth.OnAuthStateChange` | src/contexts/AuthContext.tsx:30-59 | the session is replaced and the user is absent exactly when the session is. A sign-in or token refresh removes the stored key and goes to the stored URL or "/". A sign-out goes to "/login". A user update shows a toast. Other events do not navigate |
| `Auth.InitialSessionLoaded` | src/contexts/AuthContext.tsx:63-67 | the initial session sets session and user and turns loading off |
| `Auth.GoogleReturnUrl` | src/contexts/AuthContext.tsx:157-159 | the stored return URL is the current path unless that is "/login" or "/signup", which give "/" |
| `Auth.SignInWithGoogle` | src/contexts/AuthContext.tsx:152-181 | the return URL is stored under its key, loading ends off, and the call's toasts and rejection are those of an auth call |
| `Auth.Settled` | src/contexts/AuthContext.tsx:105-127 | a call that sets `loading` ends with it off, whatever the outcome, and changes nothing else in the provider |
| `Auth.SignUp` | src/contexts/AuthContext.tsx:104-128 | the provider's `signUp`: loading off afterwards, session, user and storage untouched, and the toasts and rejection of its request |
| `Auth.SignIn` | src/contexts/AuthContext.tsx:130-150 | the provider's `signIn`: loading off afterwards, nothing else in the provider changed, and the toasts and rejection of its request |
| `Auth.SignOut` | src/contexts/AuthContext.tsx:183-197 | the provider's `signOut`: loading off afterwards; the session stays until the sign-out event clears it |
| `Auth.UpdateProfile` | src/contexts/AuthContext.tsx:217-235 | the provider's `updateProfile`: loading off afterwards, nothing else in the provider changed, and the toasts and rejection of its request |
| `Auth.GoogleSignInReturnsToOrigin` | src/contexts/AuthContext.tsx:37-42 | after a Google sign-in, the sign-in event returns to the page it started from (or home) and the stored key is gone |
| `Auth.ReturnUrlConsumedOnce` | src/contexts/AuthContext.tsx:39-40 | a second sign-in event goes home: the return URL is used once |
| `Auth.UseAuth` | src/contexts/AuthContext.tsx:252-258 | the context when inside a provider, else the error "useAuth must be used within an AuthProvider" |
| `Auth.StatesKeepUserWithSession` | src/contexts/AuthContext.tsx:30-67 | the initial state, the loaded session and every auth event make the provider's user the session's user (none without a session); the Google, sign-up, sign-in, sign-out and profile calls keep it so |
| `Auth.UseAuthSeesSessionUser` | src/contexts/AuthContext.tsx:237-258 | a consumer inside the provider gets the context, with a user exactly when there is a session, and then the session's user |
| `Navigation.GetUserInitials` | src/components/Navigation.tsx:43-50 | "U" without a user; both names set gives their first characters, case kept; otherwise the upper-cased first character of the email, or "U" |
| `Navigation.InitialsLength` | src/components/Navigation.tsx:43-50 | the initials are one or two characters long |
| `Navigation.InitialsExamples` | src/components/Navigation.tsx:46-49 | an email initial is upper-cased, name initials are not, and an empty email gives "U" |
| `Navigation.AtMostOneActive` | src/components/Navigation.tsx:24 | the six links have pairwise distinct paths, so at most one is active; "/" is active only at the root |
| `Navigation.DisplayName` | src/components/Navigation.tsx:98-99 | the name line appears exactly when the first name is non-empty, as first name + " " + last name (or ""); MobileMenu.tsx:114-116 renders the same line |
| `Navigation.DisplayNameTrailingSpace` | src/components/Navigation.tsx:99 | a user with only a first name is shown with a trailing space |
| `Navigation.SignupNameDisplayed` | src/components/Navigation.tsx:98-99 | a full name entered at signup, with a non-empty first word, is displayed back whole from the first and last names it was split into (Signup.tsx:36-39) |
| `Navigation.HandleSignOut` | src/components/Navigation.tsx:26-41 | the toasts of `signOut` itself, then "Signed out successfully" when it resolved or "Sign out failed" when it rejected |
| `Navigation.DropdownSignOutAsWritten` | src/components/Navigation.tsx:26-41 | with the context's sign-out as written, a backend failure shows "Sign out failed" and then "Signed out successfully" |
| `Navigation.DropdownSignOutCorrected` | src/components/Navigation.tsx:26-41 | with the rethrowing sign-out, the last toast is "Signed out successfully" exactly when the backend call succeeded |
| `MobileMenu.GetUserInitials` | src/components/MobileMenu.tsx:56-63 | the menu's copy of the initials agrees with the navigation bar's on every user |
| `MobileMenu.HandleSignOut` | src/components/MobileMenu.tsx:28-44 | the menu closes with a success toast when sign-out resolves; when it rejects the menu stays as it was and a failure toast follows |
| `MobileMenu.SignOutClosesIffResolved` | src/components/MobileMenu.tsx:28-44 | the open menu is closed exactly when sign-out resolves |
| `MobileMenu.SignOutAsWrittenContradicts` | src/components/MobileMenu.tsx:28-44 | with the context's sign-out as written, a backend failure closes the menu and shows "Sign out failed" followed by "Signed out successfully" |
| `MobileMenu.SignOutCorrectedIsConsistent` | src/components/MobileMenu.tsx:28-44 | with the rethrowing sign-out, the menu closes and the success toast appears exactly when the backend call succeeded; a failure shows only destructive toasts |
| `MobileMenu.GoThenClose` | src/components/MobileMenu.tsx:46-54 | the router goes to the given path, then the menu closes without a toast |
| `MobileMenu.FollowLink` | src/components/MobileMenu.tsx:131-132 | a link goes to its own path and closes the menu without a toast |
| `MobileMenu.NavigatingActionsClose` | src/components/MobileMenu.tsx:46-54 | login, profile and every link close the menu without a toast; login and profile go to different pages, a link (lines 131-132) to its own path |
| `Profile.GetUserInitials` | src/pages/Profile.tsx:40-47 | the profile page's copy of the initials agrees with the navigation bar's |
| `Profile.InitialForm` | src/pages/Profile.tsx:27-32 | each text field starts as the stored value or ""; the birth date is set exactly when a non-empty stored date exists, and is the Invalid Date exactly when the browser cannot read it |
| `Profile.ReadStoredDate` | src/pages/Profile.tsx:30 | `new Date(text)` is the Invalid Date exactly when no calendar date can be read from the text, and otherwise that date |
| `Profile.DefaultsWithoutMetadata` | src/pages/Profile.tsx:28-31 | without a user or metadata every field starts empty |
| `Profile.HandleInputChange` | src/pages/Profile.tsx:49-52 | an edit changes only its own text field |
| `Profile.HandleDateChange` | src/pages/Profile.tsx:54-56 | picking a date sets the birth date to it and clearing the picker unsets it; nothing else changes |
| `Profile.PadNumber` | src/pages/Profile.tsx:117 | a zero-padded number has exactly the requested width, all digits |
| `Profile.PadNumberValue` | src/pages/Profile.tsx:117 | reading back a padded number gives the number, when it fits |
| `Profile.FormatDate` | src/pages/Profile.tsx:117 | 'yyyy-MM-dd' gives ten characters with dashes at positions 4 and 7 |
| `Profile.FormatDateRoundTrip` | src/pages/Profile.tsx:116-118 | the 'yyyy-MM-dd' text of every valid calendar date decodes back to that date under the ISO reading |
| `Profile.AvatarExtension` | src/pages/Profile.tsx:66 | the extension is the text after the last dot (no dot inside it), or the whole name when there is no dot |
| `Profile.AvatarPath` | src/pages/Profile.tsx:66-68 | the avatar path is "avatars/", the user id, a dash, the token and a dot, followed by the chosen file's extension |
| `Profile.AvatarPathWithExtension` | src/pages/Profile.tsx:66-68 | "me.png" for user "u1" and token "k3x" is stored at "avatars/u1-k3x.png" |
| `Profile.AvatarPathWithoutExtension` | src/pages/Profile.tsx:66-68 | "photo" is stored at "avatars/u1-k3x.photo" |
| `Profile.UploadAvatar` | src/pages/Profile.tsx:58-105 | without a file or a user nothing happens. Otherwise the file goes to the avatar path, and its public URL is written to the metadata exactly when the upload succeeded. The avatar is shown with "Avatar updated" only when the metadata write also went through; a failed upload or a thrown write gives "Upload failed" and keeps the old avatar. Uploading is off after every outcome |
| `Profile.ShownAvatar` | src/pages/Profile.tsx:33-37 | the avatar recorded in the user's metadata, when non-empty, replaces the one shown; otherwise the shown one stays |
| `Profile.UploadedAvatarShownAgain` | src/pages/Profile.tsx:33-37 | once the metadata write has reached the user, the page shows the same avatar as right after the upload |
| `Profile.SaveProfile` | src/pages/Profile.tsx:107-147 | without a user nothing happens. An Invalid Date makes `format` throw: nothing is sent and "Update failed" shows "Invalid time value". Otherwise the names and the birth date formatted 'yyyy-MM-dd' (or nothing) are sent, with one toast per outcome. Loading is off afterwards |
| `Profile.SavedDateReadsBack` | src/pages/Profile.tsx:116-126 | the text sent for a picked date decodes back to that date under the ISO reading |
| `Profile.EditsReachSave` | src/pages/Profile.tsx:49-56 | after editing one text field and picking a valid date, a save sends the typed text in that field and a date that decodes back to the picked one, even if the stored date was unreadable (lines 107-126) |
| `Profile.UnreadableStoredDateBlocksSave` | src/pages/Profile.tsx:30 | a stored birth date the browser cannot read makes every save from the loaded page fail with "Update failed", and nothing is sent (lines 116-118) |
| `Tracking.Initial` | src/pages/Tracking.tsx:37-62 | each form starts with exactly its own fields |
| `Tracking.ControlsAreFields` | src/pages/Tracking.tsx:191-601 | every rendered control edits a field of its form, and no field is rendered twice |
| `Tracking.FeedingFieldRules` | src/pages/Tracking.tsx:196-269 | the amount is shown and required exactly when the type is not "Solid"; side and duration are shown exactly for "Breastmilk", the duration then required and the side select never required |
| `Tracking.DiaperFieldRules` | src/pages/Tracking.tsx:442-488 | the color is shown exactly for "Dirty" and "Both" and is never required; the time is always required |
| `Tracking.SubmittableRules` | src/pages/Tracking.tsx:191-601 | when each form passes the browser's required-field check, in terms of its values |
| `Tracking.InitialNotSubmittable` | src/pages/Tracking.tsx:70-116 | a freshly reset form cannot be submitted again |
| `Tracking.InitialSelections` | src/pages/Tracking.tsx:37-55 | every select starts on one of its options, except the diaper color, which starts empty and hidden |
| `Tracking.ResetClearsFreeInputs` | src/pages/Tracking.tsx:37-62 | every free input of every form starts, and is reset to, "" |
| `Tracking.Update` | src/pages/Tracking.tsx:201 | an edit sets its field and leaves every other field as it was |
| `Tracking.UpdateKeepsWellFormed` | src/pages/Tracking.tsx:201-264 | editing a field of a form keeps exactly the form's fields |
| `Tracking.StaleValuesKept` | src/pages/Tracking.tsx:211-232 | switching a feeding to "Solid" hides the amount, side and duration but keeps their values, and switching back restores them |
| `Tracking.SubmitToast` | src/pages/Tracking.tsx:64-117 | each submission shows its plain toast; the feeding and diaper toasts name the submitted type |
| `Tracking.Submit` | src/pages/Tracking.tsx:64-117 | a submission happens exactly when the form passes the required-field check, and then resets the form to its initial value |
| `Tracking.SubmitOnce` | src/pages/Tracking.tsx:64-117 | a second press right after a submission does nothing |
| `Tracking.SolidFeedingNeedsOnlyTime` | src/pages/Tracking.tsx:224-236 | a solid-food feeding with a time is submitted whatever the hidden fields hold, with "Solid feeding recorded successfully." |
| `Emergency.InitialActive` | src/pages/Emergency.tsx:12 | the detail panel starts on the first hospital |
| `Emergency.Select` | src/pages/Emergency.tsx:61 | the clicked entry becomes active and is highlighted |
| `Emergency.ExactlyOneHighlighted` | src/pages/Emergency.tsx:56-61 | with distinct names, the selected entry and no other is highlighted |
| `Emergency.ShippedHospitals` | src/data/emergency.ts:3-28 | the three shipped hospitals have distinct names and only the first is highlighted at the start |
| `Emergency.EmergencyLine` | src/pages/Emergency.tsx:96 | the hospital's emergency number when non-empty, else "911" |
| `Emergency.Reception` | src/pages/Emergency.tsx:99 | the reception number when non-empty, else "Not available" |
| `Emergency.ServicesShown` | src/pages/Emergency.tsx:106-111 | a missing list shows "Information not available"; a present list, even an empty one, is shown as it is |
| `Emergency.ContactFallbacks` | src/pages/Emergency.tsx:96-111 | both contact lines are always non-empty; the services list is empty only for an empty shipped list |
| `Emergency.DescriptionShown` | src/pages/Emergency.tsx:140 | the guide's description when non-empty, else "Emergency first aid information" |
| `Emergency.SecondPiece` | src/pages/Emergency.tsx:145 | `split(': ')[1]` is absent exactly when the text has no ": " |
| `Emergency.SecondPieceBetween` | src/pages/Emergency.tsx:145 | the second piece is the text between the first ": " and the next |
| `Emergency.SecondPieceLast` | src/pages/Emergency.tsx:145 | with a single ": ", the second piece is everything after it |
| `Emergency.StepsShown` | src/pages/Emergency.tsx:145-150 | the card fails to render exactly when the text has no ": "; otherwise the list ends with "View complete guide for full instructions" |
| `Emergency.PreviewIs` | src/pages/Emergency.tsx:145-148 | a piece starting with a plain step text followed by "..." previews as that text plus "..." alone |
| `Emergency.SecondPieceOfSteps` | src/pages/Emergency.tsx:145 | for a numbered steps text the second piece starts with the first step's text and its "..." |
| `Emergency.FirstStepOnly` | src/pages/Emergency.tsx:145-150 | a guide written as numbered steps shows only its first step, then the fixed last item |
| `Emergency.ShippedShapes` | src/data/emergency.ts:29-45 | the three shipped guides are written as numbered steps |
| `Emergency.ShippedGuidesShowFirstStep` | src/data/emergency.ts:33-43 | each shipped guide shows only its first step, e.g. "Position baby face-down on your forearm...", then the fixed item |
| `Emergency.StepsWithoutColonFail` | src/pages/Emergency.tsx:145 | a steps text without ": " ("Call 911") cannot be rendered |
| `DummyData.RunTables` | src/utils/dummyDataService.ts:60-132 | the tables are written in order until the first failure; nothing fails exactly when every table is stored; the failure reported is the first failing table's prefixed error |
| `DummyData.Populate` | src/utils/dummyDataService.ts:134-141 | a populator succeeds exactly when all its tables are stored, with no message; otherwise its heading followed by the first error |
| `DummyData.PopulateTracking` | src/utils/dummyDataService.ts:39-142 | the tracking seeding succeeds, with no message, exactly when the feeding, diaper, sleep and growth tables are all stored |
| `DummyData.PopulateCommunity` | src/utils/dummyDataService.ts:144-211 | the community seeding succeeds exactly when groups and events are stored |
| `DummyData.PopulateResources` | src/utils/dummyDataService.ts:213-257 | the resources seeding succeeds exactly when the guides are stored |
| `DummyData.PopulateWellness` | src/utils/dummyDataService.ts:259-317 | the wellness seeding succeeds exactly when mood and hydration are stored |
| `DummyData.TrackingStopsAtFirstError` | src/utils/dummyDataService.ts:60-132 | the tracking tables run feeding, diaper, sleep, growth, and the first error, with its own prefix, is the one reported |
| `DummyData.FailuresCarryLabels` | src/utils/dummyDataService.ts:139-314 | each failing populator's message starts with its own heading: "Tracking data: ", "Community data: ", "Resources data: ", "Wellness data: " |
| `DummyData.FailedPositions` | src/utils/dummyDataService.ts:20 | `filter(r => !r.success)` as positions: strictly increasing, each a failed result, and every failed result among them |
| `DummyData.FailureMessages` | src/utils/dummyDataService.ts:20-25 | one message per failed result, the k-th being the message of the k-th failed result in list order (a missing message written as ""); none exactly when all succeeded |
| `DummyData.NoPositionsIffAllSucceeded` | src/utils/dummyDataService.ts:20-22 | there are no failed positions exactly when every result succeeded, and never more positions than results |
| `DummyData.PopulateDummyData` | src/utils/dummyDataService.ts:9-29 | the seeding succeeds exactly when all four populators do, with no message; otherwise "Some data could not be populated: " and the failed messages joined by ", " in the order tracking, community, resources, wellness |
| `DummyData.PopulateDummyDataThrew` | src/utils/dummyDataService.ts:30-35 | a thrown error gives a failure with its message when that is non-empty, and "Unknown error occurred" otherwise |
| `DummyData.SummaryExamples` | src/utils/dummyDataService.ts:22-26 | one failure is reported alone after the prefix; two are separated by ", " |
| `DummyData.FailureSurfaces` | src/utils/dummyDataService.ts:20-26 | a failing populator makes the seeding fail, and its message is among those reported |
| `Storage.StoredName` | src/utils/supabaseStorage.ts:18-19 | the stored name is the id and a dot, followed by the original file's extension |
| `Storage.ExtensionKept` | src/utils/supabaseStorage.ts:18-19 | the stored name keeps the original file's extension: the text after its last dot |
| `Storage.ObjectPath` | src/utils/supabaseStorage.ts:20 | the object path always ends with the stored name; without a folder it is the name, with one it is the folder, a slash and the name |
| `Storage.UploadPathWithExtension` | src/utils/supabaseStorage.ts:18-20 | a file "base.ext" uploaded as id `uuid` into a folder is stored at folder + "/" + uuid + "." + ext |
| `Storage.UploadPathWithoutExtension` | src/utils/supabaseStorage.ts:18-20 | a name without a dot is used whole as the extension: "photo" becomes "k3x.photo" at the top level |
| `Storage.UploadToStorage` | src/utils/supabaseStorage.ts:13-55 | no file gives null and sends nothing. Otherwise the object path is sent. A URL is returned exactly when the upload succeeded, and it is the public URL of the stored path. A returned error shows its message as is; a thrown one shows its message or "An unknown error occurred" |
| `Storage.UploadReportsFailureOnce` | src/utils/supabaseStorage.ts:30-54 | a failed upload of a file shows exactly one destructive "Upload failed" toast; a successful one, or no file, shows none |
| `Storage.DeleteFromStorage` | src/utils/supabaseStorage.ts:63-89 | true exactly when the removal succeeded; otherwise false with one destructive "Delete failed" toast |
| `Storage.DeleteReportsFailureOnce` | src/utils/supabaseStorage.ts:63-89 | a removal is reported true exactly when no toast is shown, and false exactly when there is one destructive "Delete failed" toast |
| `Storage.EmptyMessages` | src/utils/supabaseStorage.ts:73-84 | an empty returned error message is shown as it is; only a thrown error falls back to the generic text |
| `Common.OrElse` | src/contexts/AuthContext.tsx:92 | `a || b` on an optional string: the value when present and non-empty, else the fallback |
| `Text.Lower` | src/components/AssistantChat.tsx:83 | lower-casing keeps the length and maps each character through the ASCII lower-case map |
| `Text.Upper` | src/components/Navigation.tsx:49 | upper-casing keeps the length and maps each character through the ASCII upper-case map |
| `Text.LowerIdempotent` | src/components/AssistantChat.tsx:83 | lower-casing twice is lower-casing once |
| `Text.ContainsMeansOccurrence` | src/components/AssistantChat.tsx:88 | `includes`, as a left-to-right scan, holds exactly when the string occurs at some position of the text |
| `Text.ContainsTransitive` | src/components/AssistantChat.tsx:91 | a text containing a string contains everything that string contains |
| `Text.IndexOf` | src/pages/Signup.tsx:36 | the first position of the separator, or none exactly when it does not occur |
| `Text.Split` | src/pages/Signup.tsx:36 | `split` gives at least one piece and no piece contains the separator |
| `Text.Join` | src/pages/Signup.tsx:39 | `join` of no pieces is "" and of one piece is that piece |
| `Text.JoinStartsWithFirst` | src/pages/Signup.tsx:39 | a join of at least one piece starts with the first piece |
| `Text.JoinLength` | src/utils/dummyDataService.ts:25 | a join is as long as all its pieces plus one separator between each two |
| `Text.JoinSnoc` | src/utils/dummyDataService.ts:25 | joining one more piece appends a separator and that piece |
| `Text.JoinSplit` | src/pages/Signup.tsx:36-39 | joining the pieces of a split with the same separator gives back the text |
| `Text.AfterLast` | src/utils/supabaseStorage.ts:18 | `split(sep).pop()` is a suffix of the text free of the separator; it is the whole text when the separator does not occur, and otherwise follows an occurrence of it |
| `Text.Trim` | src/components/AssistantChat.tsx:61 | `trim` gives the slice of the text that starts where the leading white space ends, and it starts and ends with a non-white-space character unless empty |
| `Text.TrimDropsBlank` | src/components/AssistantChat.tsx:61 | what `trim` drops before and after that slice is white space only |
| `Text.FirstChar` | src/components/Navigation.tsx:47-49 | `charAt(0)` is the one-character text of the first character, or "" for the empty text |
| `Text.NonEmpty` | src/pages/Emergency.tsx:145 | `filter(step => step)` keeps exactly the non-empty pieces: an order-preserving subsequence of the list holding each non-empty piece as often as the list does, and no empty one |
| `Text.TrimEmptyIffBlank` | src/components/AssistantChat.tsx:61 | the trimmed text is empty exactly when every character is white space |

## Left out

- Rendering, styling, animation and scrolling (JSX, framer-motion, the chat's scroll-into-view effect) are not modelled. Toasts are kept only as a log of emitted events.
- The Supabase auth, database and storage calls, `sessionStorage`, and `getPublicUrl` are inputs: each call's settlement is a parameter and the URL lookup is a function parameter.
- The 1000 ms reply timer is the explicit `AssistantChat.Respond` step. Timers are assumed to fire in the order they were set, as equal delays do. There is no unmount cancellation and no double-submit guard in the source, and none is modelled.
- `Auth.OnAuthStateChange`: the `setTimeout(..., 0)` callback of a sign-in, token refresh or sign-out (AuthContext.tsx:38-48) is taken at event time. Its `returnUrl` read, the key's removal and the navigation happen in the same step as the state update.
- `Auth.Settled`: only the settled state of a call is modelled. While the request runs, the provider's `loading` is true; that intermediate state is not a separate step.
- `Date.now()` ids and timestamps are parameters. They may collide, and no uniqueness is claimed.
- `Math.random()` and `uuidv4()` are parameters (the avatar token and the storage id).
- Case mapping (`toLowerCase`, `toUpperCase`) covers the ASCII letters only; other characters are left as they are.
- `trim` uses the full ECMAScript white-space set.
- JavaScript `.length` counts UTF-16 code units; the model counts characters.
- Dates are calendar triples without time zones, for years 0 to 9999. `new Date(...)` parsing of a stored birth date is a function parameter of `Profile.InitialForm`, and it returns no date for text the browser cannot read (the Invalid Date).
- `Profile.SavedDateReadsBack`: the birth date is read as a calendar date without a time zone. In the browser, `new Date("yyyy-MM-dd")` is midnight UTC while the picker and `format` work in local time, so west of UTC the form shows the previous day, and saving sends that day back. The model does not reproduce this shift. The Invalid Date path (`format` throws, "Update failed", nothing sent) is modelled by `Profile.SaveProfile` and `Profile.UnreadableStoredDateBlocksSave`.
- `Signup.PressNext`: the browser's `type="email"` syntax check is the parameter `isEmail`, and the other browser gates are `required` and `minLength` only, as written on the inputs.
- The growth chart (`parseFloat` and date formatting, Tracking.tsx:119-124) is floating-point and locale-dependent, and is not modelled. Nor are the static lists of past entries the tracking page displays.
- Profile.tsx:149-152, the redirect of a signed-out visitor to the login page during rendering, is not modelled. The save and upload handlers do model their own missing-user guard.
- The Signup page's Google button (Signup.tsx:103-114) is not modelled: on failure it sets the error banner to the error's message, or "Google signup failed" when that is empty. After sign-up, the baby-details update (Signup.tsx:80-95) only logs an error it gets back; a throw from it reaches the error banner of `Signup.FinishSubmit`.
- `DummyData.PopulateDummyDataThrew`: every populator catches its own errors, so the outer `catch` of `populateDummyData` cannot be reached through them. It is modelled on its own, for a message given directly.
- The rows inserted by the seeding functions (their sample values) are not modelled; only whether each table's write succeeded matters.
- src/App.tsx routing and `ProtectedRoute`, and the pages Index, ForgotPassword, Community and Wellness, are not part of this model, and neither are WelcomeModal and DummyDataButton. They are UI or plumbing only.
- `Emergency.ShippedGuidesShowFirstStep`: the shipped steps strings are built from their numbered steps (`Emergency.StepsText`), not written as literals. They are joined exactly as the literals in src/data/emergency.ts:33-43 are.
- `Tracking.FeedingFieldRules`: the side `Select` has no `required` attribute (Tracking.tsx:238-256), so the side is never required.
- `AssistantChat.ToastOnEveryOpening`: the welcome toast is emitted on every opening (AssistantChat.tsx:44), not only the first.

## Findings

| source | as written | input that shows it | evidently intended | confidence | as-written member | corrected member |
|---|---|---|---|---|---|---|
| src/contexts/AuthContext.tsx:183-197 | `signOut` catches the backend error, shows a toast and resolves, so the callers' error branches (MobileMenu.tsx:36-43, Navigation.tsx:33-40) never run | the backend's sign-out fails with "network down": the mobile menu closes and shows "Sign out failed" and then "Signed out successfully" | `signOut` rethrows after its toast, so a failure leaves the menu open and shows only failure toasts | not executed | `MobileMenu.SignOutAsWrittenContradicts` | `MobileMenu.SignOutCorrectedIsConsistent` |
