/** The signed-in user as the authentication backend reports it. Only the
    fields the application reads are modelled; every metadata entry and
    the email may be absent. */
module Users {
  import opened Common

  /** `user_metadata`: the profile fields written at signup and on the
      profile page. */
  datatype Metadata = Metadata(
    firstName: Option<string>,
    lastName: Option<string>,
    babyName: Option<string>,
    babyBirthDate: Option<string>,
    avatarUrl: Option<string>)

  datatype User = User(id: string, email: Option<string>, metadata: Option<Metadata>)

  datatype Session = Session(user: User)

  /** `user?.user_metadata?.first_name` and its siblings. */
  function FirstNameOf(u: Option<User>): Option<string> {
    if u.Some? && u.value.metadata.Some? then u.value.metadata.value.firstName else None
  }

  function LastNameOf(u: Option<User>): Option<string> {
    if u.Some? && u.value.metadata.Some? then u.value.metadata.value.lastName else None
  }

  function BabyNameOf(u: Option<User>): Option<string> {
    if u.Some? && u.value.metadata.Some? then u.value.metadata.value.babyName else None
  }

  function BabyBirthDateOf(u: Option<User>): Option<string> {
    if u.Some? && u.value.metadata.Some? then u.value.metadata.value.babyBirthDate else None
  }

  function AvatarUrlOf(u: Option<User>): Option<string> {
    if u.Some? && u.value.metadata.Some? then u.value.metadata.value.avatarUrl else None
  }
}