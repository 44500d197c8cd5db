/** The profile form: its fields start from the signed-in user; submitting sends only what
    changed, after checking the password confirmation; choosing an avatar file checks its type
    and size before uploading. */
module ProfileForm {
  import opened Wrappers
  import Text
  import opened UseAuth

  const ErrFormat := "ERR: format invalide. Attendu: image/*"
  const ErrSize := "ERR: taille max dépassée (2 Mo)"
  const ErrMismatch := "ERR: password mismatch"
  const WarnNoChanges := "WARN: no changes detected"
  const OkAvatar := "OK: avatar updated"
  const OkProfile := "OK: profile updated"
  const ImagePrefix := "image/"

  /** Largest accepted avatar, in bytes: 2 MiB. */
  const MaxAvatarBytes := 2 * 1024 * 1024

  /** The form's state. `message` is the local error or warning shown; `success` the
      confirmation. */
  datatype Form = Form(displayName: string, email: string, password: string, confirmPassword: string,
                       message: Option<string>, success: Option<string>, saving: bool, uploading: bool)

  /** The display name stored for the user, `""` when there is none (or it is empty). */
  function StoredName(user: Option<User>): string {
    var m := MetadataOf(user);
    if DisplayNameKey in m then m[DisplayNameKey] else ""
  }

  /** The form as it opens: the stored display name and email (empty when missing), no
      password, nothing shown. */
  function Open(user: Option<User>): (f: Form)
    ensures f.displayName == StoredName(user)
    ensures f.email == CurrentEmail(user).GetOr("")
    ensures f.password == "" && f.confirmPassword == ""
    ensures f.message.None? && f.success.None? && !f.saving && !f.uploading
  {
    Form(StoredName(user), CurrentEmail(user).GetOr(""), "", "", None, None, false, false)
  }

  /** The avatar placeholder letter: the upper-cased first character of the display name, else
      of the email, else `?`. */
  function Initials(displayName: string, email: string): (c: char)
    ensures displayName != "" ==> c == Text.UpperAscii(displayName[0])
    ensures displayName == "" && email != "" ==> c == Text.UpperAscii(email[0])
    ensures displayName == "" && email == "" ==> c == '?'
  {
    var shown := if displayName != "" then displayName else if email != "" then email else "?";
    Text.UpperAscii(shown[0])
  }

  /** Verdict on a chosen avatar file. */
  datatype FileCheck = NoFile | WrongType | TooLarge | Acceptable

  /** The checks of `handleFileChange`, in order: a file must be chosen, its type must start
      with `image/`, and it may be at most `MaxAvatarBytes` long. */
  function CheckFile(file: Option<FileInfo>): (v: FileCheck)
    ensures v == NoFile <==> file.None?
    ensures v == WrongType <==> file.Some? && !Text.StartsWith(file.value.mimeType, ImagePrefix)
    ensures v == TooLarge <==> file.Some? && Text.StartsWith(file.value.mimeType, ImagePrefix) && file.value.size > MaxAvatarBytes
    ensures v == Acceptable <==> file.Some? && Text.StartsWith(file.value.mimeType, ImagePrefix) && file.value.size <= MaxAvatarBytes
  {
    if file.None? then NoFile
    else if !Text.StartsWith(file.value.mimeType, ImagePrefix) then WrongType
    else if file.value.size > MaxAvatarBytes then TooLarge
    else Acceptable
  }

  /** An image of exactly 2 MiB is accepted and one byte more is refused. */
  lemma SizeLimitBoundary(name: string, mimeType: string)
    requires Text.StartsWith(mimeType, ImagePrefix)
    ensures CheckFile(Some(FileInfo(name, mimeType, 2097152))) == Acceptable
    ensures CheckFile(Some(FileInfo(name, mimeType, 2097153))) == TooLarge
  {
  }

  /** `handleFileChange`: returns the form afterwards and whether the upload was started. A
      refused file shows its error and uploads nothing; an accepted one clears the messages,
      uploads, and confirms when the upload succeeded. */
  function HandleFileChange(f: Form, file: Option<FileInfo>, uploaded: bool): (r: (Form, bool))
    ensures r.1 <==> CheckFile(file) == Acceptable
    ensures CheckFile(file) == NoFile ==> r.0 == f
    ensures CheckFile(file) == WrongType ==> r.0 == f.(message := Some(ErrFormat))
    ensures CheckFile(file) == TooLarge ==> r.0 == f.(message := Some(ErrSize))
    ensures r.1 ==> r.0 == f.(message := None, success := if uploaded then Some(OkAvatar) else None, uploading := false)
  {
    match CheckFile(file)
    case NoFile => (f, false)
    case WrongType => (f.(message := Some(ErrFormat)), false)
    case TooLarge => (f.(message := Some(ErrSize)), false)
    case Acceptable => (f.(message := None, success := if uploaded then Some(OkAvatar) else None, uploading := false), true)
  }

  /** The changes `handleSubmit` asks for: the display name when it differs from the stored one,
      the email when it differs from the account's (a missing account email always differs), the
      password when it is not empty. */
  function Changes(f: Form, user: Option<User>): (u: Updates)
    ensures u.displayName.Some? <==> f.displayName != StoredName(user)
    ensures u.email.Some? <==> Some(f.email) != CurrentEmail(user)
    ensures u.password.Some? <==> f.password != ""
    ensures u.displayName.Some? ==> u.displayName.value == f.displayName
    ensures u.email.Some? ==> u.email.value == f.email
    ensures u.password.Some? ==> u.password.value == f.password
  {
    Updates(
      if f.displayName != StoredName(user) then Some(f.displayName) else None,
      if Some(f.email) != CurrentEmail(user) then Some(f.email) else None,
      if f.password != "" then Some(f.password) else None)
  }

  /** No key in the changes object. */
  predicate NoChanges(u: Updates) {
    u.displayName.None? && u.email.None? && u.password.None?
  }

  /** `handleSubmit`: returns the form afterwards and the changes passed to the profile update,
      if it was called (`updated` is its `success`). A non-empty password that differs from its
      confirmation is refused; no change at all only warns; a successful update confirms and
      clears both password fields. */
  function HandleSubmit(f: Form, user: Option<User>, updated: bool): (r: (Form, Option<Updates>))
    ensures f.password != "" && f.password != f.confirmPassword ==>
      r == (f.(message := Some(ErrMismatch), success := None), None)
    ensures !(f.password != "" && f.password != f.confirmPassword) && NoChanges(Changes(f, user)) ==>
      r == (f.(message := Some(WarnNoChanges), success := None, saving := false), None)
    ensures r.1.Some? <==> !(f.password != "" && f.password != f.confirmPassword) && !NoChanges(Changes(f, user))
    ensures r.1.Some? ==>
      && r.1.value == Changes(f, user)
      && r.0.message.None? && !r.0.saving
      && r.0.displayName == f.displayName && r.0.email == f.email
      && (updated ==> r.0.success == Some(OkProfile) && r.0.password == "" && r.0.confirmPassword == "")
      && (!updated ==> r.0.success.None? && r.0.password == f.password && r.0.confirmPassword == f.confirmPassword)
  {
    var cleared := f.(message := None, success := None);
    if f.password != "" && f.password != f.confirmPassword then (cleared.(message := Some(ErrMismatch)), None)
    else
      var changes := Changes(f, user);
      if NoChanges(changes) then (cleared.(message := Some(WarnNoChanges), saving := false), None)
      else if updated then (cleared.(success := Some(OkProfile), password := "", confirmPassword := "", saving := false), Some(changes))
      else (cleared.(saving := false), Some(changes))
  }

  /** Submitting the form exactly as it opened, for a user with an email, changes nothing and
      only warns. */
  lemma UntouchedFormOnlyWarns(user: User, updated: bool)
    requires user.email.Some?
    ensures HandleSubmit(Open(Some(user)), Some(user), updated).1.None?
    ensures HandleSubmit(Open(Some(user)), Some(user), updated).0.message == Some(WarnNoChanges)
  {
  }

  /** An email field emptied by the user is forwarded by the form but dropped by the profile
      update, which never sends an empty email. */
  lemma ClearedEmailNeverSent(f: Form, user: User, outcome: AuthOutcome, updated: bool)
    requires f.email == "" && user.email.Some? && user.email.value != ""
    ensures var (_, changes) := HandleSubmit(f, Some(user), updated);
            changes.Some? ==>
              && changes.value.email == Some("")
              && var sent := UpdateProfile(true, AuthState(Some(user), None), changes.value, outcome).sent;
                 sent.None? || sent.value.email.None?
  {
  }

  /** A submitted display name reaches the provider inside the full metadata, replacing only the
      stored name. */
  lemma SubmittedNameMerged(f: Form, user: User, outcome: AuthOutcome, updated: bool)
    requires f.password == "" && f.displayName != StoredName(Some(user))
    ensures var (_, changes) := HandleSubmit(f, Some(user), updated);
            && changes.Some?
            && var sent := UpdateProfile(true, AuthState(Some(user), None), changes.value, outcome).sent;
               && sent.Some? && sent.value.data.Some?
               && sent.value.data.value[DisplayNameKey] == f.displayName
               && forall k :: k in user.metadata && k != DisplayNameKey ==> sent.value.data.value[k] == user.metadata[k]
  {
  }
}
