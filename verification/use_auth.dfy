/** The profile part of the authentication hook: building the account update from the fields a
    caller wants changed, and storing an avatar then recording its URL in the user's metadata.
    The authentication provider is reduced to the outcomes of its calls. */
module UseAuth {
  import opened Wrappers
  import Text
  import Decimal

  /** The signed-in user: id, email (possibly missing) and free-form metadata. */
  datatype User = User(id: string, email: Option<string>, metadata: map<string, string>)

  /** Metadata key of the display name. */
  const DisplayNameKey := "display_name"
  /** Metadata key of the avatar URL. */
  const AvatarUrlKey := "avatar_url"

  /** The hook's state: the user (null when signed out) and its error message. */
  datatype AuthState = AuthState(user: Option<User>, error: Option<string>)

  /** `user?.email`. */
  function CurrentEmail(user: Option<User>): Option<string> {
    if user.None? then None else user.value.email
  }

  /** `user?.user_metadata`, spread into a fresh object: no keys when there is no user. */
  function MetadataOf(user: Option<User>): map<string, string> {
    if user.None? then map[] else user.value.metadata
  }

  /** `{ ...m, [key]: value }`: every key of `m` kept with its value, except `key`, which is set. */
  function SetKey(m: map<string, string>, key: string, value: string): (r: map<string, string>)
    ensures r.Keys == m.Keys + {key}
    ensures r[key] == value
    ensures forall k :: k in m && k != key ==> r[k] == m[k]
  {
    m[key := value]
  }

  /** The keys a caller asks `updateProfile` to change; a missing key is `undefined`. */
  datatype Updates = Updates(displayName: Option<string>, email: Option<string>, password: Option<string>)

  /** The argument of the provider's `updateUser`; a missing field is not sent. */
  datatype UpdateData = UpdateData(email: Option<string>, password: Option<string>, data: Option<map<string, string>>)

  /** No field at all: `Object.keys(updateData).length === 0`. */
  predicate IsEmpty(d: UpdateData) {
    d.email.None? && d.password.None? && d.data.None?
  }

  /** What the provider's `updateUser` answered. */
  datatype AuthOutcome = Updated(user: User) | AuthError(message: string)

  /** The update built from `updates`: the email only when it is non-empty and differs from the
      current one, the password only when it is non-empty, and, when a display name is given
      (even an empty one), the whole current metadata with `display_name` replaced. */
  function BuildUpdate(user: Option<User>, updates: Updates): (d: UpdateData)
    ensures d.email.Some? <==> TruthyText(updates.email) && updates.email != CurrentEmail(user)
    ensures d.email.Some? ==> d.email == updates.email
    ensures d.password.Some? <==> TruthyText(updates.password)
    ensures d.password.Some? ==> d.password == updates.password
    ensures d.data.Some? <==> updates.displayName.Some?
    ensures d.data.Some? ==> d.data.value == SetKey(MetadataOf(user), DisplayNameKey, updates.displayName.value)
  {
    UpdateData(
      if TruthyText(updates.email) && updates.email != CurrentEmail(user) then updates.email else None,
      if TruthyText(updates.password) then updates.password else None,
      if updates.displayName.Some? then Some(SetKey(MetadataOf(user), DisplayNameKey, updates.displayName.value)) else None)
  }

  /** What `updateProfile` or `uploadAvatar` did: the state afterwards, the `success` flag it
      returned, and the argument of the provider call it made, if any. */
  datatype ProfileResult = ProfileResult(state: AuthState, success: bool, sent: Option<UpdateData>)

  /** `updateProfile`. Without a provider client it fails at once. Otherwise the error is cleared;
      an empty update succeeds without calling the provider; a provider error is stored and
      fails; an answered update replaces the user and succeeds. */
  function UpdateProfile(hasClient: bool, s: AuthState, updates: Updates, outcome: AuthOutcome): (r: ProfileResult)
    ensures !hasClient ==> r == ProfileResult(s, false, None)
    ensures hasClient ==>
      var d := BuildUpdate(s.user, updates);
      && (IsEmpty(d) ==> r == ProfileResult(s.(error := None), true, None))
      && (!IsEmpty(d) ==> r.sent == Some(d))
      && (!IsEmpty(d) && outcome.AuthError? ==> r == ProfileResult(s.(error := Some(outcome.message)), false, Some(d)))
      && (!IsEmpty(d) && outcome.Updated? ==> r == ProfileResult(AuthState(Some(outcome.user), None), true, Some(d)))
  {
    if !hasClient then ProfileResult(s, false, None)
    else
      var s' := s.(error := None);
      var d := BuildUpdate(s.user, updates);
      if IsEmpty(d) then ProfileResult(s', true, None)
      else
        match outcome
        case AuthError(message) => ProfileResult(s'.(error := Some(message)), false, Some(d))
        case Updated(u) => ProfileResult(s'.(user := Some(u)), true, Some(d))
  }

  /** A file chosen in the browser. */
  datatype FileInfo = FileInfo(name: string, mimeType: string, size: nat)

  /** The storage path of a user's avatar: the user id, then `avatar.` and the extension, which is
      what follows the last dot of the file name (the whole name when it has no dot). */
  function AvatarPath(userId: string, fileName: string): (p: string)
    ensures Text.StartsWith(p, userId + "/avatar.")
    ensures p[|userId + "/avatar."|..] == Text.LastSegment(fileName, '.')
    ensures '.' !in p[|userId + "/avatar."|..]
  {
    userId + "/avatar." + Text.LastSegment(fileName, '.')
  }

  /** A name `base.ext` whose extension has no dot keeps exactly that extension, and a name
      without a dot is used whole. */
  lemma AvatarPathExtension(userId: string, base: string, ext: string)
    requires '.' !in ext
    ensures AvatarPath(userId, base + "." + ext) == userId + "/avatar." + ext
    ensures AvatarPath(userId, ext) == userId + "/avatar." + ext
  {
    Text.LastSegmentOfJoin(base, '.', ext);
    Text.LastSegmentWithoutSeparator(ext, '.');
  }

  /** The avatar URL: the public URL with a cache-busting `?t=` and the upload time. */
  function AvatarUrl(publicUrl: string, stamp: nat): (u: string)
    ensures Text.StartsWith(u, publicUrl + "?t=")
    ensures Decimal.ParseInt(u[|publicUrl + "?t="|..]) == Some(stamp)
  {
    Decimal.ParseDecimalString(stamp);
    publicUrl + "?t=" + Decimal.DecimalString(stamp)
  }

  /** What the storage upload answered: nothing, or an error message. */
  datatype UploadOutcome = Stored | UploadError(message: string)

  /** What `uploadAvatar` did: the profile result, and the storage path it uploaded to, if any. */
  datatype AvatarResult = AvatarResult(result: ProfileResult, path: Option<string>)

  /** `uploadAvatar`. Without a client or a user it fails at once. Otherwise the error is
      cleared and the file is stored at `AvatarPath`; a storage error is stored and fails; then
      the metadata is sent back whole with `avatar_url` set to the new URL, and the provider's
      answer is handled as in `updateProfile`. */
  function UploadAvatar(hasClient: bool, s: AuthState, file: FileInfo, upload: UploadOutcome, publicUrl: string,
                        stamp: nat, outcome: AuthOutcome): (r: AvatarResult)
    ensures !(hasClient && s.user.Some?) ==> r == AvatarResult(ProfileResult(s, false, None), None)
    ensures hasClient && s.user.Some? ==>
      var u := s.user.value;
      && r.path == Some(AvatarPath(u.id, file.name))
      && (upload.UploadError? ==> r.result == ProfileResult(s.(error := Some(upload.message)), false, None))
      && (upload.Stored? ==>
            && r.result.sent == Some(UpdateData(None, None, Some(SetKey(u.metadata, AvatarUrlKey, AvatarUrl(publicUrl, stamp)))))
            && (outcome.AuthError? ==> r.result.state == s.(error := Some(outcome.message)) && !r.result.success)
            && (outcome.Updated? ==> r.result.state == AuthState(Some(outcome.user), None) && r.result.success))
  {
    if !hasClient || s.user.None? then AvatarResult(ProfileResult(s, false, None), None)
    else
      var u := s.user.value;
      var s' := s.(error := None);
      var path := AvatarPath(u.id, file.name);
      match upload
      case UploadError(message) => AvatarResult(ProfileResult(s'.(error := Some(message)), false, None), Some(path))
      case Stored =>
        var d := UpdateData(None, None, Some(SetKey(u.metadata, AvatarUrlKey, AvatarUrl(publicUrl, stamp))));
        match outcome
        case AuthError(message) => AvatarResult(ProfileResult(s'.(error := Some(message)), false, Some(d)), Some(path))
        case Updated(nu) => AvatarResult(ProfileResult(AuthState(Some(nu), None), true, Some(d)), Some(path))
  }

  /** Changing the display name and then the avatar, each answered by the provider echoing the
      metadata it was sent, keeps both: the avatar update does not lose the new name. */
  lemma NameSurvivesAvatarUpload(u: User, name: string, file: FileInfo, publicUrl: string, stamp: nat)
    ensures var s := AuthState(Some(u), None);
            var d1 := BuildUpdate(Some(u), Updates(Some(name), None, None)).data.value;
            var u1 := u.(metadata := d1);
            var r1 := UpdateProfile(true, s, Updates(Some(name), None, None), Updated(u1));
            var d2 := UploadAvatar(true, r1.state, file, Stored, publicUrl, stamp, AuthError("")).result.sent.value.data.value;
            && r1.success && r1.state.user == Some(u1)
            && d2[DisplayNameKey] == name
            && d2[AvatarUrlKey] == AvatarUrl(publicUrl, stamp)
  {
  }
}
