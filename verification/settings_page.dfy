/** The profile and password handlers of `src/pages/Settings.tsx`, as written
    and as evidently intended.

    The session context's `updateProfile` and `updatePassword` catch every
    backend error themselves (and return at once when nobody is signed in), so
    the promise the page awaits always resolves: the page's own failure
    branch is never taken. The handlers below therefore announce success
    whatever the backend said; the `Reporting` variants show what the failure
    branch was written for. */
module SettingsPage {
  import opened Wrappers
  import Session
  import Toasts

  datatype SettingsForm = SettingsForm(
    name: string,
    email: string,
    isSubmitting: bool,
    currentPassword: string,
    newPassword: string,
    confirmPassword: string,
    isChangingPassword: bool)

  /** The payloads handed to the context. */
  datatype ProfileChange = ProfileChange(name: string, email: string)
  datatype PasswordChange = PasswordChange(currentPassword: string, newPassword: string)

  /** The form's first values: the signed-in user's name and email, or empty. */
  function InitialForm(user: Option<Session.User>): (r: SettingsForm)
    ensures user.Some? ==> r.name == user.value.name && r.email == user.value.email
    ensures user.None? ==> r.name == "" && r.email == ""
    ensures r.currentPassword == "" && r.newPassword == "" && r.confirmPassword == ""
    ensures !r.isSubmitting && !r.isChangingPassword
  {
    match user
    case Some(u) => SettingsForm(u.name, u.email, false, "", "", "", false)
    case None => SettingsForm("", "", false, "", "", "", false)
  }

  /** The effect on `authState.user`: copy a present user's name and email
      into the form; with no user the form is left alone. */
  function SyncProfile(f: SettingsForm, user: Option<Session.User>): (r: SettingsForm)
    ensures user.Some? ==> r == f.(name := user.value.name, email := user.value.email)
    ensures user.None? ==> r == f
  {
    if user.Some? then f.(name := user.value.name, email := user.value.email) else f
  }

  const PROFILE_UPDATED := Toasts.Notice("Profile updated", "Your profile information has been updated successfully.", false)
  const PROFILE_FAILED := Toasts.Notice("Update failed", "There was a problem updating your profile.", true)
  const PASSWORD_UPDATED := Toasts.Notice("Password updated", "Your password has been changed successfully.", false)
  const PASSWORD_FAILED := Toasts.Notice("Update failed", "There was a problem updating your password.", true)
  const PASSWORD_MISMATCH := Toasts.Notice("Passwords do not match", "New password and confirm password must match.", true)

  /** The outcome of one submission: the form and session afterwards, the
      page's toast, and what reached the backend (nothing when the context
      returned early). */
  datatype Outcome<P> = Outcome(form: SettingsForm, world: Session.World, notice: Toasts.Notice, sent: Option<P>)

  /** Whether the context call really changed the account. */
  predicate Succeeded<T>(w: Session.World, reply: Session.Reply<T>) {
    w.state.user.Some? && reply.Ok?
  }

  // ----- as written -----

  /** `handleUpdateProfile` as written. */
  function HandleUpdateProfile(f: SettingsForm, w: Session.World, reply: Session.Reply<Session.User>)
    : (r: Outcome<ProfileChange>)
    ensures r.world == Session.UpdateProfile(w, reply)
    ensures r.sent.Some? <==> w.state.user.Some?
    ensures r.sent.Some? ==> r.sent.value == ProfileChange(f.name, f.email)
    ensures r.notice == PROFILE_UPDATED
    ensures r.form == f.(isSubmitting := false)
  {
    Outcome(f.(isSubmitting := false), Session.UpdateProfile(w, reply),
            PROFILE_UPDATED, if w.state.user.Some? then Some(ProfileChange(f.name, f.email)) else None)
  }

  /** `handleUpdatePassword` as written. */
  function HandleUpdatePassword(f: SettingsForm, w: Session.World, reply: Session.Reply<()>)
    : (r: Outcome<PasswordChange>)
    ensures f.newPassword != f.confirmPassword ==>
      r.form == f && r.world == w && r.notice == PASSWORD_MISMATCH && r.sent.None?
    ensures f.newPassword == f.confirmPassword ==>
      && r.world == Session.UpdatePassword(w, reply)
      && (r.sent.Some? <==> w.state.user.Some?)
      && (r.sent.Some? ==> r.sent.value == PasswordChange(f.currentPassword, f.newPassword))
      && r.notice == PASSWORD_UPDATED
      && r.form == f.(currentPassword := "", newPassword := "", confirmPassword := "", isChangingPassword := false)
  {
    if f.newPassword != f.confirmPassword then Outcome(f, w, PASSWORD_MISMATCH, None)
    else
      Outcome(f.(currentPassword := "", newPassword := "", confirmPassword := "", isChangingPassword := false),
              Session.UpdatePassword(w, reply), PASSWORD_UPDATED,
              if w.state.user.Some? then Some(PasswordChange(f.currentPassword, f.newPassword)) else None)
  }

  /** The discrepancy: a password change the backend rejects is still
      announced as done, its fields are wiped, and the session records the
      failure at the same time. */
  lemma PasswordFailureAnnouncedAsSuccess(f: SettingsForm, w: Session.World, message: Option<string>)
    requires f.newPassword == f.confirmPassword && w.state.user.Some?
    ensures var r := HandleUpdatePassword(f, w, Session.Failed(message));
      && r.notice == PASSWORD_UPDATED
      && r.world.state.error.Some?
      && r.form.currentPassword == "" && r.form.newPassword == ""
  {
  }

  /** The same for the profile form. */
  lemma ProfileFailureAnnouncedAsSuccess(f: SettingsForm, w: Session.World, message: Option<string>)
    requires w.state.user.Some?
    ensures var r := HandleUpdateProfile(f, w, Session.Failed(message));
      && r.notice == PROFILE_UPDATED
      && r.world.state.error.Some?
      && r.world.state.user == w.state.user
  {
  }

  /** With nobody signed in nothing is sent, yet success is announced. */
  lemma SignedOutChangeAnnouncedAsSuccess(f: SettingsForm, w: Session.World, reply: Session.Reply<()>)
    requires f.newPassword == f.confirmPassword && w.state.user.None?
    ensures HandleUpdatePassword(f, w, reply).sent.None?
    ensures HandleUpdatePassword(f, w, reply).notice == PASSWORD_UPDATED
  {
  }

  // ----- as intended -----

  /** `handleUpdateProfile` with the context's failure reaching the page. */
  function HandleUpdateProfileReporting(f: SettingsForm, w: Session.World, reply: Session.Reply<Session.User>)
    : (r: Outcome<ProfileChange>)
    ensures r.world == Session.UpdateProfile(w, reply)
    ensures r.sent.Some? <==> w.state.user.Some?
    ensures r.sent.Some? ==> r.sent.value == ProfileChange(f.name, f.email)
    ensures r.notice == (if Succeeded(w, reply) then PROFILE_UPDATED else PROFILE_FAILED)
    ensures r.form == f.(isSubmitting := false)
  {
    Outcome(f.(isSubmitting := false), Session.UpdateProfile(w, reply),
            if Succeeded(w, reply) then PROFILE_UPDATED else PROFILE_FAILED,
            if w.state.user.Some? then Some(ProfileChange(f.name, f.email)) else None)
  }

  /** `handleUpdatePassword` with the context's failure reaching the page:
      the fields are cleared only after a real change. */
  function HandleUpdatePasswordReporting(f: SettingsForm, w: Session.World, reply: Session.Reply<()>)
    : (r: Outcome<PasswordChange>)
    ensures f.newPassword != f.confirmPassword ==>
      r.form == f && r.world == w && r.notice == PASSWORD_MISMATCH && r.sent.None?
    ensures f.newPassword == f.confirmPassword ==>
      && r.world == Session.UpdatePassword(w, reply)
      && (r.sent.Some? <==> w.state.user.Some?)
      && (r.sent.Some? ==> r.sent.value == PasswordChange(f.currentPassword, f.newPassword))
      && !r.form.isChangingPassword
  {
    if f.newPassword != f.confirmPassword then Outcome(f, w, PASSWORD_MISMATCH, None)
    else
      var sent := if w.state.user.Some? then Some(PasswordChange(f.currentPassword, f.newPassword)) else None;
      if Succeeded(w, reply) then
        Outcome(f.(currentPassword := "", newPassword := "", confirmPassword := "", isChangingPassword := false),
                Session.UpdatePassword(w, reply), PASSWORD_UPDATED, sent)
      else
        Outcome(f.(isChangingPassword := false), Session.UpdatePassword(w, reply), PASSWORD_FAILED, sent)
  }

  /** The intended promise: "Password updated" appears exactly when the
      password was changed, and the typed passwords are kept otherwise, so
      the user can retry. */
  lemma PasswordSuccessIffChanged(f: SettingsForm, w: Session.World, reply: Session.Reply<()>)
    requires f.newPassword == f.confirmPassword
    ensures var r := HandleUpdatePasswordReporting(f, w, reply);
      && (r.notice == PASSWORD_UPDATED <==> Succeeded(w, reply))
      && (r.notice == PASSWORD_UPDATED <==> r.world.state.user.Some? && r.world.state.error.None?)
      && (!Succeeded(w, reply) ==> r.form == f.(isChangingPassword := false))
  {
  }

  /** The intended promise for the profile: "Profile updated" appears exactly
      when the session holds the user the backend returned, and the form then
      follows that user. */
  lemma ProfileSuccessIffChanged(f: SettingsForm, w: Session.World, reply: Session.Reply<Session.User>)
    ensures var r := HandleUpdateProfileReporting(f, w, reply);
      && (r.notice == PROFILE_UPDATED <==> Succeeded(w, reply))
      && (r.notice == PROFILE_UPDATED ==>
            r.world.state.user == Some(reply.value)
            && SyncProfile(r.form, r.world.state.user).name == reply.value.name)
  {
  }
}
