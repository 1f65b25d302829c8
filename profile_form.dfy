/** The "Meus Dados" dialog: the profile fields, the optional password change and the message
    shown after saving. The authentication service is not modelled; each of its answers is a
    parameter of the handler, and the handler returns the calls it makes, in order. */
module Profile {
  import opened Text
  import opened PhoneMask

  datatype MessageKind = Success | Failure

  /** The `msg` state: its type and text. */
  datatype Message = Message(kind: MessageKind, text: string)

  /** The calls `handleSave` makes to the authentication service. */
  datatype AuthCall =
    | UpdateProfile(fullName: string, phone: string)
    | SignIn(email: string, password: string)
    | UpdatePassword(password: string)

  /** The service's answers: the error of the profile update, whether the sign-in with the
      current password failed, and the error of the password update. An error carries its
      `message`. Answers to calls that are not made are ignored. */
  datatype AuthAnswers = AuthAnswers(profileError: Option<string>, signInFails: bool, passwordError: Option<string>)

  /** The signed-in user as the dialog reads it; an absent property is `None`. */
  datatype ProfileUser = ProfileUser(email: Option<string>, fullName: Option<string>, phone: Option<string>)

  datatype ProfileState = ProfileState(
    email: string, fullName: string, phone: string, currentPassword: string, newPassword: string,
    isLoading: bool, msg: Option<Message>)

  const ShortPasswordText := "A nova senha deve ter no mínimo 6 caracteres."
  const NeedCurrentText := "Para alterar a senha, informe sua senha atual."
  const WrongCurrentText := "Senha atual incorreta."
  const SavedText := "Perfil atualizado com sucesso!"
  const FallbackText := "Erro ao atualizar perfil."

  /** `error.message || 'Erro ao atualizar perfil.'`. */
  function ErrorText(message: string): (r: string)
    ensures r != ""
    ensures message != "" ==> r == message
  {
    if message == "" then FallbackText else message
  }

  /** `String.prototype.length`: characters outside the Basic Multilingual Plane count as two
      UTF-16 code units. */
  function Utf16Length(s: string): (n: nat)
    ensures |s| <= n <= 2 * |s|
    decreases |s|
  {
    if s == [] then 0 else (if s[0] as int > 0xFFFF then 2 else 1) + Utf16Length(s[1..])
  }

  /** `s || ''`. */
  function OrEmpty(s: Option<string>): string {
    if s.Some? then s.value else ""
  }

  /** The calls `handleSave` makes, in order, and the error message it stops with, if any. */
  datatype SaveRun = SaveRun(calls: seq<AuthCall>, failure: Option<string>)

  /** The steps of `handleSave`: the profile update, then, when a new password was typed,
      the length check, the current-password check, the sign-in with the current password
      and the password update; the first error thrown ends the run. */
  function RunSave(s: ProfileState, a: AuthAnswers): SaveRun {
    var first := [UpdateProfile(s.fullName, s.phone)];
    if a.profileError.Some? then SaveRun(first, Some(ErrorText(a.profileError.value)))
    else if s.newPassword == "" then SaveRun(first, None)
    else if Utf16Length(s.newPassword) < 6 then SaveRun(first, Some(ShortPasswordText))
    else if s.currentPassword == "" then SaveRun(first, Some(NeedCurrentText))
    else
      var second := first + [SignIn(s.email, s.currentPassword)];
      if a.signInFails then SaveRun(second, Some(WrongCurrentText))
      else
        var third := second + [UpdatePassword(s.newPassword)];
        if a.passwordError.Some? then SaveRun(third, Some(ErrorText(a.passwordError.value)))
        else SaveRun(third, None)
  }

  /** The dialog's state once `handleSave` has finished. */
  function AfterSave(s: ProfileState, a: AuthAnswers): ProfileState {
    var run := RunSave(s, a);
    if run.failure.Some? then s.(isLoading := false, msg := Some(Message(Failure, run.failure.value)))
    else if s.newPassword != "" then
      s.(isLoading := false, msg := Some(Message(Success, SavedText)), newPassword := "", currentPassword := "")
    else s.(isLoading := false, msg := Some(Message(Success, SavedText)))
  }

  /** The effect of opening the dialog for `u`. */
  function AfterLoad(s: ProfileState, u: ProfileUser): ProfileState {
    s.(email := OrEmpty(u.email), fullName := OrEmpty(u.fullName), phone := OrEmpty(u.phone),
       currentPassword := "", newPassword := "", msg := None)
  }

  class ProfileForm {
    var email: string
    var fullName: string
    var phone: string
    var currentPassword: string
    var newPassword: string
    var isLoading: bool
    var msg: Option<Message>

    function State(): ProfileState
      reads this
    {
      ProfileState(email, fullName, phone, currentPassword, newPassword, isLoading, msg)
    }

    constructor ()
      ensures State() == ProfileState("", "", "", "", "", false, None)
    {
      email, fullName, phone, currentPassword, newPassword := "", "", "", "", "";
      isLoading, msg := false, None;
    }

    /** The effect that runs when the dialog opens with a signed-in user. */
    method Load(u: ProfileUser)
      modifies this`email, this`fullName, this`phone, this`currentPassword, this`newPassword, this`msg
      ensures email == AfterLoad(old(State()), u).email
      ensures fullName == AfterLoad(old(State()), u).fullName
      ensures phone == AfterLoad(old(State()), u).phone
      ensures currentPassword == "" && newPassword == "" && msg == None
    {
      email := OrEmpty(u.email);
      fullName := OrEmpty(u.fullName);
      phone := OrEmpty(u.phone);
      currentPassword, newPassword := "", "";
      msg := None;
    }

    /** `handlePhoneChange`: the field shows its input masked. */
    method ChangePhone(input: string)
      modifies this`phone
      ensures phone == Mask(input)
    {
      phone := Mask(input);
    }

    /** `handleSave` with the service's answers; returns the calls it makes, in order, and
        whether the parent was told to refresh (`onUpdate`). */
    method Save(a: AuthAnswers) returns (calls: seq<AuthCall>, refreshed: bool)
      modifies this`isLoading, this`msg, this`newPassword, this`currentPassword
      ensures calls == RunSave(old(State()), a).calls
      ensures refreshed <==> RunSave(old(State()), a).failure.None?
      ensures msg == AfterSave(old(State()), a).msg
      ensures newPassword == AfterSave(old(State()), a).newPassword
      ensures currentPassword == AfterSave(old(State()), a).currentPassword
      ensures !isLoading
    {
      isLoading := true;
      msg := None;
      var failure: Option<string> := None;
      calls := [UpdateProfile(fullName, phone)];
      if a.profileError.Some? {
        failure := Some(ErrorText(a.profileError.value));
      } else if newPassword != "" {
        if Utf16Length(newPassword) < 6 {
          failure := Some(ShortPasswordText);
        } else if currentPassword == "" {
          failure := Some(NeedCurrentText);
        } else {
          calls := calls + [SignIn(email, currentPassword)];
          if a.signInFails {
            failure := Some(WrongCurrentText);
          } else {
            calls := calls + [UpdatePassword(newPassword)];
            if a.passwordError.Some? {
              failure := Some(ErrorText(a.passwordError.value));
            }
          }
        }
      }
      refreshed := failure.None?;
      if failure.None? {
        msg := Some(Message(Success, SavedText));
        if newPassword != "" {
          newPassword := "";
          currentPassword := "";
        }
      } else {
        msg := Some(Message(Failure, failure.value));
      }
      isLoading := false;
    }
  }

  // ---------------------------------------------------------------------------------------
  // Lemmas

  /** The profile update is always the first call, so an error raised later by the password
      change comes after it and does not undo it; a profile error stops the run there. */
  lemma ProfileUpdatedFirst(s: ProfileState, a: AuthAnswers)
    ensures |RunSave(s, a).calls| >= 1 && RunSave(s, a).calls[0] == UpdateProfile(s.fullName, s.phone)
    ensures a.profileError.Some? ==> RunSave(s, a).calls == [UpdateProfile(s.fullName, s.phone)]
    ensures a.profileError.Some? ==> RunSave(s, a).failure == Some(ErrorText(a.profileError.value))
  {
  }

  /** Without a new password nothing about passwords is checked or called: the run succeeds
      exactly when the profile update does. */
  lemma EmptyPasswordNoChecks(s: ProfileState, a: AuthAnswers)
    requires s.newPassword == ""
    ensures RunSave(s, a).calls == [UpdateProfile(s.fullName, s.phone)]
    ensures RunSave(s, a).failure.None? <==> a.profileError.None?
  {
  }

  /** A new password shorter than six code units is refused whatever the current password,
      before the current password is looked at, and nobody signs in. */
  lemma ShortPasswordRefused(s: ProfileState, a: AuthAnswers, current: string)
    requires a.profileError.None? && s.newPassword != "" && Utf16Length(s.newPassword) < 6
    ensures RunSave(s.(currentPassword := current), a) == SaveRun([UpdateProfile(s.fullName, s.phone)], Some(ShortPasswordText))
  {
  }

  /** A long enough new password without the current one is refused before signing in. */
  lemma CurrentPasswordRequired(s: ProfileState, a: AuthAnswers)
    requires a.profileError.None? && s.newPassword != "" && Utf16Length(s.newPassword) >= 6
    requires s.currentPassword == ""
    ensures RunSave(s, a) == SaveRun([UpdateProfile(s.fullName, s.phone)], Some(NeedCurrentText))
  {
  }

  /** A failed sign-in with the current password gives "Senha atual incorreta." and the
      password is not updated. */
  lemma WrongCurrentPassword(s: ProfileState, a: AuthAnswers)
    requires a.profileError.None? && s.newPassword != "" && Utf16Length(s.newPassword) >= 6
    requires s.currentPassword != "" && a.signInFails
    ensures RunSave(s, a).failure == Some(WrongCurrentText)
    ensures forall p :: UpdatePassword(p) !in RunSave(s, a).calls
    ensures RunSave(s, a).calls[|RunSave(s, a).calls| - 1] == SignIn(s.email, s.currentPassword)
  {
  }

  /** The password is updated only to the new password, only after signing in with the
      current one succeeded, and only when every check passed. */
  lemma PasswordUpdateGuarded(s: ProfileState, a: AuthAnswers, p: string)
    requires UpdatePassword(p) in RunSave(s, a).calls
    ensures p == s.newPassword && Utf16Length(p) >= 6 && s.currentPassword != ""
    ensures a.profileError.None? && !a.signInFails
    ensures RunSave(s, a).calls == [UpdateProfile(s.fullName, s.phone), SignIn(s.email, s.currentPassword), UpdatePassword(p)]
  {
  }

  /** The password fields are cleared exactly when the save succeeded with a new password;
      otherwise they keep what was typed. */
  lemma PasswordsClearedOnSuccess(s: ProfileState, a: AuthAnswers)
    ensures AfterSave(s, a).newPassword != s.newPassword <==> RunSave(s, a).failure.None? && s.newPassword != ""
    ensures RunSave(s, a).failure.None? && s.newPassword != "" ==>
      AfterSave(s, a).newPassword == "" && AfterSave(s, a).currentPassword == ""
    ensures s.newPassword == "" ==> AfterSave(s, a).currentPassword == s.currentPassword
    ensures RunSave(s, a).failure.Some? ==>
      AfterSave(s, a).newPassword == s.newPassword && AfterSave(s, a).currentPassword == s.currentPassword
  {
  }

  /** Saving ends the loading state on every path and always shows a message: the success
      text exactly when no error was raised, otherwise the error's text, never empty. */
  lemma SaveEndsWithMessage(s: ProfileState, a: AuthAnswers)
    ensures !AfterSave(s, a).isLoading && AfterSave(s, a).msg.Some?
    ensures AfterSave(s, a).msg.value.kind == Success <==> RunSave(s, a).failure.None?
    ensures AfterSave(s, a).msg.value.kind == Success ==> AfterSave(s, a).msg.value.text == SavedText
    ensures AfterSave(s, a).msg.value.text != ""
    ensures AfterSave(s, a).fullName == s.fullName && AfterSave(s, a).phone == s.phone && AfterSave(s, a).email == s.email
  {
  }

  /** For text without characters outside the Basic Multilingual Plane, the length the
      check uses is the number of characters. */
  lemma {:induction false} Utf16LengthBmp(s: string)
    requires forall i :: 0 <= i < |s| ==> s[i] as int <= 0xFFFF
    ensures Utf16Length(s) == |s|
    decreases |s|
  {
    if s != [] {
      Utf16LengthBmp(s[1..]);
    }
  }
}
