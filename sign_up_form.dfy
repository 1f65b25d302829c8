/** The sign-up page: four required fields, the sign-up call and the error line under the
    form. The authentication service is not modelled; its answer is a parameter of the
    handler, and the handler returns the call it makes. */
module SignUp {
  import opened Text
  import opened PhoneMask

  datatype SignUpState = SignUpState(
    fullName: string, phone: string, email: string, password: string, isLoading: bool, error: string)

  /** `supabase.auth.signUp` with the name and the phone as user metadata. */
  datatype SignUpCall = SignUpCall(email: string, password: string, fullName: string, phone: string)

  const FillAllText := "Por favor, preencha todos os campos."
  const ShortPasswordMessage := "Password should be at least 6 characters"
  const ShortPasswordText := "A senha deve ter no mínimo 6 caracteres."
  const RegisteredMessage := "User already registered"
  const RegisteredText := "Este usuário já está cadastrado."

  /** The service's two known error messages are shown in Portuguese; any other message
      is shown as it is. */
  function ErrorMessage(message: string): string {
    if message == ShortPasswordMessage then ShortPasswordText
    else if message == RegisteredMessage then RegisteredText
    else message
  }

  /** `fullName && phone && email && password`. */
  predicate Filled(s: SignUpState) {
    s.fullName != "" && s.phone != "" && s.email != "" && s.password != ""
  }

  /** The page's state once `handleSubmit` has finished, given the error the service
      answered with, if any. */
  function AfterSubmit(s: SignUpState, answer: Option<string>): SignUpState {
    if !Filled(s) then s.(error := FillAllText)
    else if answer.Some? then s.(isLoading := false, error := ErrorMessage(answer.value))
    else s.(isLoading := true, error := "")
  }

  class SignUpForm {
    var fullName: string
    var phone: string
    var email: string
    var password: string
    var isLoading: bool
    var error: string

    function State(): SignUpState
      reads this
    {
      SignUpState(fullName, phone, email, password, isLoading, error)
    }

    constructor ()
      ensures State() == SignUpState("", "", "", "", false, "")
    {
      fullName, phone, email, password := "", "", "", "";
      isLoading, error := false, "";
    }

    /** The phone field's inline `onChange`: the same mask as the profile dialog's. */
    method ChangePhone(input: string)
      modifies this`phone
      ensures phone == Mask(input)
    {
      phone := Mask(input);
    }

    /** `handleSubmit` with the service's answer; returns the call it makes, if any. */
    method Submit(answer: Option<string>) returns (call: Option<SignUpCall>)
      modifies this`isLoading, this`error
      ensures call.Some? <==> Filled(old(State()))
      ensures call.Some? ==> call.value == SignUpCall(email, password, fullName, phone)
      ensures isLoading == AfterSubmit(old(State()), answer).isLoading
      ensures error == AfterSubmit(old(State()), answer).error
    {
      if fullName == "" || phone == "" || email == "" || password == "" {
        error := FillAllText;
        return None;
      }
      isLoading := true;
      error := "";
      call := Some(SignUpCall(email, password, fullName, phone));
      if answer.Some? {
        var message := answer.value;
        if message == ShortPasswordMessage {
          message := ShortPasswordText;
        } else if message == RegisteredMessage {
          message := RegisteredText;
        }
        error := message;
        isLoading := false;
      }
    }
  }

  // ---------------------------------------------------------------------------------------
  // Lemmas

  /** A missing field gives the fill-in message and changes nothing else; in particular the
      loading state is left as it was. */
  lemma MissingFieldRefused(s: SignUpState, answer: Option<string>)
    requires s.fullName == "" || s.phone == "" || s.email == "" || s.password == ""
    ensures AfterSubmit(s, answer) == s.(error := FillAllText)
    ensures AfterSubmit(s, answer).isLoading == s.isLoading
  {
  }

  /** The service's two known messages are translated, and neither English text is ever
      shown. */
  lemma KnownErrorsTranslated(message: string)
    ensures ErrorMessage(ShortPasswordMessage) == ShortPasswordText
    ensures ErrorMessage(RegisteredMessage) == RegisteredText
    ensures ErrorMessage(message) != ShortPasswordMessage && ErrorMessage(message) != RegisteredMessage
  {
  }

  /** Any other message is shown unchanged. */
  lemma OtherErrorsPassThrough(message: string)
    requires message != ShortPasswordMessage && message != RegisteredMessage
    ensures ErrorMessage(message) == message
  {
  }

  /** With every field filled, an error stops the loading state and shows the mapped
      message; success keeps the loading state on and the error line empty. */
  lemma SubmitOutcome(s: SignUpState, answer: Option<string>)
    requires Filled(s)
    ensures answer.Some? ==> !AfterSubmit(s, answer).isLoading && AfterSubmit(s, answer).error == ErrorMessage(answer.value)
    ensures answer.None? ==> AfterSubmit(s, answer).isLoading && AfterSubmit(s, answer).error == ""
    ensures AfterSubmit(s, answer).fullName == s.fullName && AfterSubmit(s, answer).password == s.password
  {
  }

  /** The page shows an error line exactly when a field is missing or the service answered
      with a non-empty message. */
  lemma ErrorShownIff(s: SignUpState, answer: Option<string>)
    ensures AfterSubmit(s, answer).error != "" <==> !Filled(s) || (answer.Some? && answer.value != "")
  {
  }
}
