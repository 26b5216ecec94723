/**
 * The sign-in screen (frontend/screens/LoginScreen.js): the submit that logs in or
 * registers, the client-side sign-up gate, and the mode switch.
 */
module Login {
  import opened Wrappers

  /** The five text fields. */
  datatype Fields = Fields(email: string, password: string, realName: string, group: string, displayedName: string)

  const EmptyFields := Fields([], [], [], [], [])

  /** The screen's state. */
  datatype LoginState = LoginState(isLogin: bool, fields: Fields, error: Option<string>)

  /** The API call a submit makes. */
  datatype AuthCall = NoCall | LoginCall(email: string, password: string) | RegisterCall(form: Fields)

  const TooShortAlert := "Password or Displayed Name Too Short!"

  /** `password.length > 7 && displayedName.length > 1`. */
  predicate SignUpAllowed(f: Fields)
  {
    |f.password| > 7 && |f.displayedName| > 1
  }

  /** The call `handleSubmit` makes for the current mode and fields. */
  function CallOf(s: LoginState): AuthCall
  {
    if s.isLogin then LoginCall(s.fields.email, s.fields.password)
    else if SignUpAllowed(s.fields) then RegisterCall(s.fields)
    else NoCall
  }

  /** What one submit does: the call made, whether the too-short alert shows, whether
      the screen moves on to Main, and the error it ends with. `thrown` is the message
      of the error the awaited call throws, if it throws. */
  datatype SubmitResult = SubmitResult(call: AuthCall, alerted: bool, navigated: bool, error: Option<string>)

  function SubmitOf(s: LoginState, thrown: Option<string>): SubmitResult
  {
    var call := CallOf(s);
    var throws := call != NoCall && thrown.Some?;
    SubmitResult(call, call == NoCall, !throws, if throws then thrown else None)
  }

  /** The submit calls `login` with exactly the entered credentials in login mode, and
      `register` with the form in sign-up mode exactly when the gate passes; otherwise it
      alerts and calls nothing. */
  lemma SubmitCalls(s: LoginState, thrown: Option<string>)
    ensures var r := SubmitOf(s, thrown);
      && (s.isLogin ==> r.call == LoginCall(s.fields.email, s.fields.password))
      && (r.call.RegisterCall? <==> !s.isLogin && SignUpAllowed(s.fields))
      && (r.alerted <==> !s.isLogin && !SignUpAllowed(s.fields))
      && (r.alerted ==> r.call == NoCall)
  {
  }

  /** The screen moves on whenever nothing throws, a refused sign-up included; a thrown
      error's message is kept and the screen stays. Every submit starts by clearing the
      previous error, so an earlier error never survives a submit. */
  lemma SubmitNavigates(s: LoginState, thrown: Option<string>)
    ensures var r := SubmitOf(s, thrown);
      && (r.navigated <==> r.call == NoCall || thrown.None?)
      && (!r.navigated ==> r.error == thrown)
      && (r.navigated ==> r.error.None?)
      && (!s.isLogin && !SignUpAllowed(s.fields) ==> r.navigated)
  {
  }

  class LoginScreen {
    var isLogin: bool
    var fields: Fields
    var error: Option<string>

    function State(): LoginState
      reads this
    {
      LoginState(isLogin, fields, error)
    }

    constructor()
      ensures State() == LoginState(true, EmptyFields, None)
    {
      isLogin, fields, error := true, EmptyFields, None;
    }

    /** `handleSubmit`. Only the error changes. */
    method HandleSubmit(thrown: Option<string>) returns (r: SubmitResult)
      modifies this
      ensures r == SubmitOf(old(State()), thrown)
      ensures State() == old(State()).(error := r.error)
    {
      error := None;
      var call := NoCall;
      var alerted := false;
      if isLogin {
        call := LoginCall(fields.email, fields.password);
      } else if |fields.password| > 7 && |fields.displayedName| > 1 {
        call := RegisterCall(fields);
      } else {
        alerted := true;
      }
      var navigated := true;
      if call != NoCall && thrown.Some? {
        error := thrown;
        navigated := false;
      }
      r := SubmitResult(call, alerted, navigated, error);
    }

    /** The "Switch to ..." button: flips the mode and clears the error and all five
        fields. */
    method SwitchMode()
      modifies this
      ensures State() == LoginState(!old(isLogin), EmptyFields, None)
    {
      isLogin := !isLogin;
      error := None;
      fields := EmptyFields;
    }
  }
}
