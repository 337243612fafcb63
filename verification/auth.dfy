/** The sign-in screen (components/Auth.tsx): a three-mode state machine
    (login, register, code verification) with a six-slot one-time code. */
module Auth {
  import opened Optional

  datatype Mode = Login | Register | Verify

  datatype VerifyMethod = WhatsApp | Gmail

  /** The screen's state: the mode, the loading flag, the three credential
      fields of the login or register form, the chosen delivery method and
      the six code slots. */
  datatype AuthState = AuthState(
    mode: Mode,
    loading: bool,
    email: string,
    phone: string,
    password: string,
    verifyMethod: Option<VerifyMethod>,
    otp: seq<string>)

  /** The three inputs of the login or register form. */
  datatype Credential = Email | Phone | Password

  const OtpSlots := 6

  const InitialAuth := AuthState(Login, false, "", "", "", None, ["", "", "", "", "", ""])

  /** Six slots, each holding at most one character. */
  predicate WellFormed(s: AuthState) {
    |s.otp| == OtpSlots && forall i :: 0 <= i < |s.otp| ==> |s.otp[i]| <= 1
  }

  /** Typing into one of the form's inputs replaces that field's text and
      nothing else. */
  function SetCredential(s: AuthState, field: Credential, text: string): (r: AuthState)
    ensures field == Email ==> r.email == text
    ensures field == Phone ==> r.phone == text
    ensures field == Password ==> r.password == text
    ensures field != Email ==> r.email == s.email
    ensures field != Phone ==> r.phone == s.phone
    ensures field != Password ==> r.password == s.password
    ensures r.mode == s.mode && r.loading == s.loading
    ensures r.verifyMethod == s.verifyMethod && r.otp == s.otp
  {
    match field
    case Email => s.(email := text)
    case Phone => s.(phone := text)
    case Password => s.(password := text)
  }

  /** All three inputs are marked required, so the form submits only when
      none of them is empty. */
  predicate CredentialsFilled(s: AuthState) {
    s.email != "" && s.phone != "" && s.password != ""
  }

  /** `handleInitialAction`, the login or register form's submit, taken as
      one step: the loading flag goes up and down again and the screen moves
      to code verification. The chosen method and the code are kept. */
  function HandleInitialAction(s: AuthState): (r: AuthState)
    ensures r.mode == Verify && !r.loading
    ensures r.verifyMethod == s.verifyMethod && r.otp == s.otp
    ensures r.email == s.email && r.phone == s.phone && r.password == s.password
  {
    s.(mode := Verify, loading := false)
  }

  /** The outcome of a verify submission: the new state and how many times
      the authenticated callback ran. */
  datatype VerifyOutcome = VerifyOutcome(state: AuthState, authenticatedCalls: nat)

  /** `handleVerify`: calls the authenticated callback exactly once; the code
      in the slots is never read. */
  function HandleVerify(s: AuthState): (r: VerifyOutcome)
    ensures r.authenticatedCalls == 1
    ensures r.state.otp == s.otp && r.state.mode == s.mode && !r.state.loading
  {
    VerifyOutcome(s.(loading := false), 1)
  }

  /** `handleOtpChange`: a value longer than one character is ignored;
      otherwise slot `index` takes the value. Only slot indices are ever
      passed, one per rendered input. */
  function HandleOtpChange(otp: seq<string>, index: nat, value: string): (r: seq<string>)
    requires index < |otp|
    ensures |r| == |otp|
    ensures |value| > 1 ==> r == otp
    ensures |value| <= 1 ==> r[index] == value
    ensures forall j :: 0 <= j < |otp| && j != index ==> r[j] == otp[j]
  {
    if |value| > 1 then otp else otp[index := value]
  }

  /** Entering the same value in the same slot twice has the effect of
      entering it once. */
  lemma OtpChangeIdempotent(otp: seq<string>, index: nat, value: string)
    requires index < |otp|
    ensures HandleOtpChange(HandleOtpChange(otp, index, value), index, value) == HandleOtpChange(otp, index, value)
  {
  }

  /** `otp.some(d => !d)`: some slot is empty, scanning from the front. */
  function SomeSlotEmpty(otp: seq<string>): bool
    decreases |otp|
  {
    if otp == [] then false else otp[0] == "" || SomeSlotEmpty(otp[1..])
  }

  /** The code submit button is enabled unless loading or some slot is empty. */
  predicate VerifySubmitEnabled(s: AuthState) {
    !(s.loading || SomeSlotEmpty(s.otp))
  }

  lemma {:induction false} SomeSlotEmptyIff(otp: seq<string>)
    ensures SomeSlotEmpty(otp) <==> exists i :: 0 <= i < |otp| && otp[i] == ""
    decreases |otp|
  {
    if otp != [] {
      SomeSlotEmptyIff(otp[1..]);
      if SomeSlotEmpty(otp[1..]) {
        var i :| 0 <= i < |otp[1..]| && otp[1..][i] == "";
        assert otp[i + 1] == "";
      }
      if exists i :: 0 <= i < |otp| && otp[i] == "" {
        var i :| 0 <= i < |otp| && otp[i] == "";
        if i > 0 {
          assert otp[1..][i - 1] == "";
        }
      }
    }
  }

  /** The code submit is enabled exactly when not loading and every slot is
      filled; what the slots hold does not matter. */
  lemma VerifySubmitGate(s: AuthState)
    ensures VerifySubmitEnabled(s) <==> !s.loading && forall i :: 0 <= i < |s.otp| ==> s.otp[i] != ""
  {
    SomeSlotEmptyIff(s.otp);
  }

  /** The link under the login or register form: login becomes register and
      anything else becomes login. */
  function ToggleMode(m: Mode): (r: Mode)
    ensures r != Verify
    ensures m != Verify ==> r != m
  {
    if m == Login then Register else Login
  }

  /** Toggling twice restores the mode exactly for the two form modes. */
  lemma ToggleInvolution(m: Mode)
    ensures ToggleMode(ToggleMode(m)) == m <==> m != Verify
  {
  }

  /** The back arrow on the verification screen returns to login; the chosen
      method and the code typed so far are kept. */
  function Back(s: AuthState): (r: AuthState)
    ensures r.mode == Login
    ensures r.verifyMethod == s.verifyMethod && r.otp == s.otp && r.loading == s.loading
  {
    s.(mode := Login)
  }

  function ChooseMethod(s: AuthState, m: VerifyMethod): (r: AuthState)
    ensures r.verifyMethod == Some(m) && r.mode == s.mode && r.otp == s.otp
  {
    s.(verifyMethod := Some(m))
  }

  /** "Change delivery method" forgets the chosen method, so the method
      buttons show again; the code typed so far is kept. */
  function ResetMethod(s: AuthState): (r: AuthState)
    ensures r.verifyMethod == None && r.mode == s.mode && r.otp == s.otp
  {
    s.(verifyMethod := None)
  }

  /** The user actions on the screen. */
  datatype AuthEvent =
    | TypeInto(field: Credential, text: string)
    | SubmitCredentials
    | SubmitCode
    | OtpInput(index: nat, value: string)
    | BackClick
    | ToggleClick
    | Choose(m: VerifyMethod)
    | ChangeMethod

  /** Whether the control an event comes from is on screen and enabled. */
  predicate Available(s: AuthState, e: AuthEvent) {
    match e
    case TypeInto(_, _) => s.mode != Verify
    case SubmitCredentials => s.mode != Verify && !s.loading && CredentialsFilled(s)
    case ToggleClick => s.mode != Verify
    case BackClick => s.mode == Verify
    case Choose(_) => s.mode == Verify && s.verifyMethod.None?
    case OtpInput(i, _) => s.mode == Verify && s.verifyMethod.Some? && i < |s.otp|
    case SubmitCode => s.mode == Verify && s.verifyMethod.Some? && VerifySubmitEnabled(s)
    case ChangeMethod => s.mode == Verify && s.verifyMethod.Some?
  }

  /** The form's submit goes through exactly when the form is on screen,
      not loading, and every required input holds some text. */
  lemma CredentialsGate(s: AuthState)
    ensures Available(s, SubmitCredentials)
            <==> s.mode != Verify && !s.loading && s.email != "" && s.phone != "" && s.password != ""
  {
  }

  function Step(s: AuthState, e: AuthEvent): VerifyOutcome
    requires Available(s, e)
  {
    match e
    case TypeInto(field, text) => VerifyOutcome(SetCredential(s, field, text), 0)
    case SubmitCredentials => VerifyOutcome(HandleInitialAction(s), 0)
    case SubmitCode => HandleVerify(s)
    case OtpInput(i, v) => VerifyOutcome(s.(otp := HandleOtpChange(s.otp, i, v)), 0)
    case BackClick => VerifyOutcome(Back(s), 0)
    case ToggleClick => VerifyOutcome(s.(mode := ToggleMode(s.mode)), 0)
    case Choose(m) => VerifyOutcome(ChooseMethod(s, m), 0)
    case ChangeMethod => VerifyOutcome(ResetMethod(s), 0)
  }

  /** Plays a sequence of user actions; `None` when some action's control is
      not available at its turn. Counts the authenticated callbacks. */
  function Run(s: AuthState, events: seq<AuthEvent>): Option<VerifyOutcome>
    decreases |events|
  {
    if events == [] then Some(VerifyOutcome(s, 0))
    else if !Available(s, events[0]) then None
    else
      var first := Step(s, events[0]);
      match Run(first.state, events[1..])
      case None => None
      case Some(rest) => Some(VerifyOutcome(rest.state, first.authenticatedCalls + rest.authenticatedCalls))
  }

  /** Every sequence of user actions keeps six slots of at most one character. */
  lemma {:induction false} RunKeepsWellFormed(s: AuthState, events: seq<AuthEvent>)
    requires WellFormed(s)
    requires Run(s, events).Some?
    ensures WellFormed(Run(s, events).value.state)
    decreases |events|
  {
    if events != [] {
      var first := Step(s, events[0]);
      assert WellFormed(first.state);
      RunKeepsWellFormed(first.state, events[1..]);
    }
  }

  /** Playing two sequences one after the other. */
  lemma {:induction false} RunAppend(s: AuthState, a: seq<AuthEvent>, b: seq<AuthEvent>)
    requires Run(s, a).Some?
    ensures Run(s, a + b) ==
      match Run(Run(s, a).value.state, b)
      case None => None
      case Some(r) => Some(VerifyOutcome(r.state, Run(s, a).value.authenticatedCalls + r.authenticatedCalls))
    decreases |a|
  {
    if a == [] {
      assert a + b == b;
    } else {
      assert (a + b)[0] == a[0];
      assert (a + b)[1..] == a[1..] + b;
      RunAppend(Step(s, a[0]).state, a[1..], b);
    }
  }

  /** Typing `code[k..]` into slots k.. one by one. */
  function TypeCode(code: seq<string>, k: nat): seq<AuthEvent>
    requires k <= |code|
    decreases |code| - k
  {
    if k == |code| then [] else [OtpInput(k, code[k])] + TypeCode(code, k + 1)
  }

  /** On the code form, typing one character per slot fills the slots with
      exactly what was typed, and nothing authenticates meanwhile. */
  lemma {:induction false} TypeCodeFills(s: AuthState, code: seq<string>, k: nat)
    requires s.mode == Verify && s.verifyMethod.Some?
    requires |s.otp| == |code| && k <= |code|
    requires forall i :: 0 <= i < |code| ==> |code[i]| == 1
    requires s.otp[..k] == code[..k]
    ensures Run(s, TypeCode(code, k)) == Some(VerifyOutcome(s.(otp := code), 0))
    decreases |code| - k
  {
    if k == |code| {
      assert s.otp == s.otp[..k] == code[..k] == code;
    } else {
      var s1 := s.(otp := s.otp[k := code[k]]);
      assert Step(s, OtpInput(k, code[k])).state == s1;
      assert s1.otp[..k + 1] == code[..k + 1];
      TypeCodeFills(s1, code, k + 1);
      assert s1.(otp := code) == s.(otp := code);
    }
  }

  /** Filling in the three form inputs, in the order they are shown. */
  function FillForm(email: string, phone: string, password: string): seq<AuthEvent> {
    [TypeInto(Email, email), TypeInto(Phone, phone), TypeInto(Password, password)]
  }

  /** Whatever non-empty credentials and whatever six characters are typed,
      the sign-in flow from a fresh screen (fill in the form, submit it, pick
      a method, type the code, submit it) is allowed at every turn and
      authenticates exactly once: neither the credentials nor the code are
      checked. Submitting the fresh form without filling it in is refused. */
  lemma AnyCodeAuthenticates(email: string, phone: string, password: string, m: VerifyMethod, code: seq<string>)
    requires email != "" && phone != "" && password != ""
    requires |code| == OtpSlots
    requires forall i :: 0 <= i < |code| ==> |code[i]| == 1
    ensures var events := FillForm(email, phone, password) + [SubmitCredentials, Choose(m)] + TypeCode(code, 0) + [SubmitCode];
            Run(InitialAuth, events).Some? && Run(InitialAuth, events).value.authenticatedCalls == 1
    ensures Run(InitialAuth, [SubmitCredentials, Choose(m)] + TypeCode(code, 0) + [SubmitCode]) == None
  {
    var fill := FillForm(email, phone, password);
    var s0 := InitialAuth.(email := email, phone := phone, password := password);
    assert Run(InitialAuth, fill) == Some(VerifyOutcome(s0, 0)) by {
      var sa := InitialAuth.(email := email);
      var sb := sa.(phone := phone);
      assert fill[1..] == [TypeInto(Phone, phone), TypeInto(Password, password)];
      assert fill[1..][1..] == [TypeInto(Password, password)];
      assert [TypeInto(Password, password)][1..] == [];
      assert Run(s0, []) == Some(VerifyOutcome(s0, 0));
      assert Run(sb, [TypeInto(Password, password)]) == Some(VerifyOutcome(s0, 0));
      assert Run(sa, fill[1..]) == Some(VerifyOutcome(s0, 0));
    }
    var s2 := s0.(mode := Verify, verifyMethod := Some(m));
    var submit := [SubmitCredentials, Choose(m)];
    assert Run(s0, submit) == Some(VerifyOutcome(s2, 0)) by {
      var s1 := HandleInitialAction(s0);
      assert Run(s2, []) == Some(VerifyOutcome(s2, 0));
      assert [Choose(m)][1..] == [];
      assert Run(s1, [Choose(m)]) == Some(VerifyOutcome(s2, 0));
      assert submit[1..] == [Choose(m)];
    }
    RunAppend(InitialAuth, fill, submit);
    var prefix := fill + submit;
    TypeCodeFills(s2, code, 0);
    RunAppend(InitialAuth, prefix, TypeCode(code, 0));
    var s3 := s2.(otp := code);
    VerifySubmitGate(s3);
    assert Run(s3, [SubmitCode]) == Some(VerifyOutcome(s3, 1));
    RunAppend(InitialAuth, prefix + TypeCode(code, 0), [SubmitCode]);
    var blank := [SubmitCredentials, Choose(m)] + TypeCode(code, 0) + [SubmitCode];
    assert blank[0] == SubmitCredentials;
  }
}
