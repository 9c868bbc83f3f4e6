/** The e-mail verification screen (src/pages/VerificationPage.tsx): four
    one-character inputs for the code, verification (also fired
    automatically once the last digit is typed) and resending the code.

    A typed value is accepted unless `Number(value)` is NaN. That test is
    modelled by the grammar of StringNumericLiteral from section 7.1.4.1 of
    ECMAScript 2023, which `Number` applies to a string. */
module VerificationPage {
  import opened Basics
  import opened AuthSlice

  // ------------------------------------------------ Number(value) is NaN

  predicate IsHexDigit(c: char) {
    IsDigit(c) || ('a' <= c <= 'f') || ('A' <= c <= 'F')
  }

  /** `0x…`, `0o…` or `0b…` (either case) with at least one digit of the
      base and nothing else; no sign is allowed. */
  predicate IsNonDecimalIntegerLiteral(t: string) {
    && |t| >= 3
    && t[0] == '0'
    && (|| ((t[1] == 'x' || t[1] == 'X') && forall i | 2 <= i < |t| :: IsHexDigit(t[i]))
        || ((t[1] == 'o' || t[1] == 'O') && forall i | 2 <= i < |t| :: '0' <= t[i] <= '7')
        || ((t[1] == 'b' || t[1] == 'B') && forall i | 2 <= i < |t| :: t[i] == '0' || t[i] == '1'))
  }

  /** The position of the first `e` or `E`, or the length when there is none. */
  function ExponentStart(t: string): (k: nat)
    ensures k <= |t|
    ensures forall i | 0 <= i < k :: t[i] != 'e' && t[i] != 'E'
    ensures k < |t| ==> t[k] == 'e' || t[k] == 'E'
  {
    if t == [] || t[0] == 'e' || t[0] == 'E' then 0 else 1 + ExponentStart(t[1..])
  }

  /** An optional sign and at least one decimal digit. */
  predicate IsSignedInteger(t: string) {
    if |t| >= 1 && (t[0] == '+' || t[0] == '-') then |t| >= 2 && AllDigits(t[1..])
    else |t| >= 1 && AllDigits(t)
  }

  /** Digits with at most one decimal point, and at least one digit. */
  predicate IsMantissa(m: string) {
    var d := CountDigits(m);
    if d == |m| then d >= 1
    else m[d] == '.' && AllDigits(m[d + 1..]) && (d >= 1 || |m| > d + 1)
  }

  predicate IsUnsignedDecimalLiteral(t: string) {
    || t == "Infinity"
    || (var k := ExponentStart(t); IsMantissa(t[..k]) && (k == |t| || IsSignedInteger(t[k + 1..])))
  }

  predicate IsStrNumericLiteral(t: string) {
    || IsNonDecimalIntegerLiteral(t)
    || (if |t| >= 1 && (t[0] == '+' || t[0] == '-') then IsUnsignedDecimalLiteral(t[1..])
        else IsUnsignedDecimalLiteral(t))
  }

  /** `isNaN(Number(value))`: after stripping surrounding whitespace the
      value is neither empty (which converts to 0) nor a numeric literal. */
  function NumberIsNaN(value: string): (nan: bool)
    ensures IsBlank(value) ==> !nan
  {
    var t := Trim(value);
    t != [] && !IsStrNumericLiteral(t)
  }

  /** What a single keystroke may be: a digit or a whitespace character
      passes, anything else is NaN. The empty value passes too. */
  lemma SingleCharacterIsNumber(c: char)
    ensures !NumberIsNaN([c]) <==> IsDigit(c) || IsSpace(c)
    ensures !NumberIsNaN("")
  {
    if IsDigit(c) {
      DigitsAreNumber([c]);
    } else if !IsSpace(c) {
      UnpaddedValue([c]);
      assert !IsStrNumericLiteral([c]);
    }
  }

  /** A non-empty run of decimal digits is a number. */
  lemma DigitsAreNumber(v: string)
    requires |v| >= 1 && AllDigits(v)
    ensures !NumberIsNaN(v)
  {
    UnpaddedValue(v);
    var k := ExponentStart(v);
    assert k == |v|;
    assert v[..k] == v;
    var d := CountDigits(v);
    assert d == |v|;
    assert IsMantissa(v[..k]);
  }

  /** Surrounding whitespace does not change the outcome. */
  lemma PaddingIsIgnored(x: string, v: string, y: string)
    requires AllSpace(x) && AllSpace(y)
    requires v != [] && !IsSpace(v[0]) && !IsSpace(v[|v| - 1])
    ensures NumberIsNaN(x + v + y) <==> NumberIsNaN(v)
  {
    TrimOfPadded(x, v, y);
    assert [] + v + [] == v;
    TrimOfPadded([], v, []);
  }

  /** A value with no surrounding whitespace is NaN exactly when it is not
      a numeric literal. */
  lemma UnpaddedValue(v: string)
    requires v != [] && !IsSpace(v[0]) && !IsSpace(v[|v| - 1])
    ensures NumberIsNaN(v) <==> !IsStrNumericLiteral(v)
  {
    assert [] + v + [] == v;
    TrimOfPadded([], v, []);
  }

  predicate NoExponentMark(t: string) {
    forall i | 0 <= i < |t| :: t[i] != 'e' && t[i] != 'E'
  }

  /** Joining at a decimal point adds no exponent mark. */
  lemma PointJoinHasNoMark(a: string, b: string)
    requires NoExponentMark(a) && NoExponentMark(b)
    ensures NoExponentMark(a + ['.'] + b)
  {
    var t := a + ['.'] + b;
    assert forall i | |a| < i < |t| :: t[i] == b[i - |a| - 1];
  }

  /** The first `e` or `E` of `t` is at `k` (or there is none, `k = |t|`). */
  lemma ExponentAt(t: string, k: nat)
    requires k <= |t|
    requires forall i | 0 <= i < k :: t[i] != 'e' && t[i] != 'E'
    requires k < |t| ==> t[k] == 'e' || t[k] == 'E'
    ensures ExponentStart(t) == k
  {
  }

  /** Digits, a point and digits, with a digit on at least one side, make
      a mantissa, and hold no exponent mark. */
  lemma PointedMantissa(a: string, b: string)
    requires AllDigits(a) && AllDigits(b) && |a| + |b| >= 1
    ensures IsMantissa(a + ['.'] + b) && NoExponentMark(a + ['.'] + b)
  {
    var m := a + ['.'] + b;
    ThreeParts(a, '.', b);
    CountDigitsExact(m, |a|);
    PointJoinHasNoMark(a, b);
  }

  /** A second decimal point spoils the mantissa. */
  lemma SecondPointSpoilsMantissa(a: string, b: string, c: string)
    requires AllDigits(a) && AllDigits(b)
    ensures !IsMantissa(a + ['.'] + (b + ['.'] + c))
  {
    var m := a + ['.'] + (b + ['.'] + c);
    ThreeParts(a, '.', b + ['.'] + c);
    ThreeParts(b, '.', c);
    CountDigitsExact(m, |a|);
    assert m[|a| + 1..][|b|] == '.';
  }

  /** A mantissa, an exponent mark and a signed integer make a decimal
      literal. */
  lemma ExponentLiteral(m: string, mark: char, x: string)
    requires IsMantissa(m) && NoExponentMark(m) && (mark == 'e' || mark == 'E') && IsSignedInteger(x)
    ensures IsUnsignedDecimalLiteral(m + [mark] + x)
  {
    var t := m + [mark] + x;
    ThreeParts(m, mark, x);
    assert forall i | 0 <= i < |m| :: t[i] == m[i];
    ExponentAt(t, |m|);
  }

  /** An exponent mark with nothing after it is not a decimal literal. */
  lemma EmptyExponentIsNoLiteral(m: string, mark: char)
    requires mark == 'e' || mark == 'E'
    requires NoExponentMark(m)
    ensures !IsUnsignedDecimalLiteral(m + [mark])
  {
    var t := m + [mark];
    assert forall i | 0 <= i < |m| :: t[i] == m[i];
    ExponentAt(t, |m|);
    assert t[|m| + 1..] == [];
  }

  /** A sign in front of a decimal literal keeps it a number. */
  lemma SignedDecimal(sign: char, u: string)
    requires sign == '+' || sign == '-'
    requires IsUnsignedDecimalLiteral(u) && u != [] && !IsSpace(u[|u| - 1])
    ensures !NumberIsNaN([sign] + u)
  {
    var t := [sign] + u;
    UnpaddedValue(t);
    assert t[1..] == u;
  }

  /** A signed decimal with a fraction and an exponent, such as `-1.5e3`,
      is a number. */
  lemma NumberAcceptsExponent(sign: char, a: string, b: string, x: string)
    requires sign == '+' || sign == '-'
    requires AllDigits(a) && AllDigits(b) && |a| + |b| >= 1
    requires |x| >= 1 && AllDigits(x)
    ensures !NumberIsNaN([sign] + (a + ['.'] + b + ['e'] + x))
  {
    var m := a + ['.'] + b;
    PointedMantissa(a, b);
    ExponentLiteral(m, 'e', x);
    var u := m + ['e'] + x;
    assert u[|u| - 1] == x[|x| - 1];
    SignedDecimal(sign, u);
  }

  /** A hexadecimal literal, such as `0x1F`, is a number. */
  lemma NumberAcceptsHex(h: string)
    requires |h| >= 1 && forall i | 0 <= i < |h| :: IsHexDigit(h[i])
    ensures !NumberIsNaN("0x" + h)
  {
    var t := "0x" + h;
    assert t[|t| - 1] == h[|h| - 1];
    UnpaddedValue(t);
    assert forall i | 2 <= i < |t| :: t[i] == h[i - 2];
    assert IsNonDecimalIntegerLiteral(t);
  }

  /** A mantissa without an exponent mark is a decimal literal. */
  lemma MantissaLiteral(t: string)
    requires IsMantissa(t) && NoExponentMark(t)
    ensures IsUnsignedDecimalLiteral(t)
  {
    ExponentAt(t, |t|);
    assert t[..|t|] == t;
  }

  /** A fraction without an integer part, such as `.5`, is a number. */
  lemma NumberAcceptsFraction(b: string)
    requires |b| >= 1 && AllDigits(b)
    ensures !NumberIsNaN(['.'] + b)
  {
    var t := ['.'] + b;
    assert [] + ['.'] + b == t;
    PointedMantissa([], b);
    MantissaLiteral(t);
    assert t[0] == '.' && t[|t| - 1] == b[|b| - 1];
    UnpaddedValue(t);
  }

  /** Two decimal points, as in `1.2.3`, make NaN. */
  lemma NumberRejectsTwoPoints(a: string, b: string, c: string)
    requires |a| >= 1 && AllDigits(a) && AllDigits(b) && |c| >= 1 && AllDigits(c)
    ensures NumberIsNaN(a + ['.'] + (b + ['.'] + c))
  {
    var tail := b + ['.'] + c;
    var t := a + ['.'] + tail;
    PointJoinHasNoMark(b, c);
    PointJoinHasNoMark(a, tail);
    ThreeParts(a, '.', tail);
    assert t[|t| - 1] == c[|c| - 1];
    UnpaddedValue(t);
    ExponentAt(t, |t|);
    SecondPointSpoilsMantissa(a, b, c);
    NotMantissaIsNaN(t);
  }

  /** A string without sign or base prefix and without an exponent mark
      whose whole is no mantissa is NaN. */
  lemma NotMantissaIsNaN(t: string)
    requires |t| >= 2 && IsDigit(t[0]) && (IsDigit(t[1]) || t[1] == '.')
    requires ExponentStart(t) == |t| && !IsMantissa(t)
    ensures !IsStrNumericLiteral(t)
  {
    assert !IsNonDecimalIntegerLiteral(t);
    assert t != "Infinity" by { assert "Infinity"[0] == 'I'; }
    assert t[..|t|] == t;
    assert !IsUnsignedDecimalLiteral(t);
  }

  lemma NumberRejectsLetters()
    ensures NumberIsNaN("abc")
  {
    UnpaddedValue("abc");
    ExponentAt("abc", 3);
    assert "abc"[..3] == "abc";
    CountDigitsExact("abc", 0);
  }

  /** A sign before a hexadecimal literal, as in `-0x1`, makes NaN. */
  lemma NumberRejectsSignedHex(sign: char, h: string)
    requires sign == '+' || sign == '-'
    requires |h| >= 1 && forall i | 0 <= i < |h| :: IsHexDigit(h[i])
    ensures NumberIsNaN([sign] + ("0x" + h))
  {
    var u := "0x" + h;
    var t := [sign] + u;
    assert t[|t| - 1] == h[|h| - 1];
    UnpaddedValue(t);
    assert t[1..] == u;
    assert !IsNonDecimalIntegerLiteral(t);
    assert u != "Infinity" by { assert "Infinity"[0] == 'I'; }
    var k := ExponentStart(u);
    assert k >= 2 by { assert u[0] == '0' && u[1] == 'x'; }
    var m := u[..k];
    assert m[1] == 'x' && m[..1] == "0";
    CountDigitsExact(m, 1);
    assert !IsMantissa(m);
  }

  /** An exponent mark without digits, as in `1e`, makes NaN. */
  lemma NumberRejectsEmptyExponent(a: string)
    requires |a| >= 1 && AllDigits(a)
    ensures NumberIsNaN(a + ['e'])
  {
    var t := a + ['e'];
    assert t[0] == a[0];
    UnpaddedValue(t);
    EmptyExponentIsNoLiteral(a, 'e');
  }

  // --------------------------------------------------------------- page

  /** The resend button's own status, kept by the page. */
  datatype ResendUi = ResendIdle | Sending | Sent

  datatype VerifyPage = VerifyPage(code: seq<string>, error: Option<string>, resendStatus: ResendUi)

  /** The page and the part of the store it reads and writes. */
  datatype Screen = Screen(page: VerifyPage, auth: AuthState)

  const EmptyCode: seq<string> := ["", "", "", ""]
  const InitialVerifyPage: VerifyPage := VerifyPage(EmptyCode, None, ResendIdle)

  const IncompleteCodeMessage: string := "Please enter the complete verification code"
  const EmailMissingMessage: string := "Email address is missing"
  const InvalidServerResponseMessage: string := "Invalid server response"
  const VerifyRetryMessage: string := "Verification failed. Please try again."
  const ResendRetryMessage: string := "Failed to resend code. Please try again."

  /** Four entries of at most one character each, as the inputs'
      `maxLength` allows. */
  predicate WellFormedCode(code: seq<string>) {
    |code| == 4 && forall i | 0 <= i < 4 :: |code[i]| <= 1
  }

  predicate AllFilled(code: seq<string>) {
    forall i | 0 <= i < |code| :: code[i] != ""
  }

  /** The first half of `handleCodeChange`: a NaN value is ignored;
      otherwise it replaces the entry at `index` and clears the error. */
  function CodeChange(p: VerifyPage, index: nat, value: string): (r: VerifyPage)
    requires |p.code| == 4 && index < 4
    ensures NumberIsNaN(value) ==> r == p
    ensures !NumberIsNaN(value) ==> r.code == p.code[index := value] && r.error.None? && r.resendStatus == p.resendStatus
    ensures |r.code| == 4
    ensures forall i | 0 <= i < 4 && i != index :: r.code[i] == p.code[i]
    ensures WellFormedCode(p.code) && |value| <= 1 ==> WellFormedCode(r.code)
  {
    if NumberIsNaN(value) then p else p.(code := p.code[index := value], error := None)
  }

  /** The automatic verification fires only for a non-empty value typed
      into the last input when it fills the code. */
  predicate AutoVerifies(p: VerifyPage, index: nat, value: string)
    requires |p.code| == 4 && index < 4
  {
    !NumberIsNaN(value) && index == 3 && value != "" && AllFilled(CodeChange(p, index, value).code)
  }

  /** `handleVerify`: a code that is not four characters long or a missing
      e-mail stops with a message and dispatches nothing. Otherwise
      `verifyCode` is dispatched; a success that carries both tokens signs
      the user in. Every other outcome shows a message and empties the code.
      A rejected `verifyCode` throws its rejection text, a plain string with
      no `message` field, so the page shows its own generic message rather
      than the server's. */
  function HandleVerify(sc: Screen, verificationCode: seq<string>, response: Response<TokenResponse>): (r: Screen)
    ensures |Concat(verificationCode)| != 4 ==>
      r == sc.(page := sc.page.(error := Some(IncompleteCodeMessage)))
    ensures |Concat(verificationCode)| == 4 && !Truthy(sc.auth.verificationEmail) ==>
      r == sc.(page := sc.page.(error := Some(EmailMissingMessage)))
    ensures Dispatches(sc, verificationCode) && TokensPresent(response) ==>
      r.page == sc.page && r.auth.isAuthenticated && r.auth.user == response.value.user &&
      r.auth.verificationStatus == Success
    ensures Dispatches(sc, verificationCode) && !TokensPresent(response) ==>
      r.page.code == EmptyCode && r.page.resendStatus == sc.page.resendStatus
    ensures Dispatches(sc, verificationCode) && response.Ok? && !TokensPresent(response) ==>
      r.page.error == Some(InvalidServerResponseMessage)
    ensures Dispatches(sc, verificationCode) && response.Err? ==>
      r.page.error == Some(VerifyRetryMessage) && r.auth.verificationStatus == Failed
  {
    var codeString := Concat(verificationCode);
    if |codeString| != 4 then sc.(page := sc.page.(error := Some(IncompleteCodeMessage)))
    else if !Truthy(sc.auth.verificationEmail) then sc.(page := sc.page.(error := Some(EmailMissingMessage)))
    else
      var auth := DispatchVerify(sc.auth, response);
      if TokensPresent(response) then
        Screen(sc.page, Reduce(auth, SetAuthState(true, response.value.user)))
      else
        var message := if response.Ok? then InvalidServerResponseMessage else VerifyRetryMessage;
        Screen(sc.page.(error := Some(message), code := EmptyCode), auth)
  }

  /** Both validation checks of `handleVerify` pass. */
  predicate Dispatches(sc: Screen, verificationCode: seq<string>) {
    |Concat(verificationCode)| == 4 && Truthy(sc.auth.verificationEmail)
  }

  predicate TokensPresent(response: Response<TokenResponse>) {
    response.Ok? && Truthy(response.value.access) && Truthy(response.value.refresh)
  }

  /** The whole of `handleCodeChange`. */
  function HandleCodeChange(sc: Screen, index: nat, value: string, response: Response<TokenResponse>): (r: Screen)
    requires |sc.page.code| == 4 && index < 4
    ensures NumberIsNaN(value) ==> r == sc
    ensures !AutoVerifies(sc.page, index, value) ==> r == sc.(page := CodeChange(sc.page, index, value))
    ensures AutoVerifies(sc.page, index, value) ==> r == HandleVerify(sc.(page := CodeChange(sc.page, index, value)), CodeChange(sc.page, index, value).code, response)
  {
    var p := CodeChange(sc.page, index, value);
    if AutoVerifies(sc.page, index, value) then
      HandleVerify(sc.(page := p), p.code, response)
    else sc.(page := p)
  }

  lemma {:induction false} ConcatLength(code: seq<string>)
    requires forall i | 0 <= i < |code| :: |code[i]| <= 1
    ensures |Concat(code)| <= |code|
    ensures |Concat(code)| == |code| <==> AllFilled(code)
    decreases |code|
  {
    if code != [] {
      ConcatLength(code[1..]);
      assert AllFilled(code) <==> code[0] != "" && AllFilled(code[1..]) by {
        assert forall i | 1 <= i < |code| :: code[i] == code[1..][i - 1];
      }
    }
  }

  /** For a code the inputs can hold, the length check of `handleVerify`
      passes exactly when every input is filled. */
  lemma FilledCodeHasLengthFour(code: seq<string>)
    requires WellFormedCode(code)
    ensures |Concat(code)| == 4 <==> AllFilled(code)
  {
    ConcatLength(code);
  }

  /** The Verify button: enabled when every digit is filled, nothing is
      loading and the code is not already accepted. Pressing it when enabled
      always passes the handler's length check. */
  function VerifyEnabled(sc: Screen): (enabled: bool)
    ensures enabled && WellFormedCode(sc.page.code) ==> |Concat(sc.page.code)| == 4
  {
    var enabled := !sc.auth.isLoading && AllFilled(sc.page.code) && sc.auth.verificationStatus != Success;
    if WellFormedCode(sc.page.code) then FilledCodeHasLengthFour(sc.page.code); enabled else enabled
  }

  /** Pressing an enabled Verify button always passes the length check. */
  lemma EnabledVerifyPassesLengthCheck(sc: Screen)
    requires WellFormedCode(sc.page.code) && VerifyEnabled(sc)
    ensures |Concat(sc.page.code)| == 4
  {
    FilledCodeHasLengthFour(sc.page.code);
  }

  /** `handleResendCode`: without an e-mail it only shows a message;
      otherwise `resendCode` is dispatched, a success marks the code sent and
      empties the inputs, a failure shows a message. */
  function HandleResend(sc: Screen, response: Response<()>): (r: Screen)
    ensures !Truthy(sc.auth.verificationEmail) ==> r == sc.(page := sc.page.(error := Some(EmailMissingMessage)))
    ensures Truthy(sc.auth.verificationEmail) ==> r.auth == DispatchResend(sc.auth, response)
    ensures Truthy(sc.auth.verificationEmail) && response.Ok? ==>
      r.page == sc.page.(resendStatus := Sent, code := EmptyCode)
    ensures Truthy(sc.auth.verificationEmail) && response.Err? ==>
      r.page == sc.page.(resendStatus := ResendIdle, error := Some(ResendRetryMessage))
  {
    if !Truthy(sc.auth.verificationEmail) then sc.(page := sc.page.(error := Some(EmailMissingMessage)))
    else
      var auth := DispatchResend(sc.auth, response);
      if response.Ok? then Screen(sc.page.(resendStatus := Sent, code := EmptyCode), auth)
      else Screen(sc.page.(resendStatus := ResendIdle, error := Some(ResendRetryMessage)), auth)
  }

  /** The code inputs never hold more than one character each, whatever is
      typed (one character at a time), verified or resent. */
  lemma CodeStaysWellFormed(sc: Screen, index: nat, value: string, tokens: Response<TokenResponse>, unit: Response<()>)
    requires WellFormedCode(sc.page.code) && index < 4 && |value| <= 1
    ensures WellFormedCode(HandleCodeChange(sc, index, value, tokens).page.code)
    ensures WellFormedCode(HandleResend(sc, unit).page.code)
  {
    var p := CodeChange(sc.page, index, value);
    assert WellFormedCode(p.code);
    VerifyKeepsCodeWellFormed(sc.(page := p), p.code, tokens);
  }

  lemma VerifyKeepsCodeWellFormed(sc: Screen, verificationCode: seq<string>, tokens: Response<TokenResponse>)
    requires WellFormedCode(sc.page.code)
    ensures WellFormedCode(HandleVerify(sc, verificationCode, tokens).page.code)
  {
  }

  /** Typing the fourth digit into an otherwise filled code dispatches the
      verification at once. */
  lemma LastDigitDispatches(sc: Screen, value: string, response: Response<TokenResponse>)
    requires WellFormedCode(sc.page.code) && |value| == 1 && !NumberIsNaN(value)
    requires forall i | 0 <= i < 3 :: sc.page.code[i] != ""
    requires Truthy(sc.auth.verificationEmail)
    ensures AutoVerifies(sc.page, 3, value)
    ensures HandleCodeChange(sc, 3, value, response).auth.verificationStatus == (if response.Ok? then Success else Failed)
  {
    var p := CodeChange(sc.page, 3, value);
    assert AllFilled(p.code);
    FilledCodeHasLengthFour(p.code);
  }

  /** A successful response without both tokens is shown as an invalid
      response, yet the store already records the verification as a success
      (the page's effect then navigates on), and the inputs are emptied. */
  lemma AcceptedWithoutTokens(sc: Screen, verificationCode: seq<string>, result: TokenResponse)
    requires Dispatches(sc, verificationCode)
    requires !(Truthy(result.access) && Truthy(result.refresh))
    ensures HandleVerify(sc, verificationCode, Ok(result)).page.error == Some(InvalidServerResponseMessage)
    ensures HandleVerify(sc, verificationCode, Ok(result)).auth.verificationStatus == Success
  {
  }
}
