/** The registration page: the anonymous username proposed on arrival, the Aadhar-number check,
    the one-time code shown on screen, and the check of the code the user types back. Random
    draws are parameters in [0, 1); the server is a function from the request to its reply, or
    `None` when the request fails. */
module Register {
  import opened Maybe
  import opened Strings
  import opened Feed

  // ---------------------------------------------------------------- anonymous username

  const Adjectives: seq<string> := ["Cool", "Happy", "Smart", "Fast", "Brave"]
  const Animals: seq<string> := ["Tiger", "Lion", "Eagle", "Shark", "Panda"]

  /** The powers of ten that bound three- and six-digit numbers. */
  lemma PowersOfTen()
    ensures Pow10(2) == 100 && Pow10(3) == 1000 && Pow10(5) == 100000 && Pow10(6) == 1000000
  {
    assert Pow10(1) == 10;
    assert Pow10(4) == 10000;
  }

  /** A random draw in [0, 1). */
  predicate IsDraw(r: real)
  {
    0.0 <= r < 1.0
  }

  /** `Math.floor(draw * n)`: an index into a list of `n` entries. */
  function Pick(draw: real, n: nat): (k: nat)
    requires IsDraw(draw) && n > 0
    ensures k < n
  {
    assert draw * n as real < n as real;
    (draw * n as real).Floor
  }

  /** `Math.floor(100 + draw * 900)`. */
  function ThreeDigitNumber(draw: real): (n: nat)
    requires IsDraw(draw)
    ensures 100 <= n <= 999
  {
    (100.0 + draw * 900.0).Floor
  }

  /** `generateAnonymousUsername()`: "Anon_", a listed adjective, a listed animal, and a
      three-digit number from 100 to 999. */
  function AnonymousUsername(adjDraw: real, animalDraw: real, numberDraw: real): (u: string)
    requires IsDraw(adjDraw) && IsDraw(animalDraw) && IsDraw(numberDraw)
    ensures |u| >= 8 && StartsWith(u, "Anon_")
    ensures exists i, j :: 0 <= i < |Adjectives| && 0 <= j < |Animals| && u == "Anon_" + Adjectives[i] + Animals[j] + u[|u| - 3..]
    ensures AllDigits(u[|u| - 3..]) && u[|u| - 3] != '0'
    ensures DecimalValue(u[|u| - 3..]) == ThreeDigitNumber(numberDraw)
  {
    var adj := Adjectives[Pick(adjDraw, |Adjectives|)];
    var animal := Animals[Pick(animalDraw, |Animals|)];
    var n := ThreeDigitNumber(numberDraw);
    var digits := DecimalString(n);
    PowersOfTen();
    DecimalLength(n, 3);
    DecimalRoundTrip(n);
    var u := "Anon_" + adj + animal + digits;
    assert u[|u| - 3..] == digits;
    assert u[..5] == "Anon_";
    u
  }

  // ---------------------------------------------------------------- Aadhar number and code

  /** The Aadhar test: not empty, exactly twelve characters, and digits only. */
  function AadharAccepted(aadhar: string): (ok: bool)
    ensures ok <==> |aadhar| == 12 && forall i :: 0 <= i < |aadhar| ==> '0' <= aadhar[i] <= '9'
  {
    !(aadhar == "" || |aadhar| != 12 || !(|aadhar| >= 1 && AllDigits(aadhar)))
  }

  /** `Math.floor(100000 + draw * 900000)`: a code of exactly six digits. */
  function OtpCode(draw: real): (code: nat)
    requires IsDraw(draw)
    ensures 100000 <= code <= 999999
    ensures |DecimalString(code)| == 6
  {
    var code := (100000.0 + draw * 900000.0).Floor;
    PowersOfTen();
    DecimalLength(code, 6);
    code
  }

  /** The typed code is accepted when it is the decimal text of the code shown. */
  predicate OtpMatches(entered: string, code: nat): (b: bool)
    ensures b ==> entered != [] && AllDigits(entered) && DecimalValue(entered) == code
  {
    DecimalRoundTrip(code);
    entered == DecimalString(code)
  }

  /** For a six-digit code, the text comparison accepts exactly the six-digit strings whose
      value is the code: no leading zero, sign, space or extra digit gets through. */
  lemma OtpMatchExactly(entered: string, code: nat)
    requires 100000 <= code <= 999999
    ensures OtpMatches(entered, code) <==> |entered| == 6 && AllDigits(entered) && DecimalValue(entered) == code
  {
    PowersOfTen();
    DecimalLength(code, 6);
    DecimalRoundTrip(code);
    if |entered| == 6 && AllDigits(entered) && DecimalValue(entered) == code {
      LeadingZeroSmall(entered);
      DecimalCanonical(entered);
    }
  }

  // ---------------------------------------------------------------- the page's state

  /** The body of the registration request; the age is fixed at 18. */
  datatype RegisterRequest = RegisterRequest(username: string, email: string, password: string, name: string, age: int)

  datatype RegisterReply = RegisterReply(success: bool, error: Option<string>)

  const InvalidAadharMessage: string := "Enter a valid 12-digit Aadhar number"
  const InvalidOtpMessage: string := "❌ Invalid OTP, try again"

  /** The registration page's state. Before a code is sent only "Send OTP" is offered; after,
      only "Verify OTP". */
  class RegisterForm {
    var fullName: string
    var username: string
    var email: string
    var aadhar: string
    var password: string
    var otp: string
    var generatedOtp: Option<nat>
    var isOtpSent: bool
    var message: string

    /** A code exists exactly when it has been sent, and it has six digits. */
    predicate Valid()
      reads this
    {
      && (isOtpSent <==> generatedOtp.Some?)
      && (generatedOtp.Some? ==> 100000 <= generatedOtp.value <= 999999)
    }

    constructor(adjDraw: real, animalDraw: real, numberDraw: real)
      requires IsDraw(adjDraw) && IsDraw(animalDraw) && IsDraw(numberDraw)
      ensures username == AnonymousUsername(adjDraw, animalDraw, numberDraw)
      ensures fullName == "" && email == "" && aadhar == "" && password == "" && otp == "" && message == ""
      ensures !isOtpSent && generatedOtp.None? && Valid()
    {
      fullName := "";
      username := AnonymousUsername(adjDraw, animalDraw, numberDraw);
      email := "";
      aadhar := "";
      password := "";
      otp := "";
      generatedOtp := None;
      isOtpSent := false;
      message := "";
    }

    method SetFullName(text: string)
      modifies this
      ensures fullName == text
      ensures username == old(username) && email == old(email) && password == old(password) && aadhar == old(aadhar)
      ensures otp == old(otp) && generatedOtp == old(generatedOtp) && isOtpSent == old(isOtpSent) && message == old(message)
    {
      fullName := text;
    }

    method SetUsername(text: string)
      modifies this
      ensures username == text
      ensures fullName == old(fullName) && email == old(email) && password == old(password) && aadhar == old(aadhar)
      ensures otp == old(otp) && generatedOtp == old(generatedOtp) && isOtpSent == old(isOtpSent) && message == old(message)
    {
      username := text;
    }

    method SetEmail(text: string)
      modifies this
      ensures email == text
      ensures fullName == old(fullName) && username == old(username) && password == old(password) && aadhar == old(aadhar)
      ensures otp == old(otp) && generatedOtp == old(generatedOtp) && isOtpSent == old(isOtpSent) && message == old(message)
    {
      email := text;
    }

    method SetPassword(text: string)
      modifies this
      ensures password == text
      ensures fullName == old(fullName) && username == old(username) && email == old(email) && aadhar == old(aadhar)
      ensures otp == old(otp) && generatedOtp == old(generatedOtp) && isOtpSent == old(isOtpSent) && message == old(message)
    {
      password := text;
    }

    method SetAadhar(text: string)
      modifies this
      ensures aadhar == text
      ensures otp == old(otp) && generatedOtp == old(generatedOtp) && isOtpSent == old(isOtpSent)
      ensures message == old(message) && username == old(username) && email == old(email)
      ensures password == old(password) && fullName == old(fullName)
    {
      aadhar := text;
    }

    method SetOtp(text: string)
      modifies this
      ensures otp == text
      ensures aadhar == old(aadhar) && generatedOtp == old(generatedOtp) && isOtpSent == old(isOtpSent)
      ensures message == old(message) && username == old(username) && email == old(email)
      ensures password == old(password) && fullName == old(fullName)
    {
      otp := text;
    }

    /** `handleSendOtp`: a rejected Aadhar number only sets the message; an accepted one draws
        a code, marks it sent and shows it. */
    method SendOtp(draw: real)
      requires IsDraw(draw) && !isOtpSent && Valid()
      modifies this
      ensures Valid()
      ensures !AadharAccepted(aadhar) ==>
                !isOtpSent && generatedOtp.None? && message == InvalidAadharMessage
      ensures AadharAccepted(aadhar) ==>
                && isOtpSent && generatedOtp == Some(OtpCode(draw))
                && message == "OTP sent to your registered mobile (Demo OTP: " + DecimalString(OtpCode(draw)) + ")"
      ensures aadhar == old(aadhar) && otp == old(otp) && username == old(username) && email == old(email)
      ensures password == old(password) && fullName == old(fullName)
    {
      if !AadharAccepted(aadhar) {
        message := InvalidAadharMessage;
        return;
      }
      var code := OtpCode(draw);
      generatedOtp := Some(code);
      isOtpSent := true;
      message := "OTP sent to your registered mobile (Demo OTP: " + DecimalString(code) + ")";
    }

    /** `handleVerifyOtp`: a typed code that is not the shown one only sets the message. A
        matching one sends the registration; the reply decides the message, and success asks
        to return to the login page. */
    method VerifyOtp(respond: RegisterRequest -> Option<RegisterReply>) returns (request: Option<RegisterRequest>, backToLogin: bool)
      requires isOtpSent && Valid()
      modifies this
      ensures request.Some? <==> OtpMatches(old(otp), old(generatedOtp).value)
      ensures request.None? ==> message == InvalidOtpMessage && !backToLogin
      ensures request.Some? ==> request.value == RegisterRequest(username, email, password, fullName, 18)
      ensures backToLogin <==> request.Some? && respond(request.value).Some? && respond(request.value).value.success
      ensures backToLogin ==> message == "✅ OTP Verified! Registration successful"
      ensures request.Some? && respond(request.value).Some? && !respond(request.value).value.success ==>
                message == "❌ Registration failed: " + OrDefault(respond(request.value).value.error, "Unknown error")
      ensures request.Some? && respond(request.value).None? ==> message == "❌ Error connecting to server"
      ensures aadhar == old(aadhar) && otp == old(otp) && generatedOtp == old(generatedOtp)
      ensures isOtpSent == old(isOtpSent) && username == old(username) && email == old(email)
      ensures password == old(password) && fullName == old(fullName)
      ensures Valid()
    {
      if !OtpMatches(otp, generatedOtp.value) {
        message := InvalidOtpMessage;
        return None, false;
      }
      var body := RegisterRequest(username, email, password, fullName, 18);
      request := Some(body);
      var reply := respond(body);
      if reply.None? {
        message := "❌ Error connecting to server";
        backToLogin := false;
      } else if reply.value.success {
        message := "✅ OTP Verified! Registration successful";
        backToLogin := true;
      } else {
        message := "❌ Registration failed: " + OrDefault(reply.value.error, "Unknown error");
        backToLogin := false;
      }
    }
  }
}
