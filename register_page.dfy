/**
 * The registration page (src/app/auth/register/page.tsx): two password
 * checks, then a sign-up request whose username is normalised.  The answer
 * of the authentication service is not part of this model beyond the
 * request it is sent.
 */
module RegisterPage {
  import opened Common

  const MismatchMessage: string := "As senhas não coincidem"
  const ShortPasswordMessage: string := "A senha deve ter pelo menos 6 caracteres"

  /** `s.replace(/\s+/g, "")`: every white-space character removed. */
  function RemoveWhitespace(s: string): (r: string)
    ensures |r| <= |s|
    ensures NoWhitespace(r)
    ensures NoWhitespace(s) ==> r == s
  {
    if s == [] then []
    else (if IsWhitespace(s[0]) then [] else [s[0]]) + RemoveWhitespace(s[1..])
  }

  /** `username.toLowerCase().replace(/\s+/g, "")`. */
  function NormalizeUsername(username: string): string
  {
    RemoveWhitespace(ToLower(username))
  }

  lemma LowerCharWhitespace(c: char)
    ensures IsWhitespace(LowerChar(c)) <==> IsWhitespace(c)
    ensures LowerChar(LowerChar(c)) == LowerChar(c)
  {
  }

  /** Lower-casing and removing white space can be done in either order. */
  lemma {:induction false} LowerCommutes(s: string)
    ensures ToLower(RemoveWhitespace(s)) == RemoveWhitespace(ToLower(s))
  {
    if s != [] {
      LowerCommutes(s[1..]);
      LowerCharWhitespace(s[0]);
      assert ToLower(s)[1..] == ToLower(s[1..]);
      var head := if IsWhitespace(s[0]) then [] else [s[0]];
      assert ToLower(head + RemoveWhitespace(s[1..])) == ToLower(head) + ToLower(RemoveWhitespace(s[1..]));
    }
  }

  lemma ToLowerIdempotent(s: string)
    ensures ToLower(ToLower(s)) == ToLower(s)
  {
  }

  /** A normalised username has no white space and no upper-case ASCII letter. */
  lemma NormalizedShape(username: string)
    ensures NoWhitespace(NormalizeUsername(username))
    ensures ToLower(NormalizeUsername(username)) == NormalizeUsername(username)
  {
    LowerCommutes(ToLower(username));
    ToLowerIdempotent(username);
  }

  /** Normalising a username twice is normalising it once. */
  lemma NormalizeUsernameIdempotent(username: string)
    ensures NormalizeUsername(NormalizeUsername(username)) == NormalizeUsername(username)
  {
    NormalizedShape(username);
  }

  /** What `signUp` is called with. */
  datatype SignUpRequest = SignUpRequest(email: string, password: string, username: string)

  datatype RegisterOutcome = Refused(message: string) | Request(request: SignUpRequest)

  /** `handleRegister` up to the sign-up call: the confirmation is checked before the length. */
  function HandleRegister(email: string, password: string, confirmPassword: string, username: string): RegisterOutcome
  {
    if password != confirmPassword then Refused(MismatchMessage)
    else if |password| < 6 then Refused(ShortPasswordMessage)
    else Request(SignUpRequest(email, password, NormalizeUsername(username)))
  }

  /**
   * A request is made exactly when the password is confirmed and has six
   * characters or more; a mismatch is reported even for a short password.
   */
  lemma HandleRegisterCases(email: string, password: string, confirmPassword: string, username: string)
    ensures HandleRegister(email, password, confirmPassword, username).Request? <==>
      password == confirmPassword && |password| >= 6
    ensures password != confirmPassword ==>
      HandleRegister(email, password, confirmPassword, username) == Refused(MismatchMessage)
    ensures password == confirmPassword && |password| < 6 ==>
      HandleRegister(email, password, confirmPassword, username) == Refused(ShortPasswordMessage)
  {
  }

  /** The request carries the address and password as typed and the normalised username. */
  lemma RequestContents(email: string, password: string, confirmPassword: string, username: string)
    requires HandleRegister(email, password, confirmPassword, username).Request?
    ensures var req := HandleRegister(email, password, confirmPassword, username).request;
      req.email == email && req.password == password && NoWhitespace(req.username) &&
      NormalizeUsername(req.username) == req.username
  {
    NormalizedShape(username);
    NormalizeUsernameIdempotent(username);
  }
}
