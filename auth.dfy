/**
 * The account lifecycle of the authentication controller: registration,
 * one-time-password issue and verification, login, bearer-token extraction
 * for protected routes, and the password-reset token.
 *
 * User records live in an `Accounts` object as a sequence whose index is the
 * user id (accounts are never deleted here, and index order is
 * the order `findOne` is taken to pick from). Wall-clock time is the `now`
 * parameter, in milliseconds. The one-time-password generator, the reset-token
 * generator, the OTP comparison, token decoding and the password-change check
 * of the user model are parameters.
 */
module Auth {
  import opened Query

  type UserId = nat

  /** Lifetime of a one-time password and of a password-reset token: 10 minutes in milliseconds. */
  const TenMinutes: int := 10 * 60 * 1000

  /** A user record as the controller reads and writes it. */
  datatype Account = Account(
    firstName: string,
    lastName: string,
    email: string,
    password: string,
    passwordConfirm: Option<string>,
    verified: bool,
    otp: Option<string>,
    otpExpiry: Option<int>,
    resetToken: Option<string>,
    resetExpires: Option<int>)

  /** A registration request body: the four fields `register` keeps, and the
      `verified` flag a client may also send. */
  datatype RegisterBody = RegisterBody(
    firstName: string,
    lastName: string,
    email: string,
    password: string,
    verified: Option<bool>)

  datatype RegisterOutcome = EmailInUse | Proceed(userId: UserId)

  datatype VerifyOutcome = EmailInvalidOrOtpExpired | OtpIncorrect | OtpVerified(userId: UserId)

  datatype LoginOutcome = CredentialsMissing | CredentialsIncorrect | LoggedIn(userId: UserId)

  /** Where `protect` found the token: the second space-separated piece of a
      "Bearer" authorization header (absent when there is no second piece), the
      `jwt` cookie, or nowhere. */
  datatype TokenSource = FromHeader(token: Option<string>) | FromCookie(cookie: string) | NoToken

  /** What a decoded token carries: the user id and the issue time. */
  datatype Claims = Claims(userId: UserId, issuedAt: int)

  /** `protect`'s verdicts. TokenRejected stands for the exception token
      verification throws, which the controller does not catch. */
  datatype ProtectOutcome = NotLoggedIn | TokenRejected | UserGone | PasswordChanged | Granted(userId: UserId)

  datatype ForgotOutcome = NoAccountForEmail | ResetLinkSent(userId: UserId)

  datatype ResetOutcome = TokenInvalidOrExpired | PasswordWasReset(userId: UserId)

  /** The invariant registration keeps: no two accounts share an email. */
  ghost predicate EmailsUnique(users: seq<Account>)
  {
    forall i, j :: 0 <= i < j < |users| ==> users[i].email != users[j].email
  }

  /** What the OTP generator hands out: six decimal digits. */
  predicate IsOtpCode(code: string)
  {
    |code| == 6 && forall k :: 0 <= k < |code| ==> '0' <= code[k] <= '9'
  }

  /** A JavaScript truthy string: present and not empty. */
  predicate Present(s: Option<string>)
  {
    s.Some? && s.value != ""
  }

  /** `findOne({ email })`. */
  function FindByEmail(users: seq<Account>, email: string): Option<UserId>
  {
    FirstWhere(users, (a: Account) => a.email == email)
  }

  /** `verifyOTP`'s query: this email, and an OTP expiry strictly after now. */
  predicate OtpLive(a: Account, email: string, now: int)
  {
    a.email == email && a.otpExpiry.Some? && a.otpExpiry.value > now
  }

  /** `resetPassword`'s query: this reset token, and a reset expiry strictly after now. */
  predicate ResetLive(a: Account, token: string, now: int)
  {
    a.resetToken == Some(token) && a.resetExpires.Some? && a.resetExpires.value > now
  }

  // ----- register -----

  /** The account `register` creates: the whitelisted fields, and nothing the client sent beyond them. */
  function NewAccount(body: RegisterBody): Account
  {
    Account(body.firstName, body.lastName, body.email, body.password, None, false, None, None, None, None)
  }

  /** `register`: a verified account with the email is refused; an unverified
      one has its whitelisted fields overwritten; otherwise one account is created. */
  function Registered(users: seq<Account>, body: RegisterBody): (r: (seq<Account>, RegisterOutcome))
    requires EmailsUnique(users)
    ensures r.1 == EmailInUse <==> exists i :: 0 <= i < |users| && users[i].email == body.email && users[i].verified
    ensures r.1 == EmailInUse ==> r.0 == users
    ensures r.1.Proceed? ==> r.1.userId < |r.0| && !r.0[r.1.userId].verified
    ensures r.1.Proceed? ==>
              var a := r.0[r.1.userId];
              a.firstName == body.firstName && a.lastName == body.lastName &&
              a.email == body.email && a.password == body.password
    ensures r.1.Proceed? && r.1.userId < |users| ==>
              users[r.1.userId].email == body.email &&
              |r.0| == |users| &&
              r.0[r.1.userId] == users[r.1.userId].(firstName := body.firstName, lastName := body.lastName,
                                                    password := body.password, email := body.email)
    ensures r.1.Proceed? && r.1.userId >= |users| ==>
              (forall i :: 0 <= i < |users| ==> users[i].email != body.email) &&
              r.1.userId == |users| && r.0 == users + [NewAccount(body)]
    ensures forall j :: 0 <= j < |users| && r.1 != Proceed(j) ==> j < |r.0| && r.0[j] == users[j]
    ensures EmailsUnique(r.0)
  {
    match FindByEmail(users, body.email)
    case Some(i) =>
      if users[i].verified then (users, EmailInUse)
      else
        var updated := users[i].(firstName := body.firstName, lastName := body.lastName,
                                 password := body.password, email := body.email);
        (users[i := updated], Proceed(i))
    case None =>
      (users + [NewAccount(body)], Proceed(|users|))
  }

  // ----- verifyOTP -----

  /** `verifyOTP`: the account with this email and a live OTP, if the OTP
      comparison of the user model accepts the candidate, becomes verified and
      loses its OTP. */
  function OtpChecked(users: seq<Account>, email: string, candidate: string, now: int,
                      correctOTP: (string, Option<string>) -> bool): (r: (seq<Account>, VerifyOutcome))
    ensures r.1 == EmailInvalidOrOtpExpired <==> forall i :: 0 <= i < |users| ==> !OtpLive(users[i], email, now)
    ensures !r.1.OtpVerified? ==> r.0 == users
    ensures r.1 == OtpIncorrect ==>
              exists i :: 0 <= i < |users| && OtpLive(users[i], email, now) && !correctOTP(candidate, users[i].otp)
    ensures r.1.OtpVerified? ==>
              var i := r.1.userId;
              i < |users| && OtpLive(users[i], email, now) && correctOTP(candidate, users[i].otp) &&
              r.0 == users[i := users[i].(verified := true, otp := None)]
  {
    match FirstWhere(users, (a: Account) => OtpLive(a, email, now))
    case None => (users, EmailInvalidOrOtpExpired)
    case Some(i) =>
      if !correctOTP(candidate, users[i].otp) then (users, OtpIncorrect)
      else (users[i := users[i].(verified := true, otp := None)], OtpVerified(i))
  }

  /** An OTP sent at `sentAt` and offered before ten minutes have passed verifies the account it was sent to. */
  lemma {:induction false} OtpVerifiesInTime(users: seq<Account>, id: UserId, code: string, sentAt: int,
                                             candidate: string, now: int, correctOTP: (string, Option<string>) -> bool)
    requires EmailsUnique(users) && id < |users|
    requires now < sentAt + TenMinutes
    requires correctOTP(candidate, Some(code))
    ensures var sent := users[id := users[id].(otp := Some(code), otpExpiry := Some(sentAt + TenMinutes))];
            OtpChecked(sent, users[id].email, candidate, now, correctOTP)
              == (sent[id := sent[id].(verified := true, otp := None)], OtpVerified(id))
  {
    var sent := users[id := users[id].(otp := Some(code), otpExpiry := Some(sentAt + TenMinutes))];
    var email := users[id].email;
    var r := OtpChecked(sent, email, candidate, now, correctOTP);
    assert OtpLive(sent[id], email, now);
  }

  /** Once the expiry is no longer strictly after now (equal included), the OTP
      is refused and nothing changes, whatever the candidate. */
  lemma {:induction false} OtpRefusedWhenExpired(users: seq<Account>, id: UserId, candidate: string, now: int,
                                                 correctOTP: (string, Option<string>) -> bool)
    requires EmailsUnique(users) && id < |users|
    requires users[id].otpExpiry.Some? && users[id].otpExpiry.value <= now
    ensures OtpChecked(users, users[id].email, candidate, now, correctOTP) == (users, EmailInvalidOrOtpExpired)
  {
    var email := users[id].email;
    forall i | 0 <= i < |users| ensures !OtpLive(users[i], email, now) {
      if i != id {
        assert users[i].email != users[id].email;
      }
    }
  }

  // ----- login -----

  /** `login`: both fields must be truthy; then the account with that email
      must exist and hold exactly that password. */
  function Login(users: seq<Account>, email: Option<string>, password: Option<string>): (r: LoginOutcome)
    ensures r == CredentialsMissing <==> !Present(email) || !Present(password)
    ensures r.LoggedIn? ==>
              r.userId < |users| && users[r.userId].email == email.value && users[r.userId].password == password.value
    ensures r.LoggedIn? ==> forall j :: 0 <= j < r.userId ==> users[j].email != email.value
    ensures r == CredentialsIncorrect ==>
              forall i :: 0 <= i < |users| && users[i].email == email.value ==>
                (exists j :: 0 <= j < i && users[j].email == email.value) || users[i].password != password.value
  {
    if !Present(email) || !Present(password) then CredentialsMissing
    else match FindByEmail(users, email.value)
      case None => CredentialsIncorrect
      case Some(i) => if password.value == users[i].password then LoggedIn(i) else CredentialsIncorrect
  }

  /** With unique emails, login succeeds exactly for the account holding both the email and the password. */
  lemma {:induction false} LoginExactly(users: seq<Account>, email: string, password: string, id: UserId)
    requires EmailsUnique(users) && email != "" && password != ""
    requires id < |users|
    ensures (Login(users, Some(email), Some(password)) == LoggedIn(id))
              == (users[id].email == email && users[id].password == password)
  {
  }

  /** An account that `register` admits can log in with the email and password it registered with. */
  lemma {:induction false} RegisterThenLogin(users: seq<Account>, body: RegisterBody)
    requires EmailsUnique(users) && body.email != "" && body.password != ""
    ensures var (after, outcome) := Registered(users, body);
            outcome.Proceed? ==> Login(after, Some(body.email), Some(body.password)) == LoggedIn(outcome.userId)
  {
    var (after, outcome) := Registered(users, body);
    if outcome.Proceed? {
      LoginExactly(after, body.email, body.password, outcome.userId);
    }
  }

  // ----- protect: token extraction -----

  function StartsWith(s: string, prefix: string): bool
  {
    |prefix| <= |s| && s[..|prefix|] == prefix
  }

  /** Pieces joined back with single spaces. */
  function Join(pieces: seq<string>): string
    requires |pieces| >= 1
  {
    if |pieces| == 1 then pieces[0] else pieces[0] + " " + Join(pieces[1..])
  }

  /** `split(" ")`: the maximal space-free pieces between spaces, empty ones included. */
  function Split(s: string): (r: seq<string>)
    ensures |r| >= 1
    ensures forall k :: 0 <= k < |r| ==> ' ' !in r[k]
    ensures Join(r) == s
    decreases |s|
  {
    if s == [] then [""]
    else
      var rest := Split(s[1..]);
      if s[0] == ' ' then
        assert s == " " + s[1..];
        [""] + rest
      else
        var r := [[s[0]] + rest[0]] + rest[1..];
        assert ' ' !in [s[0]] + rest[0];
        assert Join(r) == [s[0]] + Join(rest) by {
          if |rest| > 1 {
            assert r[1..] == rest[1..];
          }
        }
        assert s == [s[0]] + s[1..];
        r
  }

  /** Splitting a space-free word followed by a space and more text. */
  lemma {:induction false} SplitAfterWord(a: string, b: string)
    requires ' ' !in a
    ensures Split(a + " " + b) == [a] + Split(b)
    decreases |a|
  {
    if a == [] {
      assert a + " " + b == " " + b;
      assert (" " + b)[1..] == b;
    } else {
      SplitAfterWord(a[1..], b);
      assert (a + " " + b)[1..] == a[1..] + " " + b;
      assert [a[0]] + a[1..] == a;
    }
  }

  /** A space-free word is one piece. */
  lemma {:induction false} SplitWord(a: string)
    requires ' ' !in a
    ensures Split(a) == [a]
    decreases |a|
  {
    if a != [] {
      SplitWord(a[1..]);
      assert [a[0]] + a[1..] == a;
    }
  }

  /** Split undoes Join on space-free pieces. */
  lemma {:induction false} SplitJoin(pieces: seq<string>)
    requires |pieces| >= 1
    requires forall k :: 0 <= k < |pieces| ==> ' ' !in pieces[k]
    ensures Split(Join(pieces)) == pieces
    decreases |pieces|
  {
    if |pieces| == 1 {
      SplitWord(pieces[0]);
    } else {
      SplitJoin(pieces[1..]);
      SplitAfterWord(pieces[0], Join(pieces[1..]));
      assert pieces == [pieces[0]] + pieces[1..];
    }
  }

  /** `s` is the space-free word `a`, a space, `t`, and then either nothing or
      a space and the rest `b`. */
  predicate SecondWordIs(s: string, a: string, t: string, b: string)
  {
    s == a + " " + t + b && ' ' !in a && (b == "" || b[0] == ' ')
  }

  /** Join, unfolded twice: the first piece, a space, the second piece, then the rest. */
  lemma JoinSecond(pieces: seq<string>)
    requires |pieces| >= 2
    ensures |pieces| == 2 ==> Join(pieces) == pieces[0] + " " + pieces[1]
    ensures |pieces| > 2 ==> Join(pieces) == pieces[0] + " " + pieces[1] + (" " + Join(pieces[2..]))
  {
    var rest := pieces[1..];
    assert Join(pieces) == pieces[0] + " " + Join(rest);
    if |rest| > 1 {
      assert rest[1..] == pieces[2..];
      assert Join(rest) == pieces[1] + (" " + Join(pieces[2..]));
    }
  }

  /** A text with no space is one piece. */
  lemma SplitOnePiece(s: string)
    ensures |Split(s)| == 1 <==> ' ' !in s
  {
    var pieces := Split(s);
    if |pieces| > 1 {
      JoinSecond(pieces);
      assert s[|pieces[0]|] == ' ';
    }
  }

  /** A text that splits into several pieces has the second piece as its second word. */
  lemma SplitShape(s: string)
    requires |Split(s)| > 1
    ensures exists a, b :: SecondWordIs(s, a, Split(s)[1], b)
  {
    var pieces := Split(s);
    JoinSecond(pieces);
    var b := if |pieces| > 2 then " " + Join(pieces[2..]) else "";
    assert SecondWordIs(s, pieces[0], pieces[1], b);
  }

  /** The second piece of a split, if there is one (JavaScript's `[1]`). */
  function Second(pieces: seq<string>): Option<string>
  {
    if |pieces| > 1 then Some(pieces[1]) else None
  }

  /** `protect`, step 1: a "Bearer" authorization header wins; otherwise the
      `jwt` cookie; otherwise there is no token. */
  function ExtractToken(authorization: Option<string>, jwtCookie: Option<string>): (r: TokenSource)
    ensures r.FromHeader? <==> authorization.Some? && StartsWith(authorization.value, "Bearer")
    ensures r.FromHeader? ==> (r.token.None? <==> ' ' !in authorization.value)
    ensures r.FromHeader? && r.token.Some? ==>
              ' ' !in r.token.value && exists a, b :: SecondWordIs(authorization.value, a, r.token.value, b)
    ensures r.FromCookie? <==> !(authorization.Some? && StartsWith(authorization.value, "Bearer")) && Present(jwtCookie)
    ensures r.FromCookie? ==> r.cookie == jwtCookie.value
  {
    if authorization.Some? && authorization.value != "" && StartsWith(authorization.value, "Bearer") then
      var pieces := Split(authorization.value);
      SplitOnePiece(authorization.value);
      if |pieces| > 1 then
        SplitShape(authorization.value);
        FromHeader(Second(pieces))
      else FromHeader(None)
    else if Present(jwtCookie) then FromCookie(jwtCookie.value)
    else NoToken
  }

  /** "Bearer <token>" yields the token, whatever the cookie holds. */
  lemma BearerHeaderToken(token: string, jwtCookie: Option<string>)
    requires ' ' !in token
    ensures ExtractToken(Some("Bearer " + token), jwtCookie) == FromHeader(Some(token))
  {
    SplitJoin(["Bearer", token]);
    assert Join(["Bearer", token]) == "Bearer " + token;
  }

  /** A header "Bearer" with no space has no second piece, and the cookie is not consulted. */
  lemma BareBearerHasNoToken(jwtCookie: Option<string>)
    ensures ExtractToken(Some("Bearer"), jwtCookie) == FromHeader(None)
  {
    SplitWord("Bearer");
  }

  /** The token text a source carries, if any. */
  function TokenOf(source: TokenSource): Option<string>
  {
    match source
    case FromHeader(t) => t
    case FromCookie(c) => Some(c)
    case NoToken => None
  }

  /** `protect`: extract the token, decode it, require that its user still
      exists and has not changed the password since the token was issued. */
  function Protect(users: seq<Account>, authorization: Option<string>, jwtCookie: Option<string>,
                   decode: string -> Option<Claims>, changedPasswordAfter: (Account, int) -> bool): (r: ProtectOutcome)
    ensures r == NotLoggedIn <==> ExtractToken(authorization, jwtCookie) == NoToken
    ensures var token := TokenOf(ExtractToken(authorization, jwtCookie));
            var claims := if token.Some? then decode(token.value) else None;
            (r == TokenRejected <==> ExtractToken(authorization, jwtCookie) != NoToken && claims.None?) &&
            (r == UserGone <==> claims.Some? && claims.value.userId >= |users|) &&
            (r == PasswordChanged <==>
               claims.Some? && claims.value.userId < |users| &&
               changedPasswordAfter(users[claims.value.userId], claims.value.issuedAt)) &&
            (r.Granted? <==>
               claims.Some? && claims.value.userId < |users| &&
               !changedPasswordAfter(users[claims.value.userId], claims.value.issuedAt)) &&
            (r.Granted? ==> r.userId == claims.value.userId)
  {
    var source := ExtractToken(authorization, jwtCookie);
    if source.NoToken? then NotLoggedIn
    else if source.FromHeader? && source.token.None? then TokenRejected
    else
      var token := if source.FromCookie? then source.cookie else source.token.value;
      match decode(token)
      case None => TokenRejected
      case Some(claims) =>
        if claims.userId >= |users| then UserGone
        else if changedPasswordAfter(users[claims.userId], claims.issuedAt) then PasswordChanged
        else Granted(claims.userId)
  }

  /** A "Bearer" header whose token decodes to an existing user who has not
      changed the password since it was issued grants access to that user,
      whatever the cookie holds. */
  lemma BearerGrants(users: seq<Account>, token: string, jwtCookie: Option<string>,
                     decode: string -> Option<Claims>, changedPasswordAfter: (Account, int) -> bool)
    requires ' ' !in token
    requires decode(token).Some? && decode(token).value.userId < |users|
    requires !changedPasswordAfter(users[decode(token).value.userId], decode(token).value.issuedAt)
    ensures Protect(users, Some("Bearer " + token), jwtCookie, decode, changedPasswordAfter)
              == Granted(decode(token).value.userId)
  {
    BearerHeaderToken(token, jwtCookie);
  }

  // ----- forgotPassword / resetPassword -----

  /** `forgotPassword`: the first account with the email gets the reset token and an expiry ten minutes from now. */
  function ResetRequested(users: seq<Account>, email: string, token: string, now: int): (r: (seq<Account>, ForgotOutcome))
    ensures r.1 == NoAccountForEmail <==> forall i :: 0 <= i < |users| ==> users[i].email != email
    ensures r.1 == NoAccountForEmail ==> r.0 == users
    ensures r.1.ResetLinkSent? ==>
              var i := r.1.userId;
              i < |users| && users[i].email == email &&
              (forall j :: 0 <= j < i ==> users[j].email != email) &&
              r.0 == users[i := users[i].(resetToken := Some(token), resetExpires := Some(now + TenMinutes))]
  {
    match FindByEmail(users, email)
    case None => (users, NoAccountForEmail)
    case Some(i) => (users[i := users[i].(resetToken := Some(token), resetExpires := Some(now + TenMinutes))], ResetLinkSent(i))
  }

  /** `resetPassword`: the account holding this token with an expiry strictly
      after now gets the new password and loses both reset fields. */
  function PasswordReset(users: seq<Account>, token: string, password: string, passwordConfirm: Option<string>, now: int)
    : (r: (seq<Account>, ResetOutcome))
    ensures r.1 == TokenInvalidOrExpired <==> forall i :: 0 <= i < |users| ==> !ResetLive(users[i], token, now)
    ensures r.1 == TokenInvalidOrExpired ==> r.0 == users
    ensures r.1.PasswordWasReset? ==>
              var i := r.1.userId;
              i < |users| && ResetLive(users[i], token, now) &&
              r.0 == users[i := users[i].(password := password, passwordConfirm := passwordConfirm,
                                          resetToken := None, resetExpires := None)]
  {
    match FirstWhere(users, (a: Account) => ResetLive(a, token, now))
    case None => (users, TokenInvalidOrExpired)
    case Some(i) =>
      (users[i := users[i].(password := password, passwordConfirm := passwordConfirm,
                            resetToken := None, resetExpires := None)], PasswordWasReset(i))
  }

  /** No account holds this reset token. */
  ghost predicate TokenUnused(users: seq<Account>, token: string)
  {
    forall i :: 0 <= i < |users| ==> users[i].resetToken != Some(token)
  }

  /** A fresh reset token issued by `forgotPassword` resets the password of
      exactly the account it was issued to, if it is used within ten minutes,
      and is refused from the tenth minute on. */
  lemma {:induction false} ResetTokenLifetime(users: seq<Account>, email: string, token: string, issuedAt: int,
                                              password: string, passwordConfirm: Option<string>, now: int)
    requires TokenUnused(users, token)
    ensures var (issued, outcome) := ResetRequested(users, email, token, issuedAt);
            outcome.ResetLinkSent? ==>
              var reset := PasswordReset(issued, token, password, passwordConfirm, now);
              (now < issuedAt + TenMinutes ==>
                 reset.1 == PasswordWasReset(outcome.userId) && reset.0[outcome.userId].password == password) &&
              (now >= issuedAt + TenMinutes ==> reset == (issued, TokenInvalidOrExpired))
  {
    var (issued, outcome) := ResetRequested(users, email, token, issuedAt);
    if outcome.ResetLinkSent? {
      var id := outcome.userId;
      forall i | 0 <= i < |issued| && i != id ensures !ResetLive(issued[i], token, now) {
        assert issued[i] == users[i];
      }
      var reset := PasswordReset(issued, token, password, passwordConfirm, now);
      if now < issuedAt + TenMinutes {
        assert ResetLive(issued[id], token, now);
      } else {
        assert !ResetLive(issued[id], token, now);
      }
    }
  }

  /** A successful reset consumes the token: used again, it is refused. */
  lemma {:induction false} ResetTokenSingleUse(users: seq<Account>, token: string, password: string,
                                               passwordConfirm: Option<string>, now: int, later: int,
                                               password': string, passwordConfirm': Option<string>)
    requires forall i, j :: 0 <= i < j < |users| && users[i].resetToken == Some(token) ==> users[j].resetToken != Some(token)
    ensures var (after, outcome) := PasswordReset(users, token, password, passwordConfirm, now);
            outcome.PasswordWasReset? ==> PasswordReset(after, token, password', passwordConfirm', later) == (after, TokenInvalidOrExpired)
  {
    var (after, outcome) := PasswordReset(users, token, password, passwordConfirm, now);
    if outcome.PasswordWasReset? {
      var id := outcome.userId;
      forall i | 0 <= i < |after| ensures !ResetLive(after[i], token, later) {
        if i < id {
          assert users[id].resetToken == Some(token);
        } else if i > id {
          assert users[id].resetToken == Some(token);
          assert after[i] == users[i];
        }
      }
    }
  }

  // ----- the handlers that update records -----

  class Accounts {
    var users: seq<Account>

    ghost predicate Valid()
      reads this
    {
      EmailsUnique(users)
    }

    constructor ()
      ensures Valid() && users == []
    {
      users := [];
    }

    /** `register`: refuses an email held by a verified account, else updates the
        unverified account with that email or creates one, from the whitelisted
        fields only; the caller goes on to `sendOTP` with the returned id. */
    method Register(body: RegisterBody) returns (outcome: RegisterOutcome)
      requires Valid()
      modifies this
      ensures Valid()
      ensures (users, outcome) == Registered(old(users), body)
    {
      var existing := FindByEmail(users, body.email);
      if existing.Some? && users[existing.value].verified {
        outcome := EmailInUse;
      } else if existing.Some? {
        var id := existing.value;
        users := users[id := users[id].(firstName := body.firstName, lastName := body.lastName,
                                        password := body.password, email := body.email)];
        outcome := Proceed(id);
      } else {
        var account := NewAccount(body);
        users := users + [account];
        outcome := Proceed(|users| - 1);
      }
    }

    /** `sendOTP`: sets the OTP expiry to ten minutes from now, then stores the generated code. */
    method SendOTP(userId: UserId, code: string, now: int)
      requires Valid() && userId < |users|
      requires IsOtpCode(code)
      modifies this
      ensures Valid()
      ensures users == old(users)[userId := old(users)[userId].(otp := Some(code), otpExpiry := Some(now + TenMinutes))]
      ensures IsOtpCode(users[userId].otp.value)
    {
      users := users[userId := users[userId].(otpExpiry := Some(now + TenMinutes))];
      users := users[userId := users[userId].(otp := Some(code))];
    }

    /** `verifyOTP`: see OtpChecked. */
    method VerifyOTP(email: string, candidate: string, now: int, correctOTP: (string, Option<string>) -> bool)
      returns (outcome: VerifyOutcome)
      requires Valid()
      modifies this
      ensures Valid()
      ensures (users, outcome) == OtpChecked(old(users), email, candidate, now, correctOTP)
    {
      var found := FirstWhere(users, (a: Account) => OtpLive(a, email, now));
      if found.None? {
        return EmailInvalidOrOtpExpired;
      }
      var id := found.value;
      var user := users[id];
      if !correctOTP(candidate, user.otp) {
        return OtpIncorrect;
      }
      user := user.(verified := true);
      user := user.(otp := None);
      users := users[id := user];
      outcome := OtpVerified(id);
    }

    /** `forgotPassword`: `token` is what the user model's reset-token generator returned. */
    method ForgotPassword(email: string, token: string, now: int) returns (outcome: ForgotOutcome)
      requires Valid()
      modifies this
      ensures Valid()
      ensures (users, outcome) == ResetRequested(old(users), email, token, now)
    {
      var found := FindByEmail(users, email);
      if found.None? {
        return NoAccountForEmail;
      }
      var id := found.value;
      var user := users[id];
      user := user.(resetToken := Some(token));
      user := user.(resetExpires := Some(now + TenMinutes));
      users := users[id := user];
      outcome := ResetLinkSent(id);
    }

    /** `resetPassword`: see PasswordReset. */
    method ResetPassword(token: string, password: string, passwordConfirm: Option<string>, now: int)
      returns (outcome: ResetOutcome)
      requires Valid()
      modifies this
      ensures Valid()
      ensures (users, outcome) == PasswordReset(old(users), token, password, passwordConfirm, now)
    {
      var found := FirstWhere(users, (a: Account) => ResetLive(a, token, now));
      if found.None? {
        return TokenInvalidOrExpired;
      }
      var id := found.value;
      var user := users[id];
      user := user.(password := password, passwordConfirm := passwordConfirm);
      user := user.(resetToken := None, resetExpires := None);
      users := users[id := user];
      outcome := PasswordWasReset(id);
    }
  }

  /** Registration of one account and its OTP verification, too late and then in time. */
  method VerificationScenario(correctOTP: (string, Option<string>) -> bool)
    requires correctOTP("123456", Some("123456"))
  {
    var accounts := new Accounts();
    var body := RegisterBody("Ada", "L", "ada@example.org", "pw", Some(true));
    var registered := accounts.Register(body);
    assert registered == Proceed(0) && !accounts.users[0].verified;
    accounts.SendOTP(0, "123456", 5000);
    var expired := accounts.VerifyOTP("ada@example.org", "123456", 5000 + TenMinutes, correctOTP);
    assert expired == EmailInvalidOrOtpExpired;
    var verified := accounts.VerifyOTP("ada@example.org", "123456", 6000, correctOTP);
    assert verified == OtpVerified(0) && accounts.users[0].verified && accounts.users[0].otp == None;
  }

  /** A verified account cannot be registered again, and logs in with its password only. */
  method LoginScenario()
  {
    var accounts := new Accounts();
    var account := NewAccount(RegisterBody("Ada", "L", "ada@example.org", "pw", None)).(verified := true);
    accounts.users := [account];
    var again := accounts.Register(RegisterBody("Eve", "M", "ada@example.org", "other", Some(false)));
    assert again == EmailInUse && accounts.users == [account];
    assert Login(accounts.users, Some("ada@example.org"), Some("pw")) == LoggedIn(0);
    assert Login(accounts.users, Some("ada@example.org"), Some("other")) == CredentialsIncorrect;
    assert Login(accounts.users, Some("ada@example.org"), Some("")) == CredentialsMissing;
  }
}
