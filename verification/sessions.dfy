/** The admin session gate: one `isLoggedIn` flag per browser session, set
    by a login with the single configured admin credential, cleared by
    logout, and checked by `adminAuth` before every admin route. */
module Sessions {
  import opened Values

  const AdminUsername := "sqabimpexADMIN"
  const AdminPassword := "e-shop2025"

  /** `username === '...' && password === '...'`: strict equality, so only
      string fields equal to the configured pair match. */
  predicate CredentialsMatch(username: Value, password: Value)
    ensures CredentialsMatch(username, password) <==>
              && username.Str? && username.s == AdminUsername
              && password.Str? && password.s == AdminPassword
  {
    username == Str(AdminUsername) && password == Str(AdminPassword)
  }

  /** The only two things that change the flag. */
  datatype Event = LoginAttempt(username: Value, password: Value) | Logout

  predicate SuccessfulLogin(e: Event)
  {
    e.LoginAttempt? && CredentialsMatch(e.username, e.password)
  }

  /** Effect of one event on the flag: a matching login sets it, a failed
      login leaves it as it was, a logout clears it. */
  function Step(loggedIn: bool, e: Event): (r: bool)
    ensures e.Logout? ==> !r
    ensures SuccessfulLogin(e) ==> r
    ensures e.LoginAttempt? && !SuccessfulLogin(e) ==> r == loggedIn
  {
    match e
    case LoginAttempt(u, p) => if CredentialsMatch(u, p) then true else loggedIn
    case Logout => false
  }

  /** The flag after a sequence of events, oldest first. A trace that
      ends in a logout leaves the flag cleared; a trace of failed logins
      only leaves it as it was. */
  function Run(loggedIn: bool, trace: seq<Event>): (r: bool)
    ensures trace != [] && trace[|trace| - 1].Logout? ==> !r
    ensures (forall k :: 0 <= k < |trace| ==> trace[k].LoginAttempt? && !SuccessfulLogin(trace[k])) ==> r == loggedIn
  {
    if trace == [] then loggedIn
    else Step(Run(loggedIn, trace[..|trace| - 1]), trace[|trace| - 1])
  }

  /** Some login in the trace succeeded and no logout came after it. */
  predicate LoggedInBy(trace: seq<Event>)
  {
    exists i :: 0 <= i < |trace| && SuccessfulLogin(trace[i]) && NoLogoutAfter(trace, i)
  }

  predicate NoLogoutAfter(trace: seq<Event>, i: nat)
  {
    forall j :: i < j < |trace| ==> !trace[j].Logout?
  }

  /** Starting from a new session, `adminAuth` admits after a trace exactly
      when a login with the right credentials happened and no logout
      followed it: failed logins never open the gate and never close it. */
  lemma {:induction false} GateAfterTrace(trace: seq<Event>)
    ensures Run(false, trace) <==> LoggedInBy(trace)
  {
    if trace != [] {
      var n := |trace|;
      var prefix, e := trace[..n - 1], trace[n - 1];
      GateAfterTrace(prefix);
      if e.Logout? {
        assert !LoggedInBy(trace) by {
          forall i | 0 <= i < n && SuccessfulLogin(trace[i]) ensures !NoLogoutAfter(trace, i) {
            assert i < n - 1;
          }
        }
      } else if SuccessfulLogin(e) {
        assert NoLogoutAfter(trace, n - 1);
      } else {
        if LoggedInBy(prefix) {
          var i :| 0 <= i < |prefix| && SuccessfulLogin(prefix[i]) && NoLogoutAfter(prefix, i);
          assert trace[i] == prefix[i];
          assert NoLogoutAfter(trace, i);
        }
        if LoggedInBy(trace) {
          var i :| 0 <= i < n && SuccessfulLogin(trace[i]) && NoLogoutAfter(trace, i);
          assert i < n - 1;
          assert NoLogoutAfter(prefix, i);
        }
      }
    }
  }

  /** `req.session`: the flag starts unset in a new session. */
  class Session {
    var isLoggedIn: bool

    constructor ()
      ensures !isLoggedIn
    {
      isLoggedIn := false;
    }

    /** `adminAuth`: admit the request, or redirect it to the login page. */
    predicate AdminAuth()
      reads this
      ensures AdminAuth() <==> isLoggedIn
    {
      isLoggedIn
    }

    /** `POST /admin/login`: the flag is set only on an exact credential
        match; otherwise it is left as it was. */
    method Login(username: Value, password: Value) returns (accepted: bool)
      modifies this
      ensures accepted <==> CredentialsMatch(username, password)
      ensures isLoggedIn == Step(old(isLoggedIn), LoginAttempt(username, password))
    {
      accepted := CredentialsMatch(username, password);
      if accepted {
        isLoggedIn := true;
      }
    }

    /** `GET /admin/logout`: the session is destroyed; the next request
        starts from a new, logged-out session. */
    method Logout()
      modifies this
      ensures isLoggedIn == Step(old(isLoggedIn), Event.Logout)
    {
      isLoggedIn := false;
    }
  }
}
