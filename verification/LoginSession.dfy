/** The login session of blueprints/auth.py: password step, second factor,
    resumed broker session, expiry and logout over one browser session. */
module LoginSession {
  import opened Wrappers

  /** How long the password step stays good for the second factor, in seconds. */
  const PENDING_MAX_AGE := 300

  /** What was proved in this session, and when it was wiped. */
  datatype Event =
    | PasswordOk(user: string, at: int, totpRequired: bool)
    | TotpOk(user: string, at: int)
    | Cleared

  /** Nothing was wiped after event i. */
  predicate Live(log: seq<Event>, i: int) {
    0 <= i < |log| && forall k | i < k < |log| :: log[k] != Cleared
  }

  predicate PasswordStep(log: seq<Event>, i: int, u: string) {
    Live(log, i) && log[i].PasswordOk? && log[i].user == u
  }

  predicate SecondFactor(log: seq<Event>, i: int, j: int) {
    && 0 <= i < j < |log| && log[i].PasswordOk? && log[j].TotpOk?
    && log[j].user == log[i].user && log[j].at - log[i].at <= PENDING_MAX_AGE
  }

  /** u gave the password since the last wipe and, when that step asked for it,
      a valid code at most 300 seconds later. */
  ghost predicate Authorized(log: seq<Event>, u: string) {
    exists i :: PasswordStep(log, i, u) && (log[i].totpRequired ==> exists j :: SecondFactor(log, i, j))
  }

  /** u gave the password at time t since the last wipe and owes the code. */
  ghost predicate Awaiting(log: seq<Event>, u: string, t: int) {
    exists i :: PasswordStep(log, i, u) && log[i].totpRequired && log[i].at == t
  }

  lemma CodeAuthorizes(log: seq<Event>, u: string, t: int, now: int)
    requires Awaiting(log, u, t) && now - t <= PENDING_MAX_AGE
    ensures Authorized(log + [TotpOk(u, now)], u)
  {
    var i :| PasswordStep(log, i, u) && log[i].totpRequired && log[i].at == t;
    var log' := log + [TotpOk(u, now)];
    assert PasswordStep(log', i, u) && SecondFactor(log', i, |log|);
  }

  lemma PasswordCounts(log: seq<Event>, u: string, t: int, required: bool)
    ensures var log' := log + [Cleared, PasswordOk(u, t, required)];
      if required then Awaiting(log', u, t) else Authorized(log', u)
  {
    var log' := log + [Cleared, PasswordOk(u, t, required)];
    assert PasswordStep(log', |log| + 1, u);
  }

  /** What the attempt to resume a broker session meets: the stored row, if one can
      be read, and how the broker's check and the success handler end. */
  datatype Resume = Resume(row: Option<BrokerRow>, check: Check, handlerRaises: bool)

  datatype BrokerRow = BrokerRow(revoked: bool, decrypts: bool)

  datatype Check = Good | Refused | NoFunds | Raised

  datatype Reply =
    | SetupRequired | AlreadyLoggedIn | AlreadyAtBroker | TotpRequired | Dashboard | BrokerLogin
    | Rejected | PendingExpired | NoPending | CodeRequired | Forbidden | LoggedOut | LoginPage

  datatype Request =
    | LoginPost(now: int, usersExist: bool, sessionValid: bool, username: string, passwordOk: bool,
                totpRequired: bool, resume: Resume)
    | LoginGet(usersExist: bool, sessionValid: bool)
    | TotpPost(now: int, code: string, codeOk: bool, resume: Resume)
    | Logout(foreign: bool)
    | Expire
    | StampTotp(now: int)

  class Session {
    var user: Option<string>
    var loggedIn: bool
    var pendingUser: Option<string>
    var pendingStartedAt: Option<int>
    var totpVerifiedAt: Option<int>
    ghost var log: seq<Event>

    constructor ()
      ensures Valid() && user.None? && !loggedIn && pendingUser.None? && log == []
    {
      user, loggedIn, pendingUser, pendingStartedAt, totpVerifiedAt := None, false, None, None, None;
      log := [];
    }

    ghost predicate Valid()
      reads this
    {
      && !(user.Some? && pendingUser.Some?)
      && (loggedIn ==> user.Some?)
      && (user.Some? ==> Authorized(log, user.value))
      && (pendingUser.Some? ==> pendingStartedAt.Some? && Awaiting(log, pendingUser.value, pendingStartedAt.value))
    }

    /** session.clear() */
    method Clear()
      modifies this
      ensures Valid() && user.None? && !loggedIn && pendingUser.None? && pendingStartedAt.None? && totpVerifiedAt.None?
      ensures log == old(log) + [Cleared]
    {
      user, loggedIn, pendingUser, pendingStartedAt, totpVerifiedAt := None, false, None, None, None;
      log := log + [Cleared];
    }

    /** _pending_totp_is_fresh.  While it is, a right code authorizes whoever is
        parked; once it is not, no code given now is within the 300 seconds of the
        password step. */
    method PendingIsFresh(now: int) returns (isFresh: bool)
      requires Valid()
      ensures isFresh && pendingUser.Some? ==> Authorized(log + [TotpOk(pendingUser.value, now)], pendingUser.value)
      ensures isFresh <==> pendingStartedAt.Some? && now - pendingStartedAt.value <= PENDING_MAX_AGE
    {
      hide Authorized, Awaiting;
      isFresh := pendingStartedAt.Some? && now - pendingStartedAt.value <= PENDING_MAX_AGE;
      if isFresh && pendingUser.Some? {
        CodeAuthorizes(log, pendingUser.value, pendingStartedAt.value, now);
      }
    }

    /** _clear_pending_totp */
    method ClearPending()
      modifies this`pendingUser, this`pendingStartedAt
      ensures pendingUser.None? && pendingStartedAt.None?
    {
      pendingUser, pendingStartedAt := None, None;
    }

    /** _try_resume_broker_session, for the user just put into the session.  It logs
        in exactly on a stored token that is not revoked, can be decrypted and passes
        the broker's check, unless the handler raises; it never logs anyone else in,
        and a handler that raises leaves nobody logged in. */
    method TryResume(r: Resume) returns (resumed: bool)
      requires Valid() && user.Some?
      modifies this`loggedIn
      ensures Valid()
      ensures resumed <==> r.row.Some? && !r.row.value.revoked && r.row.value.decrypts && r.check == Good && !r.handlerRaises
      ensures resumed ==> loggedIn
      ensures loggedIn ==> resumed || old(loggedIn)
      ensures r.handlerRaises && r.check == Good && r.row == Some(BrokerRow(false, true)) ==> !loggedIn
    {
      if r.row.None? || r.row.value.revoked {
        return false;
      }
      if !r.row.value.decrypts {
        return false;
      }
      if r.check != Good {
        return false;
      }
      // The handler sets the flag first; an exception takes it back.
      loggedIn := true;
      if r.handlerRaises {
        loggedIn := false;
        return false;
      }
      resumed := true;
    }

    /** POST /login.  Only a correct password changes who the session belongs to,
        and with a second factor due it belongs to nobody yet. */
    method PasswordLogin(r: Request) returns (reply: Reply)
      requires Valid() && r.LoginPost?
      modifies this
      ensures Valid()
      ensures reply in {SetupRequired, AlreadyLoggedIn, AlreadyAtBroker, TotpRequired, Dashboard, BrokerLogin, Rejected}
      ensures reply in {TotpRequired, Dashboard, BrokerLogin} ==>
        && r.passwordOk
        && log == (if old(loggedIn) then old(log) + [Cleared] else old(log)) + [Cleared, PasswordOk(r.username, r.now, r.totpRequired)]
        && (reply == TotpRequired <==> r.totpRequired)
        && (reply == TotpRequired ==> user.None? && !loggedIn && pendingUser == Some(r.username) && pendingStartedAt == Some(r.now))
        && (reply != TotpRequired ==> user == Some(r.username) && pendingUser.None? && (loggedIn <==> reply == Dashboard))
      ensures reply == Rejected ==> !r.passwordOk && pendingUser == (if old(loggedIn) then None else old(pendingUser))
      ensures reply == Rejected ==> log == if old(loggedIn) then old(log) + [Cleared] else old(log)
      ensures reply == SetupRequired <==> !r.usersExist
      ensures reply == AlreadyLoggedIn <==> r.usersExist && old(loggedIn) && r.sessionValid
      ensures reply == AlreadyAtBroker <==> r.usersExist && !old(loggedIn) && old(user).Some?
      ensures reply == Rejected <==>
        r.usersExist && (if old(loggedIn) then !r.sessionValid else old(user).None?) && !r.passwordOk
      ensures reply == Rejected ==> user.None? && !loggedIn
      ensures reply in {Dashboard, BrokerLogin} ==>
        (reply == Dashboard <==>
          r.resume.row == Some(BrokerRow(false, true)) && r.resume.check == Good && !r.resume.handlerRaises)
      ensures reply in {SetupRequired, AlreadyLoggedIn, AlreadyAtBroker} ==>
        user == old(user) && loggedIn == old(loggedIn) && pendingUser == old(pendingUser) && log == old(log)
    {
      hide Authorized, Awaiting;
      if !r.usersExist {
        return SetupRequired;
      }
      if loggedIn {
        if r.sessionValid {
          return AlreadyLoggedIn;
        }
        Clear();
      }
      if user.Some? {
        return AlreadyAtBroker;
      }
      if !r.passwordOk {
        return Rejected;
      }
      PasswordCounts(log, r.username, r.now, r.totpRequired);
      ghost var before := log;
      Clear();
      log := log + [PasswordOk(r.username, r.now, r.totpRequired)];
      assert log == before + [Cleared, PasswordOk(r.username, r.now, r.totpRequired)];
      if r.totpRequired {
        user := None;
        pendingUser, pendingStartedAt := Some(r.username), Some(r.now);
        return TotpRequired;
      }
      user := Some(r.username);
      var resumed := TryResume(r.resume);
      reply := if resumed then Dashboard else BrokerLogin;
    }

    /** GET /login */
    method LoginRedirect(r: Request) returns (reply: Reply)
      requires Valid() && r.LoginGet?
      modifies this
      ensures Valid() && (user == old(user) || user.None?) && (pendingUser == old(pendingUser) || pendingUser.None?)
      ensures reply in {SetupRequired, Dashboard, AlreadyAtBroker, LoginPage}
      ensures reply == SetupRequired <==> !r.usersExist
      ensures reply == Dashboard <==> r.usersExist && old(loggedIn) && r.sessionValid
      ensures reply == AlreadyAtBroker <==> r.usersExist && !old(loggedIn) && old(user).Some?
      ensures reply == AlreadyAtBroker ==> user == old(user) && !loggedIn
      ensures reply == Dashboard ==> user == old(user) && loggedIn
      ensures log == if r.usersExist && old(loggedIn) && !r.sessionValid then old(log) + [Cleared] else old(log)
    {
      if !r.usersExist {
        return SetupRequired;
      }
      if loggedIn {
        if r.sessionValid {
          return Dashboard;
        }
        Clear();
      }
      reply := if user.Some? then AlreadyAtBroker else LoginPage;
    }

    /** POST /login/totp.  Promotes the pending user exactly when the password
        step is fresh and the code is right; a wrong code keeps it pending. */
    method TotpLogin(r: Request) returns (reply: Reply)
      requires Valid() && r.TotpPost?
      modifies this
      ensures Valid()
      ensures reply in {Dashboard, BrokerLogin} <==>
        && old(pendingStartedAt).Some? && r.now - old(pendingStartedAt).value <= PENDING_MAX_AGE
        && old(pendingUser).Some? && r.code != "" && r.codeOk
      ensures var inTime := old(pendingStartedAt).Some? && r.now - old(pendingStartedAt).value <= 300;
        && (reply == PendingExpired <==> !inTime)
        && (reply == NoPending <==> inTime && old(pendingUser).None?)
        && (reply == CodeRequired <==> inTime && old(pendingUser).Some? && r.code == "")
        && (reply == Rejected <==> inTime && old(pendingUser).Some? && r.code != "" && !r.codeOk)
      ensures reply in {Dashboard, BrokerLogin} ==>
        (loggedIn <==> reply == Dashboard) &&
        (reply == Dashboard <==>
          r.resume.row == Some(BrokerRow(false, true)) && r.resume.check == Good && !r.resume.handlerRaises)
      ensures reply in {Dashboard, BrokerLogin} ==>
        && user == old(pendingUser) && pendingUser.None? && pendingStartedAt.None?
        && log == old(log) + [TotpOk(user.value, r.now)] && totpVerifiedAt == Some(r.now)
      ensures reply !in {Dashboard, BrokerLogin} ==>
        && user == old(user) && loggedIn == old(loggedIn) && log == old(log)
        && pendingUser == if reply == PendingExpired then None else old(pendingUser)
    {
      hide Authorized, Awaiting;
      var isFresh := PendingIsFresh(r.now);
      if !isFresh {
        ClearPending();
        return PendingExpired;
      }
      if pendingUser.None? {
        return NoPending;
      }
      if r.code == "" {
        return CodeRequired;
      }
      if !r.codeOk {
        return Rejected;
      }
      CodeAuthorizes(log, pendingUser.value, pendingStartedAt.value, r.now);
      log := log + [TotpOk(pendingUser.value, r.now)];
      user := pendingUser;
      totpVerifiedAt := Some(r.now);
      ClearPending();
      var resumed := TryResume(r.resume);
      reply := if resumed then Dashboard else BrokerLogin;
    }

    /** /logout: a cross-site request changes nothing, any other wipes it all. */
    method LogOut(foreign: bool) returns (reply: Reply)
      requires Valid()
      modifies this
      ensures Valid()
      ensures foreign ==> reply == Forbidden && user == old(user) && loggedIn == old(loggedIn) && pendingUser == old(pendingUser)
      ensures !foreign ==> reply == LoggedOut && user.None? && !loggedIn && pendingUser.None?
      ensures log == if foreign then old(log) else old(log) + [Cleared]
    {
      if foreign {
        return Forbidden;
      }
      Clear();
      reply := LoggedOut;
    }

    /** Any run of requests against the session; the log is only ever added to. */
    method Serve(requests: seq<Request>)
      requires Valid()
      modifies this
      ensures Valid() && old(log) <= log
    {
      hide Authorized, Awaiting;
      for i := 0 to |requests|
        invariant Valid() && old(log) <= log
      {
        var r := requests[i];
        match r {
          case LoginPost(_, _, _, _, _, _, _) => var _ := PasswordLogin(r);
          case LoginGet(_, _) => var _ := LoginRedirect(r);
          case TotpPost(_, _, _, _) => var _ := TotpLogin(r);
          case Logout(foreign) => var _ := LogOut(foreign);
          case Expire => Clear();
          case StampTotp(now) => totpVerifiedAt := Some(now);
        }
      }
    }
  }
}
