/**
 * The session shared by every screen: the logged-in user, their token and the
 * start-up loading flag, together with the token kept in the device's storage.
 * Start-up restores the session from the stored token, login replaces it, and
 * logout clears it. Storage and the server's answers are inputs.
 */
module Auth {
  import opened Wrappers

  /** The profile object the server returns for a user. */
  datatype Account = Account(id: int, username: Option<string>, role: Option<string>)

  /**
   * The session together with the stored token (`None` when the storage has no
   * "token" key).
   */
  datatype Session = Session(user: Option<Account>, token: Option<string>, loading: bool, stored: Option<string>)

  /** The profile request made at start-up: ok with the profile, a non-ok response, or a failure (network or body). */
  datatype ProfileCheck = ProfileOk(profile: Account) | ProfileRefused | ProfileFailed

  /** The login request: ok with a token and a user, or anything else (non-ok response or failure). */
  datatype LoginReply = LoginOk(token: string, user: Account) | LoginFailed

  /** The session when the app starts, with whatever the storage holds. */
  function Initial(stored: Option<string>): (s: Session)
    ensures s.user.None? && s.token.None? && s.loading && s.stored == stored
  {
    Session(None, None, true, stored)
  }

  /**
   * `loadUser`. Without a stored token, nothing but the loading flag changes.
   * With one, the token is taken at once; then an ok profile becomes the user, a
   * non-ok answer removes the stored token and clears token and user, and a
   * failure leaves the token taken and no user. Loading ends in every case.
   */
  function Loaded(s: Session, check: ProfileCheck): (r: Session)
    ensures !r.loading
    ensures !Present(s.stored) ==> r == s.(loading := false)
    ensures Present(s.stored) && check.ProfileOk? ==>
              r == s.(token := s.stored, user := Some(check.profile), loading := false)
    ensures Present(s.stored) && check.ProfileRefused? ==>
              r.token.None? && r.user.None? && r.stored.None?
    ensures Present(s.stored) && check.ProfileFailed? ==> r == s.(token := s.stored, loading := false)
  {
    if !Present(s.stored) then s.(loading := false)
    else
      var withToken := s.(token := s.stored);
      match check
      case ProfileOk(profile) => withToken.(user := Some(profile), loading := false)
      case ProfileRefused => Session(None, None, false, None)
      case ProfileFailed => withToken.(loading := false)
  }

  /** `login`: an ok answer stores the token and sets token and user; anything else changes nothing. */
  function LoggedIn(s: Session, reply: LoginReply): (r: Session)
    ensures reply.LoginFailed? ==> r == s
    ensures reply.LoginOk? ==> r.token == Some(reply.token) && r.stored == Some(reply.token)
                               && r.user == Some(reply.user) && r.loading == s.loading
  {
    match reply
    case LoginOk(token, user) => s.(stored := Some(token), token := Some(token), user := Some(user))
    case LoginFailed => s
  }

  /** `logout`: the stored token is removed and token and user are cleared. */
  function LoggedOut(s: Session): (r: Session)
    ensures r.user.None? && r.token.None? && r.stored.None? && r.loading == s.loading
  {
    s.(stored := None, token := None, user := None)
  }

  /** Logging out twice is logging out once. */
  lemma LogoutIdempotent(s: Session)
    ensures LoggedOut(LoggedOut(s)) == LoggedOut(s)
  {
  }

  /** Logging out after a login leaves the same session as logging out without it. */
  lemma LogoutForgetsLogin(s: Session, reply: LoginReply)
    ensures LoggedOut(LoggedIn(s, reply)) == LoggedOut(s)
  {
  }

  /**
   * The session agrees with itself: there is a user only with a token, and the
   * token in use is the stored one.
   */
  predicate Consistent(s: Session) {
    (s.user.Some? ==> s.token.Some?) && (s.token.Some? ==> s.stored == s.token)
  }

  /** The app starts consistent, and every transition keeps it so. */
  lemma InitialConsistent(stored: Option<string>)
    ensures Consistent(Initial(stored))
  {
  }

  lemma LoadUserKeepsConsistent(s: Session, check: ProfileCheck)
    requires Consistent(s)
    ensures Consistent(Loaded(s, check))
  {
  }

  lemma LoginKeepsConsistent(s: Session, reply: LoginReply)
    requires Consistent(s)
    ensures Consistent(LoggedIn(s, reply))
  {
  }

  lemma LogoutKeepsConsistent(s: Session)
    ensures Consistent(LoggedOut(s))
  {
  }

  /** A refused profile check signs the user out for good: the next start-up finds no token. */
  lemma RefusedCheckForgetsToken(s: Session, next: ProfileCheck)
    requires Present(s.stored)
    ensures var r := Loaded(Initial(Loaded(s, ProfileRefused).stored), next);
            r.user.None? && r.token.None? && !r.loading
  {
  }

  /** The provider's state, updated step by step by its three operations. */
  class AuthProvider {
    var user: Option<Account>
    var token: Option<string>
    var loading: bool
    /** The "token" key of the device's storage. */
    var stored: Option<string>

    function State(): Session
      reads this
    {
      Session(user, token, loading, stored)
    }

    constructor (stored: Option<string>)
      ensures State() == Initial(stored)
    {
      user := None;
      token := None;
      loading := true;
      this.stored := stored;
    }

    method LoadUser(check: ProfileCheck)
      modifies this
      ensures State() == Loaded(old(State()), check)
    {
      if Present(stored) {
        token := stored;
        match check {
          case ProfileOk(profile) =>
            user := Some(profile);
          case ProfileRefused =>
            stored := None;
            token := None;
            user := None;
          case ProfileFailed =>
        }
      }
      loading := false;
    }

    method Login(reply: LoginReply)
      modifies this
      ensures State() == LoggedIn(old(State()), reply)
    {
      if reply.LoginOk? {
        stored := Some(reply.token);
        token := Some(reply.token);
        user := Some(reply.user);
      }
    }

    method Logout()
      modifies this
      ensures State() == LoggedOut(old(State()))
    {
      stored := None;
      token := None;
      user := None;
    }
  }
}
