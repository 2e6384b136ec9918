/**
 * The session gate: the tab-scoped `adminSession` entry a login page writes,
 * valid for 30 minutes and removed once found expired.
 */
module Session {
  import opened Wrappers

  /** 30 minutes, in milliseconds. */
  const SessionDuration: int := 30 * 60 * 1000

  datatype Session = Session(loggedIn: bool, timestamp: int)

  /** More than the session duration has passed since the session began. */
  predicate Expired(s: Session, now: int) {
    now - s.timestamp > SessionDuration
  }

  /** What `checkAuthentication` answers at time `now` for the stored entry. */
  function Authenticated(stored: Option<Session>, now: int): (ok: bool)
    ensures ok <==> stored.Some? && stored.value.loggedIn && now <= stored.value.timestamp + SessionDuration
  {
    match stored
    case None => false
    case Some(s) => !Expired(s, now) && s.loggedIn
  }

  /** The stored entry after `checkAuthentication` at time `now`: an expired one is removed. */
  function AfterCheck(stored: Option<Session>, now: int): (r: Option<Session>)
    ensures r == stored || r == None
    ensures r == None <==> stored.None? || Expired(stored.value, now)
    ensures r.Some? ==> now - r.value.timestamp <= SessionDuration
  {
    match stored
    case Some(s) => if Expired(s, now) then None else stored
    case None => None
  }

  /** A second check at the same instant answers and leaves the entry as the first did. */
  lemma CheckIsStable(stored: Option<Session>, now: int)
    ensures AfterCheck(AfterCheck(stored, now), now) == AfterCheck(stored, now)
    ensures Authenticated(AfterCheck(stored, now), now) == Authenticated(stored, now)
  {
  }

  /** sessionStorage, reduced to the one key this script uses. */
  class SessionStore {
    var adminSession: Option<Session>

    constructor (adminSession: Option<Session>)
      ensures this.adminSession == adminSession
    {
      this.adminSession := adminSession;
    }

    /**
     * `checkAuthentication`: no entry answers false; an entry older than the
     * session duration is removed and answers false; otherwise the entry
     * stays and its `loggedIn` flag is the answer.
     */
    method CheckAuthentication(now: int) returns (ok: bool)
      modifies this
      ensures old(adminSession).None? ==> !ok && adminSession == None
      ensures old(adminSession).Some? && now - old(adminSession).value.timestamp > SessionDuration ==>
        !ok && adminSession == None
      ensures old(adminSession).Some? && now - old(adminSession).value.timestamp <= SessionDuration ==>
        ok == old(adminSession).value.loggedIn && adminSession == old(adminSession)
      ensures ok == Authenticated(old(adminSession), now) && adminSession == AfterCheck(old(adminSession), now)
    {
      if adminSession.None? {
        return false;
      }
      var session := adminSession.value;
      if now - session.timestamp > SessionDuration {
        adminSession := None;
        return false;
      }
      ok := session.loggedIn;
    }

    /** The session half of `clearSessionAndURL`: the entry is removed. */
    method ClearSession()
      modifies this
      ensures adminSession == None
    {
      adminSession := None;
    }
  }
}
