/**
 * A stand-in for the external Session Manager: it issues fresh session ids
 * from a counter and remembers which sessions are still valid. Storage,
 * expiry and replication are not modelled.
 */
module Sessions {

  /** The identity of a server-side session. */
  type SessionId = nat

  class SessionManager {
    /** The id the next started session receives. */
    var nextId: SessionId
    /** The sessions started and not yet invalidated. */
    var active: set<SessionId>

    ghost predicate Valid()
      reads this
    {
      forall id :: id in active ==> id < nextId
    }

    constructor ()
      ensures Valid()
      ensures nextId == 0 && active == {}
    {
      nextId := 0;
      active := {};
    }

    /** SessionManager.start: a session never issued before, now active. */
    method Start() returns (id: SessionId)
      requires Valid()
      modifies this
      ensures Valid()
      ensures id == old(nextId) && id !in old(active)
      ensures nextId == old(nextId) + 1
      ensures active == old(active) + {id}
    {
      id := nextId;
      nextId := nextId + 1;
      active := active + {id};
    }

    /** SessionManager.invalidate: the session is no longer active. */
    method Invalidate(id: SessionId)
      requires Valid()
      modifies this
      ensures Valid()
      ensures nextId == old(nextId)
      ensures active == old(active) - {id}
    {
      active := active - {id};
    }
  }
}
