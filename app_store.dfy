/**
 * The application store of store/app-store.ts: the signed-in user, the interface
 * language, the signed-in flag and the queue ticket being followed, with the five
 * actions that overwrite them.
 */
module AppStore {
  import opened Wrappers

  datatype Role = Client | Admin

  datatype User = User(id: string, phone: string, pinHash: Option<string>, role: Role,
                       createdAt: string, updatedAt: string)

  datatype QueueStatus = Waiting | Called | BeingServed | Completed | Cancelled

  datatype QueueEntry = QueueEntry(id: string, userId: string, branchId: string, queueNumber: int,
                                   status: QueueStatus, serviceType: string,
                                   createdAt: string, updatedAt: string, estimatedWaitTime: Option<int>)

  datatype Language = En | Pt

  /** The four fields of the store, as one value. */
  datatype Snapshot = Snapshot(user: Option<User>, language: Language, isAuthenticated: bool,
                               currentQueue: Option<QueueEntry>)

  /** The state logout leaves behind, for a language it keeps. */
  function SignedOut(language: Language): Snapshot
  {
    Snapshot(None, language, false, None)
  }

  class Store {
    var user: Option<User>
    var language: Language
    var isAuthenticated: bool
    var currentQueue: Option<QueueEntry>

    function State(): Snapshot
      reads this
    {
      Snapshot(user, language, isAuthenticated, currentQueue)
    }

    /** The flag says whether there is a user. */
    predicate Consistent()
      reads this
    {
      isAuthenticated <==> user.Some?
    }

    /** The initial state: nobody signed in, English, no queue ticket. */
    constructor()
      ensures State() == SignedOut(En)
      ensures Consistent()
    {
      user := None;
      language := En;
      isAuthenticated := false;
      currentQueue := None;
    }

    /** setUser: stores the user and sets the flag to whether there is one. */
    method SetUser(u: Option<User>)
      modifies this
      ensures State() == old(State()).(user := u, isAuthenticated := u.Some?)
      ensures Consistent()
    {
      user := u;
      isAuthenticated := u.Some?;
    }

    method SetLanguage(l: Language)
      modifies this
      ensures State() == old(State()).(language := l)
      ensures old(Consistent()) ==> Consistent()
    {
      language := l;
    }

    /** setAuthenticated overwrites the flag alone, so it can leave it disagreeing with the user. */
    method SetAuthenticated(b: bool)
      modifies this
      ensures State() == old(State()).(isAuthenticated := b)
      ensures Consistent() <==> (b <==> user.Some?)
    {
      isAuthenticated := b;
    }

    method SetCurrentQueue(q: Option<QueueEntry>)
      modifies this
      ensures State() == old(State()).(currentQueue := q)
      ensures old(Consistent()) ==> Consistent()
    {
      currentQueue := q;
    }

    /** logout: clears the user, the flag and the queue ticket; the language stays. A second logout changes nothing. */
    method Logout()
      modifies this
      ensures State() == SignedOut(old(language))
      ensures old(State()) == SignedOut(old(language)) ==> State() == old(State())
      ensures Consistent()
    {
      user := None;
      isAuthenticated := false;
      currentQueue := None;
    }
  }
}
