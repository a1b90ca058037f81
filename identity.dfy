/** The hosted identity provider, seen only through the outcomes of its
    calls: which user (if any) its client currently holds a session for. */
module Identity {
  import opened Common

  /** The session returned by a successful password sign-in. */
  datatype Session = Session(accessToken: string)

  /** What a rejected `await` throws: an `Error` object, or anything else. */
  datatype Thrown = ErrorValue(message: string) | OtherValue

  /** The outcome of `signInWithPassword`, decided by the provider. */
  datatype SignInResult =
    | SignInFailed(thrown: Thrown)
    | SignedIn(userId: string, session: Option<Session>)

  /** The outcome of `getUser()`. */
  datatype UserLookup = LookupFailed(message: string) | NoUser | SignedInUser(userId: string)

  class AuthClient {
    /** The user the provider currently holds a session for. */
    var user: Option<string>

    constructor (user: Option<string>)
      ensures this.user == user
    {
      this.user := user;
    }

    /** `signInWithPassword`: the provider's answer is given; on success
        the provider now holds a session for that user. */
    method SignInWithPassword(answer: SignInResult) returns (result: SignInResult)
      modifies this
      ensures result == answer
      ensures answer.SignedIn? ==> user == Some(answer.userId)
      ensures answer.SignInFailed? ==> user == old(user)
    {
      if answer.SignedIn? {
        user := Some(answer.userId);
      }
      result := answer;
    }

    /** `signOut()`: the provider's answer is given; unless the call
        fails, the provider forgets the session. The returned flag is the
        error outcome, which the callers ignore. */
    method SignOut(fails: bool) returns (failed: bool)
      modifies this
      ensures failed == fails
      ensures fails ==> user == old(user)
      ensures !fails ==> user == None
    {
      if !fails {
        user := None;
      }
      failed := fails;
    }

    /** `getUser()`: a failure of the call is given as `failure`; otherwise
        the answer is the user the provider holds a session for. */
    method GetUser(failure: Option<string>) returns (lookup: UserLookup)
      ensures failure.Some? ==> lookup == LookupFailed(failure.value)
      ensures failure.None? ==> lookup == if user.Some? then SignedInUser(user.value) else NoUser
    {
      if failure.Some? {
        lookup := LookupFailed(failure.value);
      } else if user.Some? {
        lookup := SignedInUser(user.value);
      } else {
        lookup := NoUser;
      }
    }
  }
}
