/** The authentication state: the signed-in user and the loading flag, over
    the single user record of the repository. There is one account per
    browser; a password is never stored, only its hash. */
module Auth {
  import opened Types
  import opened LocalStorage

  class AuthProvider {
    /** The signed-in user, if any. */
    var user: Option<User>
    /** True until the first check of the stored account has finished. */
    var loading: bool
    const storage: LocalStorageService
    /** SHA-256 rendered as text, kept abstract. */
    const hash: string -> string

    ghost predicate Valid()
      reads storage
    {
      storage.Valid()
    }

    constructor (storage: LocalStorageService, hash: string -> string)
      ensures this.storage == storage && this.hash == hash
      ensures user == None && loading
    {
      this.storage := storage;
      this.hash := hash;
      user := None;
      loading := true;
    }

    /** `isAuthenticated`. */
    function IsAuthenticated(): bool
      reads this
    {
      user.Some?
    }

    /** Whether the stored account has this username and password. */
    function Matches(username: string, password: string): (r: bool)
      reads storage
      ensures r <==> storage.GetUser().Some? && storage.GetUser().value.username == username
                     && storage.GetUser().value.passwordHash == hash(password)
    {
      match storage.GetUser()
      case None => false
      case Some(stored) => stored.username == username && stored.passwordHash == hash(password)
    }

    /** `checkUserAuth`: restore the stored account, if there is one; loading
        is over in every case. */
    method CheckUserAuth()
      modifies this
      ensures storage.GetUser().Some? ==> user == storage.GetUser()
      ensures storage.GetUser().None? ==> user == old(user)
      ensures !loading
    {
      var saved := storage.GetUser();
      if saved.Some? {
        user := saved;
      }
      loading := false;
    }

    /** `login`: succeeds exactly when an account is stored with this
        username and the hash of this password; only then does the stored
        account become the signed-in user. Storage is never written. */
    method Login(username: string, password: string) returns (ok: bool)
      modifies this
      ensures ok <==> Matches(username, password)
      ensures ok ==> user == storage.GetUser() && IsAuthenticated()
      ensures !ok ==> user == old(user)
      ensures loading == old(loading)
    {
      var stored := storage.GetUser();
      if stored.None? {
        return false;
      }
      var passwordHash := hash(password);
      if stored.value.username == username && stored.value.passwordHash == passwordHash {
        user := stored;
        return true;
      }
      return false;
    }

    /** `register`: refused when an account is already stored; otherwise
        stores and signs in a new account holding the password's hash. */
    method Register(username: string, password: string, newId: string, now: string) returns (ok: bool)
      requires Valid()
      modifies this, storage
      ensures ok <==> old(storage.GetUser()).None?
      ensures !ok ==> storage.store == old(storage.store) && user == old(user)
      ensures ok ==> storage.GetUser() == Some(User(newId, username, hash(password), now))
      ensures ok ==> user == storage.GetUser() && IsAuthenticated()
      ensures storage.GetClients() == old(storage.GetClients()) && storage.GetOrders() == old(storage.GetOrders())
      ensures storage.GetCustomFields() == old(storage.GetCustomFields())
      ensures loading == old(loading)
    {
      var existing := storage.GetUser();
      if existing.Some? {
        return false;
      }
      var newUser := User(newId, username, hash(password), now);
      storage.SaveUser(newUser);
      user := Some(newUser);
      return true;
    }

    /** `logout`: signs out; the stored account stays. */
    method Logout()
      modifies this
      ensures user == None && !IsAuthenticated() && loading == old(loading)
    {
      user := None;
    }

    /** Registering and then signing in with the same credentials succeeds. */
    method RegisterThenLogin(username: string, password: string, newId: string, now: string)
      returns (registered: bool, loggedIn: bool)
      requires Valid() && storage.GetUser().None?
      modifies this, storage
      ensures registered && loggedIn
      ensures user == Some(User(newId, username, hash(password), now))
    {
      registered := Register(username, password, newId, now);
      loggedIn := Login(username, password);
    }

    /** Since signing out leaves the account in storage, the next check of
        the stored account (as on the app becoming visible) signs it in again. */
    method LogoutThenCheck()
      modifies this
      ensures storage.GetUser().Some? ==> user == storage.GetUser()
      ensures storage.GetUser().None? ==> user == None
    {
      Logout();
      CheckUserAuth();
    }
  }
}
