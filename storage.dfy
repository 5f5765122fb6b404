/**
 * The browser stores the login flow reads and writes, held as parsed documents:
 * `receptoUsers` and `receptoLoggedUser` in localStorage, `manualLogout` in sessionStorage.
 */
module Storage {
  import opened Wrappers

  /** An entry of the `receptoUsers` document. */
  datatype User = User(id: string, username: string, password: string, role: string, name: string)

  /** The `receptoLoggedUser` document: who is signed in. It has no password field. */
  datatype Session = Session(id: string, username: string, name: string, role: string)

  /** The three store entries; `None` is a key that is not set. */
  class Store {
    var users: Option<seq<User>>
    var loggedUser: Option<Session>
    var manualLogout: Option<string>

    constructor (users: Option<seq<User>>, loggedUser: Option<Session>, manualLogout: Option<string>)
      ensures this.users == users && this.loggedUser == loggedUser && this.manualLogout == manualLogout
    {
      this.users := users;
      this.loggedUser := loggedUser;
      this.manualLogout := manualLogout;
    }
  }
}
