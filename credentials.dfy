/** The credential store: the `users_db` dictionary from username to a record
    holding the password hash, and the registration rule of the terminal loop. */
module Credentials {

  /** The value stored per user: `{'password': <hash>}`. */
  datatype UserRecord = UserRecord(password: string)

  class UserStore {
    var users: map<string, UserRecord>

    /** `loaded` is what reading the credential file produced (empty when there is
        no file). */
    constructor (loaded: map<string, UserRecord>)
      ensures users == loaded
    {
      users := loaded;
    }

    /** Registration: a username already present is rejected and nothing changes;
        otherwise the username is bound to the hash of the password, and only
        that key is added. `hash` stands for the password-hashing library. */
    method Register(username: string, password: string, hash: string -> string) returns (registered: bool)
      modifies this
      ensures registered <==> username !in old(users)
      ensures !registered ==> users == old(users)
      ensures registered ==> users == old(users)[username := UserRecord(hash(password))]
      ensures users.Keys == old(users.Keys) + {username}
      ensures forall u :: u in old(users) ==> u in users && users[u] == old(users[u])
    {
      if username in users {
        registered := false;
        return;
      }
      var hashedPassword := hash(password);
      users := users[username := UserRecord(hashedPassword)];
      registered := true;
    }
  }
}
