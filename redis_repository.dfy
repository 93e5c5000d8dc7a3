/**
  User registration and authentication over the key-value store
  (internal/repository/redis_repository.go). A user is a hash stored under
  the key "user:" + username.

  The password hash (SHA-256 in hex) is a foreign function; it is the
  parameter `hash` here and is never inspected. Store faults are parameters.
 */
module UserAccounts {
  import opened Wrappers
  import Text

  /** 24 hours. */
  const UserLifetimeMs: nat := 86_400_000

  /** The error of a read of a missing hash field. */
  const MissingField := "redis: nil"

  function UserKey(username: string): string { "user:" + username }

  /** A hash of string fields and the lifetime it was given (None: no expiry). */
  datatype Entry = Entry(fields: map<string, string>, lifetimeMs: Option<nat>)

  /** The fields RegisterUser writes: the hashed password and the role, nothing else. */
  function RegisteredFields(hashed: string, role: string): map<string, string>
  {
    map["password" := hashed, "role" := role]
  }

  /** An authenticated user. */
  datatype Account = Account(id: nat, username: string, role: string)

  /** The faults of the store calls a registration makes. */
  datatype RegisterFaults = RegisterFaults(existsFails: bool, writeFails: bool, expireFails: bool)

  /** The faults of the store calls an authentication makes. */
  datatype AuthFaults = AuthFaults(existsFails: bool, passwordReadFails: bool, idReadFails: bool)

  class UserStore {
    var entries: map<string, Entry>

    constructor()
      ensures entries == map[]
    {
      entries := map[];
    }

    /**
      RegisterUser. An existing key fails with "user already exists" and
      writes nothing; otherwise the hash of the password (never the password
      itself) and the role are written and the entry is given a 24-hour
      lifetime. The result of the expiry call is not checked, so a failed
      expiry leaves an entry without a lifetime and still reports success.
     */
    method RegisterUser(username: string, password: string, role: string, hash: string -> string, faults: RegisterFaults) returns (r: Outcome)
      modifies this
      ensures faults.existsFails ==> r.Fail? && entries == old(entries)
      ensures !faults.existsFails && UserKey(username) in old(entries) ==>
        r == Fail("user already exists") && entries == old(entries)
      ensures !faults.existsFails && UserKey(username) !in old(entries) && faults.writeFails ==>
        r.Fail? && entries == old(entries)
      ensures !faults.existsFails && UserKey(username) !in old(entries) && !faults.writeFails ==>
        && r == Pass
        && entries == old(entries)[UserKey(username) := Entry(RegisteredFields(hash(password), role),
                                                              if faults.expireFails then None else Some(UserLifetimeMs))]
    {
      var key := UserKey(username);
      if faults.existsFails {
        return Fail("exists check failed");
      }
      if key in entries {
        return Fail("user already exists");
      }
      var hashed := hash(password);
      if faults.writeFails {
        return Fail("hset failed");
      }
      entries := entries[key := Entry(map["password" := hashed, "role" := role], None)];
      if !faults.expireFails {
        entries := entries[key := entries[key].(lifetimeMs := Some(UserLifetimeMs))];
      }
      r := Pass;
    }

    /** The stored password hash of a user, if the user and the field exist. */
    function StoredHash(username: string): Option<string>
      reads this
    {
      if UserKey(username) in entries && "password" in entries[UserKey(username)].fields
      then Some(entries[UserKey(username)].fields["password"]) else None
    }

    /** The stored "id" field of a user, if the user and the field exist. */
    function StoredId(username: string): Option<string>
      reads this
    {
      if UserKey(username) in entries && "id" in entries[UserKey(username)].fields
      then Some(entries[UserKey(username)].fields["id"]) else None
    }

    /**
      AuthenticateUser: a read-only chain of lookups. A missing key or a
      failed existence check gives "user not found"; a missing or unreadable
      password field is an error; a password whose hash differs from the
      stored one gives "invalid credentials"; then the "id" field must be
      present and parse as an unsigned 32-bit decimal ("invalid user ID
      format" otherwise). A missing role reads as "".
     */
    function AuthenticateUser(username: string, password: string, hash: string -> string, faults: AuthFaults): (r: Result<Account>)
      reads this
      ensures faults.existsFails || UserKey(username) !in entries ==> r == Err("user not found")
      ensures r.Ok? ==>
        && UserKey(username) in entries
        && var fields := entries[UserKey(username)].fields;
        && "password" in fields && fields["password"] == hash(password)
        && "id" in fields && Text.ParseUint32(fields["id"]) == Some(r.value.id)
        && r.value.username == username
        && r.value.role == (if "role" in fields then fields["role"] else "")
      ensures (!faults.existsFails && !faults.passwordReadFails && StoredHash(username).Some?
               && StoredHash(username).value != hash(password)) ==>
        r == Err("invalid credentials")
      ensures (!faults.existsFails && !faults.passwordReadFails && !faults.idReadFails
               && StoredHash(username) == Some(hash(password)) && StoredId(username).Some?) ==>
        (r.Ok? <==> Text.ParseUint32(StoredId(username).value).Some?)
    {
      var key := UserKey(username);
      if faults.existsFails || key !in entries then Err("user not found")
      else
        var fields := entries[key].fields;
        if faults.passwordReadFails then Err("password read failed")
        else if "password" !in fields then Err(MissingField)
        else if hash(password) != fields["password"] then Err("invalid credentials")
        else if faults.idReadFails then Err("id read failed")
        else if "id" !in fields then Err(MissingField)
        else
          var role := if "role" in fields then fields["role"] else "";
          match Text.ParseUint32(fields["id"])
          case None => Err("invalid user ID format")
          case Some(id) => Ok(Account(id, username, role))
    }
  }

  /**
    RegisterUser never writes an "id" field, so a user created only through
    RegisterUser can never authenticate: with the right password the call
    fails at the id read, with a wrong one it fails earlier.
   */
  lemma RegisteredUserCannotAuthenticate(store: UserStore, username: string, password: string, hash: string -> string,
                                         faults: AuthFaults, hashed: string, role: string, lifetime: Option<nat>)
    requires UserKey(username) in store.entries
    requires store.entries[UserKey(username)] == Entry(RegisteredFields(hashed, role), lifetime)
    ensures store.AuthenticateUser(username, password, hash, faults).Err?
  {
    assert "id" !in RegisteredFields(hashed, role);
  }

  /** Right after a fresh registration, the user is found and the right password gets past the credential check. */
  lemma RegisteredPasswordAccepted(store: UserStore, username: string, password: string, hash: string -> string, role: string, lifetime: Option<nat>)
    requires UserKey(username) in store.entries
    requires store.entries[UserKey(username)] == Entry(RegisteredFields(hash(password), role), lifetime)
    ensures store.AuthenticateUser(username, password, hash, AuthFaults(false, false, false)) == Err(MissingField)
  {
  }
}
