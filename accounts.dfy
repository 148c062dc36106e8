/**
 * The `users` table of the account revision: username (primary key),
 * plaintext password and `is_admin`, with the queries the application runs on it.
 */
module Accounts {
  import opened Wrappers

  /** A `users` row without its key. `is_admin` only ever holds 0 or 1, read here as a bool. */
  datatype Account = Account(password: string, isAdmin: bool)

  type Users = map<string, Account>

  datatype AccountError = DuplicateUsername  // "Username sudah dipakai."

  /**
   * The "Daftar" button: refuse a taken name; otherwise insert the user,
   * as admin exactly when `SELECT COUNT(*) FROM users` was 0.
   */
  function Register(users: Users, username: string, password: string): (r: Result<Users, AccountError>)
    ensures r.Failure? <==> username in users
    ensures r.Success? ==>
      && r.value.Keys == users.Keys + {username}
      && r.value[username].password == password
      && (r.value[username].isAdmin <==> users == map[])
      && forall u :: u in users ==> r.value[u] == users[u]
  {
    if username in users then Failure(DuplicateUsername)
    else
      var userCount := |users|;
      var isAdmin := userCount == 0;
      Success(users[username := Account(password, isAdmin)])
  }

  /** One row of the `users` table as SQL sees it: `(username, password, is_admin)`. */
  datatype UserRow = UserRow(username: string, password: string, isAdmin: bool)

  /** The table's rows. */
  ghost function Rows(users: Users): set<UserRow> {
    set u | u in users :: UserRow(u, users[u].password, users[u].isAdmin)
  }

  /**
   * `SELECT * FROM users WHERE username = ? AND password = ?`: the matching
   * row's `is_admin`, if any.
   */
  function Authenticate(users: Users, username: string, password: string): (r: Option<bool>)
    ensures r.Some? <==> exists row :: row in Rows(users) && row.username == username && row.password == password
    ensures r.Some? ==> UserRow(username, password, r.value) in Rows(users)
    ensures r.Some? <==> username in users && users[username].password == password
    ensures r.Some? ==> r.value == users[username].isAdmin
  {
    if username in users && users[username].password == password then
      assert UserRow(username, password, users[username].isAdmin) in Rows(users);
      Some(users[username].isAdmin)
    else
      None
  }

  /** `UPDATE users SET is_admin = 1 WHERE username = ?`. */
  function Promote(users: Users, target: string): (r: Users)
    ensures r.Keys == users.Keys
    ensures target in users ==> r[target] == Account(users[target].password, true)
    ensures forall u :: u in users && u != target ==> r[u] == users[u]
  {
    if target in users then users[target := users[target].(isAdmin := true)] else users
  }

  /** The users with `is_admin == 0`: the promotion candidates and the payroll's employee list. */
  function NonAdmins(users: Users): (r: set<string>)
    ensures r == set row | row in Rows(users) && !row.isAdmin :: row.username
    ensures forall u :: u in r <==> u in users && !users[u].isAdmin
  {
    var byRows := set row | row in Rows(users) && !row.isAdmin :: row.username;
    var byKeys := set u | u in users && !users[u].isAdmin;
    assert forall u :: u in byKeys ==> UserRow(u, users[u].password, users[u].isAdmin) in Rows(users);
    assert byRows == byKeys;
    byKeys
  }

  predicate HasAdmin(users: Users) {
    exists u :: u in users && users[u].isAdmin
  }

  /** A non-empty table always has an admin: the first user is one, and no one is ever demoted. */
  lemma RegisterKeepsAnAdmin(users: Users, username: string, password: string)
    requires users != map[] ==> HasAdmin(users)
    requires Register(users, username, password).Success?
    ensures HasAdmin(Register(users, username, password).value)
  {
    var after := Register(users, username, password).value;
    if users == map[] {
      assert after[username].isAdmin;
    } else {
      var u :| u in users && users[u].isAdmin;
      assert after[u] == users[u];
    }
  }

  lemma PromoteKeepsAnAdmin(users: Users, target: string)
    requires HasAdmin(users)
    ensures HasAdmin(Promote(users, target))
  {
    var u :| u in users && users[u].isAdmin;
    if u != target {
      assert Promote(users, target)[u] == users[u];
    }
  }

  /** Registering and then logging in with the same password succeeds, with the bootstrap role. */
  lemma RegisterThenAuthenticate(users: Users, username: string, password: string, attempt: string)
    requires username !in users
    ensures Authenticate(Register(users, username, password).value, username, attempt) ==
      if attempt == password then Some(users == map[]) else None
  {
  }

  /** Promotion is idempotent. */
  lemma PromoteIdempotent(users: Users, target: string)
    ensures Promote(Promote(users, target), target) == Promote(users, target)
  {
  }

  /** Promotion removes exactly the target from the candidates. */
  lemma PromoteRemovesCandidate(users: Users, target: string)
    ensures NonAdmins(Promote(users, target)) == NonAdmins(users) - {target}
  {
    var after := Promote(users, target);
    forall u | u in NonAdmins(after)
      ensures u in NonAdmins(users) - {target}
    {
      assert u != target ==> after[u] == users[u];
    }
    forall u | u in NonAdmins(users) - {target}
      ensures u in NonAdmins(after)
    {
      assert after[u] == users[u];
    }
  }

  /** After promotion the target logs in as admin with the same password; everyone else logs in as before. */
  lemma PromoteThenAuthenticate(users: Users, target: string, username: string, password: string)
    requires target in users
    ensures Authenticate(Promote(users, target), username, password) ==
      if username == target then (if password == users[target].password then Some(true) else None)
      else Authenticate(users, username, password)
  {
  }
}
