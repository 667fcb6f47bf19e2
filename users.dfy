/**
 * The registered accounts `usuariosRegistrados`: the login lookup and the
 * registration form's validation cascade followed by an append.
 */
module Users {
  import opened Wrappers

  /** An account (`Usuario`): a user name and its password, compared as plain strings. */
  datatype Account = Account(username: string, password: string)

  /** The two accounts present at startup. */
  function SeedAccounts(): seq<Account> {
    [Account("admin", "admin123"), Account("usuario", "123456")]
  }

  /** No two accounts share a user name. */
  predicate UniqueUsernames(us: seq<Account>) {
    forall i, j :: 0 <= i < j < |us| ==> us[i].username != us[j].username
  }

  /** `usuariosRegistrados.any { it.usuario == username }`. */
  predicate UsernameTaken(us: seq<Account>, username: string) {
    exists i :: 0 <= i < |us| && us[i].username == username
  }

  /** The login lookup `find { it.usuario == username && it.password == password }`. */
  function FindAccount(us: seq<Account>, username: string, password: string): (r: Option<Account>)
    ensures r.Some? <==> exists i :: 0 <= i < |us| && us[i].username == username && us[i].password == password
    ensures r.Some? ==> r.value == Account(username, password)
  {
    if us == [] then None
    else if us[0].username == username && us[0].password == password then Some(us[0])
    else
      var r := FindAccount(us[1..], username, password);
      assert r.Some? ==> exists i :: 0 <= i < |us| && us[i].username == username && us[i].password == password by {
        if r.Some? {
          var i :| 0 <= i < |us[1..]| && us[1..][i].username == username && us[1..][i].password == password;
          assert us[i + 1] == us[1..][i];
        }
      }
      assert (exists i :: 0 <= i < |us| && us[i].username == username && us[i].password == password) ==> r.Some? by {
        if i :| 0 <= i < |us| && us[i].username == username && us[i].password == password {
          assert i > 0 && us[1..][i - 1] == us[i];
        }
      }
      r
  }

  /** Why a registration was refused, in the order the form checks. */
  datatype RegistrationError =
    | MissingField      // "Todos los campos son obligatorios"
    | PasswordMismatch  // "Las contraseñas no coinciden"
    | UsernameExists    // "El usuario ya existe, elija otro nombre"

  /** Some field of the form is empty. */
  predicate HasEmptyField(username: string, password: string, confirmation: string) {
    username == [] || password == [] || confirmation == []
  }

  /** The registration form's `when` cascade; `None` means the account may be added. */
  function CheckRegistration(us: seq<Account>, username: string, password: string, confirmation: string)
    : (r: Option<RegistrationError>)
    ensures r == Some(MissingField) <==> HasEmptyField(username, password, confirmation)
    ensures r == Some(PasswordMismatch) <==> !HasEmptyField(username, password, confirmation) && password != confirmation
    ensures r == Some(UsernameExists) <==>
      !HasEmptyField(username, password, confirmation) && password == confirmation && UsernameTaken(us, username)
    ensures r == None <==>
      !HasEmptyField(username, password, confirmation) && password == confirmation && !UsernameTaken(us, username)
  {
    if HasEmptyField(username, password, confirmation) then Some(MissingField)
    else if password != confirmation then Some(PasswordMismatch)
    else if UsernameTaken(us, username) then Some(UsernameExists)
    else None
  }

  /** The seeded directory has unique names; admin/admin123 logs in, a wrong password does not. */
  lemma SeedAccountsBehave()
    ensures UniqueUsernames(SeedAccounts())
    ensures FindAccount(SeedAccounts(), "admin", "admin123") == Some(Account("admin", "admin123"))
    ensures FindAccount(SeedAccounts(), "admin", "wrong") == None
  {
    var us := SeedAccounts();
    assert us[0].password != "wrong" && us[1].username != "admin";
  }

  /** An accepted registration keeps user names unique. */
  lemma RegistrationKeepsUniqueness(us: seq<Account>, username: string, password: string, confirmation: string)
    requires UniqueUsernames(us) && CheckRegistration(us, username, password, confirmation) == None
    ensures UniqueUsernames(us + [Account(username, password)])
  {
  }

  /** After an accepted registration the new account logs in, and every account that logged in before still does. */
  lemma RegistrationThenLogin(us: seq<Account>, username: string, password: string, confirmation: string,
                              u: string, p: string)
    requires CheckRegistration(us, username, password, confirmation) == None
    ensures FindAccount(us + [Account(username, password)], username, password).Some?
    ensures FindAccount(us, u, p).Some? ==> FindAccount(us + [Account(username, password)], u, p).Some?
  {
    var grown := us + [Account(username, password)];
    assert grown[|us|] == Account(username, password);
    if FindAccount(us, u, p).Some? {
      var i :| 0 <= i < |us| && us[i].username == u && us[i].password == p;
      assert grown[i] == us[i];
    }
  }

  /** Registering the same name twice: the second attempt is refused, whatever its password, and the first account still logs in. */
  lemma SecondRegistrationRefused(us: seq<Account>, username: string, p1: string, p2: string)
    requires CheckRegistration(us, username, p1, p1) == None && p2 != []
    ensures CheckRegistration(us + [Account(username, p1)], username, p2, p2) == Some(UsernameExists)
    ensures FindAccount(us + [Account(username, p1)], username, p1).Some?
  {
    var grown := us + [Account(username, p1)];
    assert grown[|us|].username == username;
    RegistrationThenLogin(us, username, p1, p1, username, p1);
  }

  /** The registered accounts, shared by the login and registration screens. */
  class UserDirectory {
    var accounts: seq<Account>

    ghost predicate Valid()
      reads this
    {
      UniqueUsernames(accounts)
    }

    /** The directory at startup. */
    constructor ()
      ensures Valid() && accounts == SeedAccounts()
    {
      accounts := SeedAccounts();
      SeedAccountsBehave();
    }

    /** The login button: succeeds exactly when some account has both this name and this password. */
    function Login(username: string, password: string): (ok: bool)
      reads this
      ensures ok <==> Account(username, password) in accounts
    {
      var found := FindAccount(accounts, username, password);
      found.Some?
    }

    /** The register button: check the form, and append the new account when it passes. */
    method Register(username: string, password: string, confirmation: string) returns (error: Option<RegistrationError>)
      requires Valid()
      modifies this
      ensures Valid()
      ensures error == CheckRegistration(old(accounts), username, password, confirmation)
      ensures accounts == if error.None? then old(accounts) + [Account(username, password)] else old(accounts)
    {
      error := CheckRegistration(accounts, username, password, confirmation);
      if error.None? {
        RegistrationKeepsUniqueness(accounts, username, password, confirmation);
        accounts := accounts + [Account(username, password)];
      }
    }
  }
}
