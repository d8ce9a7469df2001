/** The start-up bootstrap (src/utils/initSuperAdmin.js): when no account
    has the role "admin", one is created from the configured email and
    password. Every failure is logged and swallowed; the caller only learns
    whether an account was created. */
module SuperAdmin {
  import opened Outcomes
  import Store
  import Query

  const ADMIN_ROLE: string := "admin"
  const ADMIN_NAME: string := "Super Admin"

  /** The filter `{ role: 'admin' }`. */
  function IsAdmin(u: Store.User): bool
  {
    u.role == ADMIN_ROLE
  }

  /** The filter `{ email }`. */
  function HasEmail(email: string): Store.User -> bool
  {
    (u: Store.User) => u.email == email
  }

  /** Some account has the role "admin". */
  predicate AdminExists(docs: map<nat, Store.User>)
  {
    exists j :: j in docs && IsAdmin(docs[j])
  }

  /** The account the bootstrap creates. */
  function AdminAccount(email: string, password: string): (u: Store.User)
    ensures IsAdmin(u) && u.active == Some(true) && u.email == email
  {
    Store.User(ADMIN_NAME, email, password, ADMIN_ROLE, Some(true), None, None)
  }

  /** `initializeSuperAdmin`, with the two environment variables as parameters
      (an unset variable is the empty string). The errors it raises (500 for
      missing credentials, 400 for a taken email) never leave it. */
  method InitializeSuperAdmin(users: Store.Users, email: string, password: string) returns (created: Option<nat>)
    requires users.Valid()
    modifies users
    ensures users.Valid()
    ensures AdminExists(old(users.docs)) ==> created.None?
    ensures !AdminExists(old(users.docs)) && (email == "" || password == "") ==> created.None?
    ensures !AdminExists(old(users.docs)) && email != "" && password != "" && Store.EmailTaken(old(users.docs), email)
            ==> created.None?
    ensures created.Some? <==> !AdminExists(old(users.docs)) && email != "" && password != ""
                               && !Store.EmailTaken(old(users.docs), email)
    ensures created.Some? ==>
      created.value !in old(users.docs) && users.docs == old(users.docs)[created.value := AdminAccount(email, password)]
    ensures created.None? ==> users.docs == old(users.docs)
    ensures AdminExists(users.docs) <==> AdminExists(old(users.docs)) || created.Some?
    ensures Store.EmailsUnique(old(users.docs)) ==> Store.EmailsUnique(users.docs)
  {
    Query.FirstBelowFinds(users.docs, IsAdmin, users.nextId);
    var existing := users.FindOne(IsAdmin);
    if existing.Some? {
      return None;
    }
    var failure: Option<Failure> := None;
    if email == "" || password == "" {
      failure := Some(Operational(500, MissingAdminCredentials));
    } else {
      Query.FirstBelowFinds(users.docs, HasEmail(email), users.nextId);
      var emailExists := users.FindOne(HasEmail(email));
      if emailExists.Some? {
        failure := Some(Operational(400, AdminEmailInUse));
      }
    }
    if failure.Some? {
      // the catch block logs the error and returns nothing
      return None;
    }
    var id := users.Insert(AdminAccount(email, password));
    assert IsAdmin(users.docs[id]);
    created := Some(id);
  }

  /** Running the bootstrap twice: the second run changes nothing, so at most
      one account is ever created by it. */
  method InitializeSuperAdminTwice(users: Store.Users, email: string, password: string)
    returns (first: Option<nat>, second: Option<nat>)
    requires users.Valid()
    modifies users
    ensures second.None?
    ensures first.None? ==> users.docs == old(users.docs)
    ensures first.Some? ==> users.docs == old(users.docs)[first.value := AdminAccount(email, password)]
  {
    first := InitializeSuperAdmin(users, email, password);
    second := InitializeSuperAdmin(users, email, password);
  }
}
