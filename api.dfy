/** UserController: the account-administration endpoints over the users
    table. The table, and the next id the database will assign, are the
    state every endpoint reads and the mutating ones update in place. */
module Api {
  import opened Accounts
  import opened Listing
  import opened Validation
  import opened Authorization

  class UserController {
    /** The users table. */
    var accounts: map<int, Account>
    /** The id the auto-increment column gives the next created row. */
    var nextId: int

    /** Hash::make and Hash::check. */
    const hasher: Hasher
    /** The validator's `email` format rule. */
    const isEmail: string -> bool
    /** The global constant ROLE_ADMIN. */
    const roleAdmin: string

    /** Ids are assigned by auto-increment from 1, e-mails are unique (the
        users table's unique index), and hashes verify their passwords. */
    ghost predicate Valid()
      reads this
    {
      && nextId >= 1
      && (forall id :: id in accounts ==> 1 <= id < nextId)
      && EmailsUnique(accounts)
      && Sound(hasher)
    }

    constructor (hasher: Hasher, isEmail: string -> bool, roleAdmin: string)
      requires Sound(hasher)
      ensures Valid()
      ensures accounts == map[] && nextId == 1
      ensures this.hasher == hasher && this.isEmail == isEmail && this.roleAdmin == roleAdmin
    {
      this.hasher := hasher;
      this.isEmail := isEmail;
      this.roleAdmin := roleAdmin;
      accounts := map[];
      nextId := 1;
    }

    /** The table with the password of `id` replaced by the hash of `password`. */
    function Rehashed(t: Table, id: int, password: string): (t': Table)
      requires id in t
    {
      t[id := t[id].(password := hasher.make(password))]
    }

    /** GET /users?name=&email=: every account passing the non-empty filters,
        highest id first. Reading only, the table is left as it is. */
    function Index(name: Option<string>, email: Option<string>): (r: Outcome)
      reads this
      requires Valid()
      ensures r.Listed?
      ensures forall i, j :: 0 <= i < j < |r.rows| ==> r.rows[i].id > r.rows[j].id
      ensures forall row :: row in r.rows <==>
        row.id in accounts && accounts[row.id] == row.account && Matches(row.account, name, email)
    {
      Listed(Scan(accounts, nextId - 1, name, email))
    }

    /** GET /users/{id}: the record, or 404 when the id is unknown. */
    function Show(id: int): (r: Outcome)
      reads this
      ensures r.Shown? <==> id in accounts
      ensures r.Shown? ==> r.account == accounts[id]
      ensures !r.Shown? ==> r == NotFound && r.Http() == 404
    {
      if id in accounts then Shown(accounts[id]) else NotFound
    }

    /** GET profile: the raw record, or 400 when the id is unknown (the
        lookup failure is caught). */
    function GetProfile(id: int): (r: Outcome)
      reads this
      ensures r.Shown? <==> id in accounts
      ensures r.Shown? ==> r.account == accounts[id]
      ensures !r.Shown? ==> r == BadRequest(None) && r.Http() == 400
    {
      if id in accounts then Shown(accounts[id]) else BadRequest(None)
    }

    /** POST /users: a new row under the next id with the password hashed and
        the avatar defaulting to "". A database error (a duplicate e-mail
        under the unique index, or `dbFault`) answers 400 and writes nothing. */
    method Store(req: NewAccount, dbFault: bool) returns (r: Outcome)
      requires Valid()
      modifies this
      ensures Valid()
      ensures if dbFault || EmailInUse(old(accounts), req.email) then
          && r == BadRequest(Some(AccountNotCreated))
          && accounts == old(accounts) && nextId == old(nextId)
        else
          && r == Succeeded(AccountCreated)
          && old(nextId) !in old(accounts)
          && accounts == old(accounts)[old(nextId) :=
               Account(req.role, req.fullname, req.email, hasher.make(req.password), req.avatar.GetOr(""))]
          && nextId == old(nextId) + 1
          && |accounts| == |old(accounts)| + 1
          && hasher.check(req.password, accounts[old(nextId)].password)
    {
      if dbFault || EmailInUse(accounts, req.email) {
        r := BadRequest(Some(AccountNotCreated));
      } else {
        var created := Account(req.role, req.fullname, req.email, hasher.make(req.password), req.avatar.GetOr(""));
        forall id | id in accounts ensures accounts[id].email != created.email {
          assert !EmailInUse(accounts, req.email);
        }
        accounts := accounts[nextId := created];
        nextId := nextId + 1;
        r := Succeeded(AccountCreated);
      }
    }

    /** PUT /users/{id}: 404 for an unknown id before any rule runs; 422 with
        the failed rules; HTTP 200 carrying status 400 when the write fails
        (a fault, or null sent for avatar or password); otherwise every field
        the request carries, the password included, merged into the record. */
    method Update(id: int, req: UpdateRequest, dbFault: bool) returns (r: Outcome)
      requires Valid()
      modifies this
      ensures Valid() && nextId == old(nextId)
      ensures id !in old(accounts) ==> r == NotFound && accounts == old(accounts)
      ensures id in old(accounts) ==>
        var errs := Violations(old(accounts), id, req, isEmail);
        if errs != [] then r == Invalid(errs) && accounts == old(accounts)
        else if dbFault || WritesNull(req) then
          r == BadRequestIn200 && r.Http() == 200 && r.BodyStatus() == Some(400) && accounts == old(accounts)
        else r == Succeeded(UserUpdated) && accounts == old(accounts)[id := Merge(old(accounts)[id], req)]
    {
      if id !in accounts {
        r := NotFound;
        return;
      }
      var errs := Violations(accounts, id, req, isEmail);
      if errs != [] {
        r := Invalid(errs);
        return;
      }
      if dbFault || WritesNull(req) {
        r := BadRequestIn200;
        return;
      }
      MergeAfterValidation(accounts, id, req, isEmail);
      accounts := accounts[id := Merge(accounts[id], req)];
      r := Succeeded(UserUpdated);
    }

    /** DELETE /users/{id}: removes the row. An unknown id is caught with the
        write failure and answers 400, with the same message as success. */
    method Destroy(id: int, dbFault: bool) returns (r: Outcome)
      requires Valid()
      modifies this
      ensures Valid() && nextId == old(nextId)
      ensures if id in old(accounts) && !dbFault then
          r == Succeeded(UserDeleted) && accounts == old(accounts) - {id}
        else
          r == BadRequest(Some(UserDeleted)) && accounts == old(accounts)
    {
      if id in accounts && !dbFault {
        accounts := accounts - {id};
        r := Succeeded(UserDeleted);
      } else {
        r := BadRequest(Some(UserDeleted));
      }
    }

    /** Password change for the authenticated caller `callerId`, along the
        branch Route selects: the admin override rehashes the named account
        without checking the old password; self-service (by id, or with no
        user_id) rehashes the caller's own password once the old one checks;
        a non-admin naming another account is refused. At most the subject's
        password changes, and nothing else. */
    method ChangePassword(callerId: int, req: PasswordRequest, dbFault: bool) returns (r: Outcome)
      requires Valid()
      modifies this
      ensures Valid() && nextId == old(nextId)
      ensures callerId !in old(accounts) ==> r == NotFound && accounts == old(accounts)
      ensures callerId in old(accounts) ==>
        var caller := old(accounts)[callerId];
        match Route(caller.role, callerId, req.userId, roleAdmin)
        case AdminOverride =>
          var target := req.userId.value;
          if target in old(accounts) && !dbFault then
            r == Succeeded(PasswordUpdated) && accounts == Rehashed(old(accounts), target, req.password)
          else
            r == BadRequest(None) && accounts == old(accounts)
        case Denied =>
          r == Forbidden && accounts == old(accounts)
        case _ =>
          if !hasher.check(req.passwordOld, caller.password) then
            r == PasswordNotCorrect && r.Http() == 200 && r.BodyStatus() == Some(403) && accounts == old(accounts)
          else if dbFault then
            r == BadRequest(None) && accounts == old(accounts)
          else
            r == Succeeded(PasswordUpdated) && accounts == Rehashed(old(accounts), callerId, req.password)
      ensures accounts.Keys == old(accounts).Keys
      ensures forall id :: id in accounts ==> accounts[id] == old(accounts)[id].(password := accounts[id].password)
      ensures callerId in old(accounts) && Route(old(accounts)[callerId].role, callerId, req.userId, roleAdmin) != AdminOverride ==>
        forall id :: id in accounts && id != callerId ==> accounts[id] == old(accounts)[id]
      ensures forall id :: id in accounts && accounts[id] != old(accounts)[id] ==>
        callerId in old(accounts) && id == Subject(Route(old(accounts)[callerId].role, callerId, req.userId, roleAdmin), callerId, req.userId)
      ensures r.Succeeded? ==>
        callerId in old(accounts) &&
        var subject := Subject(Route(old(accounts)[callerId].role, callerId, req.userId, roleAdmin), callerId, req.userId);
        subject in accounts && hasher.check(req.password, accounts[subject].password)
    {
      if callerId !in accounts {
        r := NotFound;
        return;
      }
      var user := accounts[callerId];
      match Route(user.role, callerId, req.userId, roleAdmin)
      case AdminOverride =>
        var target := req.userId.value;
        if target !in accounts || dbFault {
          r := BadRequest(None);
          return;
        }
        accounts := Rehashed(accounts, target, req.password);
        r := Succeeded(PasswordUpdated);
      case Denied =>
        r := Forbidden;
      case _ =>
        if !hasher.check(req.passwordOld, user.password) {
          r := PasswordNotCorrect;
          return;
        }
        if dbFault {
          r := BadRequest(None);
          return;
        }
        accounts := Rehashed(accounts, callerId, req.password);
        r := Succeeded(PasswordUpdated);
    }
  }
}
