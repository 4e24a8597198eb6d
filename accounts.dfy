/** The data shared by the account-administration workflow of UserController:
    the account record, the table of accounts keyed by id, the request
    payloads, the outcomes the endpoints answer with, and the framework
    collaborators (password hasher, e-mail format rule) the controller calls. */
module Accounts {

  datatype Option<T> = None | Some(value: T) {
    function GetOr(default: T): T
    {
      if Some? then value else default
    }
  }

  /** PHP's `empty()` applied to an optional request string: a missing
      parameter (null), "" and "0" all count as empty. */
  predicate IsEmptyText(v: Option<string>)
  {
    v.None? || v.value == "" || v.value == "0"
  }

  /** PHP's `empty()` applied to an optional request id: null and 0 count as empty. */
  predicate IsEmptyId(v: Option<int>)
  {
    v.None? || v.value == 0
  }

  /** One row of the users table, without its id (the id is the table's key).
      `password` is the stored column: a hash when store or the password
      change wrote it, the text as sent when update wrote it. */
  datatype Account = Account(role: string, fullname: string, email: string, password: string, avatar: string)

  /** The users table: id to record. */
  type Table = map<int, Account>

  /** A row as the listing returns it: the id together with the record. */
  datatype Row = Row(id: int, account: Account)

  /** The Hash facade: `make` is Hash::make, `check(plain, hashed)` is Hash::check. */
  datatype Hasher = Hasher(make: string -> string, check: (string, string) -> bool)

  /** The only property of the hasher the workflow relies on: a hash made of a
      password verifies against that password. */
  ghost predicate Sound(h: Hasher)
  {
    forall p :: h.check(p, h.make(p))
  }

  /** Some account of the table has this e-mail address. */
  predicate EmailInUse(t: Table, email: string)
  {
    exists id :: id in t && t[id].email == email
  }

  /** Some account other than `self` has this e-mail address: the rule
      `unique:users,email` with `ignore(self)`. */
  predicate EmailTakenByOther(t: Table, email: string, self: int)
  {
    exists id :: id in t && id != self && t[id].email == email
  }

  /** No two accounts share an e-mail address (the unique index on users.email). */
  ghost predicate EmailsUnique(t: Table)
  {
    forall i, j :: i in t && j in t && t[i].email == t[j].email ==> i == j
  }

  /** The body of POST /users, after StoreUserRequest has accepted it. */
  datatype NewAccount = NewAccount(role: string, password: string, fullname: string, email: string, avatar: Option<string>)

  /** A field of a request as `$request->all()` holds it: not sent at all,
      sent as null (an empty string reaches the controller as null), or sent
      with a value. */
  datatype Field = Absent | Null | Given(value: string)

  /** The columns of PUT /users/{id} that `$user->update($request->all())`
      writes: every field the request carries is mass-assigned, the password
      included, and that one as given. */
  datatype UpdateRequest = UpdateRequest(fullname: Field, email: Field, role: Field, avatar: Field, password: Field)

  /** The body of the password-change request. */
  datatype PasswordRequest = PasswordRequest(userId: Option<int>, passwordOld: string, password: string)

  /** The validation rules of update whose failure is reported, one per message. */
  datatype Rule = FullnameRequired | EmailRequired | EmailFormat | EmailUnique | RoleRequired

  /** The fixed messages the controller answers with. */
  datatype Notice = AccountCreated | AccountNotCreated | UserUpdated | UserDeleted | PasswordUpdated

  /** What an endpoint answers. */
  datatype Outcome =
    | Listed(rows: seq<Row>)               // 200, status 200, data: the rows
    | Shown(account: Account)              // 200, status 200, data: the record
    | Succeeded(notice: Notice)            // 200, status 200, message
    | Invalid(violations: seq<Rule>)       // 422, body: the validator's messages by field
    | NotFound                             // 404: findOrFail outside any try
    | BadRequest(message: Option<Notice>)  // 400, status 400, the exception in `error`
    | BadRequestIn200                      // HTTP 200 carrying status 400 and the exception
    | Forbidden                            // 403, status 403, "You don't permission"
    | PasswordNotCorrect                   // HTTP 200 carrying status_code 403
  {
    /** The HTTP status of the response. */
    function Http(): int
    {
      match this
      case Listed(_) => 200
      case Shown(_) => 200
      case Succeeded(_) => 200
      case Invalid(_) => 422
      case NotFound => 404
      case BadRequest(_) => 400
      case BadRequestIn200 => 200
      case Forbidden => 403
      case PasswordNotCorrect => 200
    }

    /** The `status` (or `status_code`) field of the JSON body, when it has one. */
    function BodyStatus(): Option<int>
    {
      match this
      case Listed(_) => Some(200)
      case Shown(_) => Some(200)
      case Succeeded(_) => Some(200)
      case Invalid(_) => None
      case NotFound => None
      case BadRequest(_) => Some(400)
      case BadRequestIn200 => Some(400)
      case Forbidden => Some(403)
      case PasswordNotCorrect => Some(403)
    }
  }
}
