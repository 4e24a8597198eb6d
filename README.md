# Account administration of UserController, in Dafny

This project models the user-account endpoints of the `UserController` API
controller of a small Laravel back-end. These are the only endpoints with
branching logic. The model covers:

- **index**: list accounts with two optional substring filters (fullname, email),
  ordered by id, highest first;
- **store**: create an account with a hashed password and an avatar that defaults to `""`;
- **show** and **getProfile**: look up one account;
- **update**: validate, then merge the request fields into the record;
- **destroy**: delete one account;
- **changePassword**: a four-way authorization decision, followed by a password rewrite.

The users table is the field `accounts: map<int, Account>` of the class
`Api.UserController`. The field `nextId` is the table's auto-increment counter.
Store, update, destroy and the password change are methods that update these
fields in place. Index, show and getProfile are functions that only read them.
The object invariant `Valid()` says four things:

- the counter `nextId` is at least 1;
- every id lies in `[1, nextId)`;
- no two accounts share an e-mail address;
- a hash made of a password verifies against that password.

Every mutating method preserves it.

The framework's collaborators are constants of the controller, given to its constructor:

- the `Hash` facade is a `Hasher` with `make` and `check`. Its only assumed property
  (`Sound`) is that `check(p, make(p))` holds;
- the validator's `email` format rule is a function `isEmail`;
- `ROLE_ADMIN` is `roleAdmin`;
- the authenticated caller (`auth()->user()->id`) is the parameter `callerId`;
- a database exception on a write is the parameter `dbFault`.

Files:

- `accounts.dfy` (module `Accounts`): records, requests, outcomes and collaborators;
- `listing.dfy` (`Listing`): the index filters and the ordering;
- `validation.dfy` (`Validation`): the update rules and the merge;
- `authorization.dfy` (`Authorization`): the branch selection of changePassword;
- `api.dfy` (`Api`): the controller class.

Outcomes carry what the endpoints answer: `Outcome.Http()` gives the HTTP status and
`Outcome.BodyStatus()` the `status` / `status_code` field of the body. Two answers of the
source are kept as they are. A failed old-password check returns HTTP 200 whose body says
`status_code: 403` (`PasswordNotCorrect`). A failed update write returns HTTP 200 whose body
says `status: 400` (`BadRequestIn200`). A `findOrFail` outside any `try` gives the
framework's 404 (`NotFound`). One inside a `try` is caught and answers 400 (`BadRequest`).

PHP's `empty()` decides whether a filter or `user_id` is present: a filter of `null`, `""`
or `"0"` imposes nothing, and a `user_id` of `null` or `0` counts as no user_id.

Behaviour of the code that the model keeps as it is:

- deleting an unknown id answers 400 with the success message "Delete User Successfull",
  not 404, because the lookup sits inside the `try`;
- a failed update write answers HTTP 200, because no status is passed to `json()`;
- the third branch of changePassword is written as "not admin OR a different id", but given
  the branches tested before it, it refuses exactly a non-admin naming another id
  (`Authorization.Route`);
- an admin naming their own id takes the override, so their old password is not checked;
- update mass-assigns every field it receives, the password included: a password sent to
  update is stored as sent, without hashing and without any old-password check
  (`Validation.UpdateCanSetAnyPassword`).

Request fields of update distinguish a field not sent (`Absent`), sent as null (`Null`; an
empty string arrives as null) and sent with a value (`Given`). A field not sent leaves its
column alone; a value replaces it.

## Model

| member | source | states |
|---|---|---|
| `Listing.ContainsIff` | app/Http/Controllers/Api/UserController.php:29-32 | the LIKE pattern `%x%` holds exactly when `x` is a prefix of some suffix of the field |
| `Listing.MatchesIff` | app/Http/Controllers/Api/UserController.php:29-32 | a row passes the filters iff fullname contains `name` when `name` is non-empty AND email contains `email` when `email` is non-empty; an empty filter (null, "", "0") imposes nothing |
| `Listing.Scan` | app/Http/Controllers/Api/UserController.php:29-33 | the rows with ids up to the bound that pass the filters are returned, all of them and only them, each with its stored record, with ids strictly decreasing |
| `Api.UserController.Index` | app/Http/Controllers/Api/UserController.php:22-39 | the listing holds exactly the accounts of the table that pass the filters, with no limit, strictly ordered by id descending; it only reads the table |
| `Api.UserController.Show` | app/Http/Controllers/Api/UserController.php:79-89 | a known id yields its record; an unknown id yields 404 |
| `Api.UserController.GetProfile` | app/Http/Controllers/Api/UserController.php:161-177 | a known id yields its raw record; an unknown id is caught and yields 400 |
| `Api.UserController.Store` | app/Http/Controllers/Api/UserController.php:47-71 | on success the table gains exactly one record under a fresh id, with the given role, fullname and email, `make(password)` as its hash (which then checks against the password) and avatar `""` when none is given; on a database error (a duplicate e-mail, or a fault) the answer is 400 and the table and counter are unchanged |
| `Validation.Violations` | app/Http/Controllers/Api/UserController.php:103-116 | each rule (fullname required, email required, email format, email unique ignoring the record itself, role required) is reported iff it fails; format is checked only for a present email, and uniqueness only for a present, well-formed one, so a malformed address reports its format alone; no violation iff every rule passes |
| `Validation.OwnEmailIsNotTaken` | app/Http/Controllers/Api/UserController.php:105 | resubmitting the record's own current e-mail never fails uniqueness |
| `Validation.OtherEmailIsTaken` | app/Http/Controllers/Api/UserController.php:105-115 | submitting another account's well-formed e-mail always fails uniqueness, so validation fails |
| `Validation.MergeAfterValidation` | app/Http/Controllers/Api/UserController.php:114-120 | after validation passes, the merged record carries the validated fullname, email and role; a submitted password or avatar is stored as sent, and an omitted one keeps its stored value; the record's e-mail is held by no other account |
| `Validation.UpdateCanSetAnyPassword` | app/Http/Controllers/Api/UserController.php:101-120 | for any account with valid stored fields and any non-empty string (an empty one arrives as null), resubmitting the account's own fields with that string as password passes every rule and stores the string verbatim, with no hashing and no old-password check |
| `Api.UserController.Update` | app/Http/Controllers/Api/UserController.php:98-133 | an unknown id gives 404 before validation; failed rules give 422 with those rules; a write fault, or null sent for avatar or password, gives HTTP 200 with body status 400; in all three the table is unchanged; otherwise only the record is replaced by the merge of every sent field, the password included; e-mail uniqueness is preserved |
| `Api.UserController.Destroy` | app/Http/Controllers/Api/UserController.php:141-159 | an existing id is removed with 200 and every other record stays; an unknown id or a fault gives 400 with the same "deleted" message and no change |
| `Authorization.Route` | app/Http/Controllers/Api/UserController.php:183-229 | the override is taken iff the caller is admin and user_id is non-empty; self-service by id iff a non-admin names their own id; refusal iff a non-admin names another id; the implicit self-service path iff user_id is empty |
| `Authorization.AdminNamingSelfOverrides` | app/Http/Controllers/Api/UserController.php:183-199 | an admin naming their own id takes the override branch, tested first, not the self-service branch |
| `Authorization.ZeroIdIsNoId` | app/Http/Controllers/Api/UserController.php:183-231 | a user_id of 0 is `empty`, so the request behaves as one without user_id and takes the implicit self-service path |
| `Authorization.NonAdminNamingOtherIsDenied` | app/Http/Controllers/Api/UserController.php:221-229 | a non-admin naming any other non-empty id is refused, whatever the passwords |
| `Api.UserController.ChangePassword` | app/Http/Controllers/Api/UserController.php:179-253 | an unknown caller gives 404; the override rehashes the named account without an old-password check, or answers 400 with no change when the target is missing or the write fails; a refused request gives 403 with no change; self-service (by id or implicit) answers "password not correct" (HTTP 200, body status_code 403) with no change when the old password does not check against the caller's hash, and otherwise rehashes the caller's password; in every branch the ids stay the same, no field but one password changes, only the branch's subject can change, and outside the admin override no account but the caller's changes; on success the new password checks against the stored hash |

## Left out

- Query builder, Eloquent and Validator internals are not modelled. The table is a map, and the rules are the predicates in `Validation`.
- SQL `LIKE` under a case-insensitive collation, with `%` and `_` in the filter acting as wildcards: the filters are plain case-sensitive substring containment.
- The e-mail uniqueness lookup's collation: addresses are compared exactly.
- Validation.Violations: `required` is taken as "sent, not null and not the empty string". Laravel also rejects strings of only whitespace. The `string` rule on values that are not strings (arrays, numbers) is not modelled, because request fields are strings here.
- Api.UserController.Update: the merge covers the columns fullname, email, role, avatar and password. The User model is not part of this model: a `hashed` cast on password is taken to be absent, so the password is stored as sent, just as store and changePassword store what they pass. Request keys that are not columns of the record are not modelled.
- Api.UserController.Update: the avatar and password columns are taken to be NOT NULL (the users migration is not part of this model; store's `?? ""` default points that way), so null sent for either makes the write fail with HTTP 200 and status 400. A nullable avatar column, which would store null, is not modelled.
- Api.UserController.Store: StoreUserRequest's validation is not part of this model. Its fields arrive as strings.
- Api.UserController.Store: the unique index on `users.email` is assumed, because the users migration is not part of this model. Other database errors are the `dbFault` parameter.
- Api.UserController.Show: the `UserResource` projection is not part of this model. The record is returned whole.
- Hashing: bcrypt's salt and cost are not modelled. `Hash::make` and `Hash::check` are the `Hasher` functions, and only `check(p, make(p))` is assumed. The case where `Hash::check` throws on a hash that is not bcrypt is left out.
- `auth()->user()` and the session: the caller's id is a parameter.
- The global `ROLE_ADMIN` and the e-mail format rule are constructor parameters with no fixed value.
- PHP loose comparison of a string `user_id` with the integer id is not modelled, because `user_id` is an integer here. Role comparison is exact string equality.
- Response bodies (the Vietnamese messages, the serialized exception in `error`, the JSON envelope) are reduced to the `Outcome` variants and `Notice` tags.
- Soft deletion and timestamps: destroy removes the row.
- Ids assigned on an insert that fails: the counter advances only on success.
- The shape-table migration and the Supplier and XaPhuong models are declarative schema and fillable lists, with no behaviour.
