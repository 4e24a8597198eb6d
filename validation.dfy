/** The rules `update` checks before it writes, and the merge of the request
    fields into the stored record. */
module Validation {
  import opened Accounts

  /** The rule `required` on a string field: sent, not null and not empty. */
  predicate Filled(v: Field)
  {
    v.Given? && v.value != ""
  }

  /** The rules that fail for the request, in the order of the rule list
      (fullname, email, role). A failed `required` stops the other rules of
      that field, and the uniqueness rule of email runs only when no earlier
      rule of email has failed, so a malformed address reports its format alone. */
  function Violations(t: Table, self: int, req: UpdateRequest, isEmail: string -> bool): (errs: seq<Rule>)
    ensures FullnameRequired in errs <==> !Filled(req.fullname)
    ensures EmailRequired in errs <==> !Filled(req.email)
    ensures EmailFormat in errs <==> Filled(req.email) && !isEmail(req.email.value)
    ensures EmailUnique in errs <==>
      Filled(req.email) && isEmail(req.email.value) && EmailTakenByOther(t, req.email.value, self)
    ensures RoleRequired in errs <==> !Filled(req.role)
    ensures errs == [] <==>
      && Filled(req.fullname) && Filled(req.role)
      && Filled(req.email) && isEmail(req.email.value) && !EmailTakenByOther(t, req.email.value, self)
  {
    var fullname := if Filled(req.fullname) then [] else [FullnameRequired];
    var email :=
      if !Filled(req.email) then [EmailRequired]
      else if !isEmail(req.email.value) then [EmailFormat]
      else if EmailTakenByOther(t, req.email.value, self) then [EmailUnique]
      else [];
    var role := if Filled(req.role) then [] else [RoleRequired];
    fullname + email + role
  }

  /** Submitting the record's own current e-mail never fails uniqueness:
      the rule ignores the record being updated. */
  lemma OwnEmailIsNotTaken(t: Table, self: int, req: UpdateRequest, isEmail: string -> bool)
    requires EmailsUnique(t) && self in t
    requires req.email == Given(t[self].email)
    ensures EmailUnique !in Violations(t, self, req, isEmail)
  {
  }

  /** Submitting another account's well-formed e-mail always fails uniqueness. */
  lemma OtherEmailIsTaken(t: Table, self: int, other: int, req: UpdateRequest, isEmail: string -> bool)
    requires other in t && other != self
    requires req.email == Given(t[other].email) && t[other].email != "" && isEmail(t[other].email)
    ensures EmailUnique in Violations(t, self, req, isEmail)
    ensures Violations(t, self, req, isEmail) != []
  {
  }

  /** The value a column takes from a request field: the submitted one when
      the field carries a value, else the stored one. */
  function Provided(v: Field, stored: string): (r: string)
  {
    if v.Given? then v.value else stored
  }

  /** The request sends null for one of the columns that cannot hold it
      (avatar, password), so the write is refused by the database. */
  predicate WritesNull(req: UpdateRequest)
  {
    req.avatar.Null? || req.password.Null?
  }

  /** `$user->update($request->all())`: every field the request carries
      replaces the stored column as given; the password is not hashed. */
  function Merge(a: Account, req: UpdateRequest): (m: Account)
  {
    a.(fullname := Provided(req.fullname, a.fullname),
       email := Provided(req.email, a.email),
       role := Provided(req.role, a.role),
       avatar := Provided(req.avatar, a.avatar),
       password := Provided(req.password, a.password))
  }

  /** A merge after successful validation writes exactly the validated
      fullname, email and role, stores a submitted password verbatim, keeps
      the avatar and the password hash only when the request omits them, and
      leaves the record with an e-mail no other account holds. */
  lemma MergeAfterValidation(t: Table, self: int, req: UpdateRequest, isEmail: string -> bool)
    requires self in t && Violations(t, self, req, isEmail) == []
    ensures var m := Merge(t[self], req);
      && m.fullname == req.fullname.value && m.email == req.email.value && m.role == req.role.value
      && (req.password.Given? ==> m.password == req.password.value)
      && (req.password.Absent? ==> m.password == t[self].password)
      && (req.avatar.Given? ==> m.avatar == req.avatar.value)
      && (req.avatar.Absent? ==> m.avatar == t[self].avatar)
      && !EmailTakenByOther(t, m.email, self)
  {
  }

  /** Update can set any account's stored password to any non-empty string
      (an empty one arrives as null and the write fails): resubmitting
      the record's own fields with a password passes every rule, and the
      merge stores that password as sent, unhashed and without checking the
      old one. */
  lemma UpdateCanSetAnyPassword(t: Table, self: int, p: string, isEmail: string -> bool)
    requires EmailsUnique(t) && self in t
    requires t[self].fullname != "" && t[self].email != "" && t[self].role != ""
    requires isEmail(t[self].email) && p != ""
    ensures var req := UpdateRequest(Given(t[self].fullname), Given(t[self].email), Given(t[self].role), Absent, Given(p));
      && Violations(t, self, req, isEmail) == []
      && !WritesNull(req)
      && Merge(t[self], req) == t[self].(password := p)
  {
  }
}
