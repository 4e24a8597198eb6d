/** The branch selection of `changePassword`: which of its four paths a
    request takes, from the caller's role and id and the request's user_id. */
module Authorization {
  import opened Accounts

  datatype Branch =
    | AdminOverride   // caller is ADMIN and user_id is non-empty: no old-password check
    | SelfById        // user_id is the caller's own id: old password checked
    | Denied          // any other non-empty user_id: 403
    | SelfImplicit    // user_id empty: the caller's own password, old password checked

  /** The if / else-if chain of changePassword, with its third condition as written. */
  function Route(role: string, callerId: int, userId: Option<int>, roleAdmin: string): (b: Branch)
    ensures b == AdminOverride <==> role == roleAdmin && !IsEmptyId(userId)
    ensures b == SelfById <==> role != roleAdmin && !IsEmptyId(userId) && userId.value == callerId
    ensures b == Denied <==> role != roleAdmin && !IsEmptyId(userId) && userId.value != callerId
    ensures b == SelfImplicit <==> IsEmptyId(userId)
  {
    if role == roleAdmin && !IsEmptyId(userId) then AdminOverride
    else if !IsEmptyId(userId) && callerId == userId.GetOr(0) then SelfById
    else if (!IsEmptyId(userId) && role != roleAdmin) || (!IsEmptyId(userId) && callerId != userId.GetOr(0)) then Denied
    else SelfImplicit
  }

  /** The account whose password the branch may change: the requested user
      on the admin override, otherwise the caller. */
  function Subject(b: Branch, callerId: int, userId: Option<int>): (id: int)
  {
    if b == AdminOverride then userId.GetOr(callerId) else callerId
  }

  /** An admin who names their own id takes the override, not the
      self-service path: the old password is not checked. */
  lemma AdminNamingSelfOverrides(role: string, callerId: int, roleAdmin: string)
    requires role == roleAdmin && callerId != 0
    ensures Route(role, callerId, Some(callerId), roleAdmin) == AdminOverride
  {
  }

  /** A user_id of 0 is `empty` in PHP: the request behaves as if it named no user. */
  lemma ZeroIdIsNoId(role: string, callerId: int, roleAdmin: string)
    ensures Route(role, callerId, Some(0), roleAdmin) == Route(role, callerId, None, roleAdmin) == SelfImplicit
  {
  }

  /** A non-admin naming any other account is refused, whatever the request carries. */
  lemma NonAdminNamingOtherIsDenied(role: string, callerId: int, target: int, roleAdmin: string)
    requires role != roleAdmin && target != 0 && target != callerId
    ensures Route(role, callerId, Some(target), roleAdmin) == Denied
  {
  }
}
