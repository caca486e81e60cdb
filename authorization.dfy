/**
 * Role checks run after authentication
 * (server/src/middleware/authorization.ts).
 */
module Authorization {
  import opened Common
  import opened Types
  import opened ErrorHandler
  import Auth

  /** `requireRole(...allowedRoles)` applied to a request's role: the error for `next`, None to proceed. */
  function RequireRole(allowedRoles: seq<Role>, userRole: Option<Role>): (r: Option<AppError>)
    ensures userRole.None? ==> r == Some(NewAppError(401, MissingAuthToken))
    ensures userRole.Some? && userRole.value !in allowedRoles ==> r == Some(NewAppError(403, InsufficientPermissions))
    ensures r == None <==> userRole.Some? && userRole.value in allowedRoles
  {
    if userRole.None? then Some(NewAppError(401, MissingAuthToken))
    else if userRole.value !in allowedRoles then Some(NewAppError(403, InsufficientPermissions))
    else None
  }

  /** `requireQuizManager`: only a quiz manager proceeds. */
  function RequireQuizManager(userRole: Option<Role>): (r: Option<AppError>)
    ensures r == None <==> userRole == Some(QuizManager)
    ensures userRole == Some(QuizTaker) ==> r == Some(NewAppError(403, InsufficientPermissions))
  {
    RequireRole([QuizManager], userRole)
  }

  /** `requireQuizTaker`: only a quiz taker proceeds. */
  function RequireQuizTaker(userRole: Option<Role>): (r: Option<AppError>)
    ensures r == None <==> userRole == Some(QuizTaker)
    ensures userRole == Some(QuizManager) ==> r == Some(NewAppError(403, InsufficientPermissions))
  {
    RequireRole([QuizTaker], userRole)
  }

  /** `requireAuthenticated`: any role proceeds, so only a missing role is refused. */
  function RequireAuthenticated(userRole: Option<Role>): (r: Option<AppError>)
    ensures r == None <==> userRole.Some?
    ensures r != None ==> r == Some(NewAppError(401, MissingAuthToken))
  {
    assert userRole.Some? ==> userRole.value in [QuizManager, QuizTaker] by {
      if userRole.Some? { assert userRole.value == QuizManager || userRole.value == QuizTaker; }
    }
    RequireRole([QuizManager, QuizTaker], userRole)
  }

  /** Which roles each ready-made check admits. */
  lemma InstancesAdmit(userRole: Option<Role>)
    ensures RequireQuizManager(userRole) == None <==> userRole == Some(QuizManager)
    ensures RequireQuizTaker(userRole) == None <==> userRole == Some(QuizTaker)
    ensures RequireAuthenticated(userRole) == None <==> userRole.Some?
  {
    if userRole.Some? {
      assert userRole.value == QuizManager || userRole.value == QuizTaker;
    }
  }

  /** Every refusal of a role check is sent without error text: only the status tells 401 from 403. */
  lemma RefusalsCarryNoText(allowedRoles: seq<Role>, userRole: Option<Role>, name: string)
    requires RequireRole(allowedRoles, userRole).Some?
    ensures HandleError(Thrown(name, RequireRole(allowedRoles, userRole))).body == ErrorBody(false, Undefined)
  {
  }

  /** The missing role is reported before any permission check: even an empty allow-list answers 401. */
  lemma UnauthenticatedBeforeForbidden(allowedRoles: seq<Role>)
    ensures RequireRole(allowedRoles, None).value.statusCode == 401
    ensures RequireRole([], Some(QuizTaker)).value.statusCode == 403
  {
  }

  /**
   * A route guarded by `authMiddleware` and then a role check. The
   * authentication step sets only `req.userId`, so on a request that arrives
   * without a role every such route answers 401, whatever the token.
   */
  method GuardedRoute(req: Auth.Request, users: map<Id, User>, secret: string, now: int, allowedRoles: seq<Role>)
    returns (err: Option<AppError>)
    modifies req`userId
    ensures req.userRole == old(req.userRole)
    ensures old(req.userRole).None? ==> err.Some? && err.value.statusCode == 401
  {
    err := Auth.AuthMiddleware(req, users, secret, now);
    if err.Some? {
      return;
    }
    err := RequireRole(allowedRoles, req.userRole);
  }
}
