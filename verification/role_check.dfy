/**
 * The role and ownership guards: pure decisions from the authenticated
 * identity (if any) to "call next", 401 or 403.
 */
module RoleCheck {
  import opened Wrappers
  import opened Js
  import opened Roles

  /** `req.user` as attached by the authentication middleware. */
  datatype Identity = Identity(id: string, role: string)

  /** What a guard does with the request: call `next`, answer 401, or answer 403. */
  datatype Decision = Allow | Unauthenticated | Forbidden

  /**
   * One argument of `requireRole(...allowedRoles)`: a role name, or an array
   * whose items may themselves be names or arrays.
   */
  datatype RoleArg = Name(role: string) | Group(items: seq<RoleArg>)

  /** The role names written directly as arguments: `requireRole(a, b)`. */
  function Names(roles: seq<string>): (r: seq<RoleArg>)
    ensures |r| == |roles|
    ensures forall i :: 0 <= i < |roles| ==> r[i] == Name(roles[i])
  {
    seq(|roles|, i requires 0 <= i < |roles| => Name(roles[i]))
  }

  /** Whether `x` is one of the elements `allowedRoles.flat()` produces from `args`. */
  ghost predicate InFlattening(args: seq<RoleArg>, x: RoleArg)
  {
    exists i :: 0 <= i < |args| && ((args[i].Name? && args[i] == x) || (args[i].Group? && x in args[i].items))
  }

  /**
   * `allowedRoles.flat()`: arrays among the arguments are spliced in, one
   * level deep; deeper arrays stay nested.
   */
  function Flat(args: seq<RoleArg>): (r: seq<RoleArg>)
    ensures forall x :: x in r <==> InFlattening(args, x)
  {
    if |args| == 0 then []
    else
      var rest := Flat(args[1..]);
      assert forall x :: InFlattening(args[1..], x) ==> InFlattening(args, x) by {
        forall x | InFlattening(args[1..], x) ensures InFlattening(args, x) {
          var i :| 0 <= i < |args[1..]| && ((args[1..][i].Name? && args[1..][i] == x) || (args[1..][i].Group? && x in args[1..][i].items));
          assert args[i + 1] == args[1..][i];
        }
      }
      assert forall x :: (InFlattening(args, x) && !(args[0].Name? && args[0] == x) && !(args[0].Group? && x in args[0].items))
                         ==> InFlattening(args[1..], x) by {
        forall x | InFlattening(args, x) && !(args[0].Name? && args[0] == x) && !(args[0].Group? && x in args[0].items)
          ensures InFlattening(args[1..], x)
        {
          var i :| 0 <= i < |args| && ((args[i].Name? && args[i] == x) || (args[i].Group? && x in args[i].items));
          assert i != 0;
          assert args[1..][i - 1] == args[i];
        }
      }
      match args[0]
      case Name(_) => [args[0]] + rest
      case Group(items) => items + rest
  }

  /** Splicing distributes over concatenation of the argument list. */
  lemma {:induction false} FlatAppend(a: seq<RoleArg>, b: seq<RoleArg>)
    ensures Flat(a + b) == Flat(a) + Flat(b)
    decreases |a|
  {
    if |a| == 0 {
      assert a + b == b;
    } else {
      assert (a + b)[0] == a[0];
      assert (a + b)[1..] == a[1..] + b;
      FlatAppend(a[1..], b);
    }
  }

  /** Role names passed directly are left as they are by `.flat()`. */
  lemma {:induction false} FlatOfNames(roles: seq<string>)
    ensures Flat(Names(roles)) == Names(roles)
    decreases |roles|
  {
    if |roles| > 0 {
      assert Names(roles)[1..] == Names(roles[1..]);
      FlatOfNames(roles[1..]);
    }
  }

  /** The allowed-role relation read directly off the arguments. */
  ghost predicate RoleAllowed(args: seq<RoleArg>, role: string)
  {
    exists i :: 0 <= i < |args| && (args[i] == Name(role) || (args[i].Group? && Name(role) in args[i].items))
  }

  /**
   * `requireRole(...args)` applied to a request: 401 without a user, otherwise
   * allowed exactly when the user's role is one of the flattened names.
   */
  function RequireRole(args: seq<RoleArg>, user: Option<Identity>): (d: Decision)
    ensures user.None? <==> d == Unauthenticated
    ensures d == Allow <==> user.Some? && RoleAllowed(args, user.value.role)
    ensures d == Forbidden <==> user.Some? && !RoleAllowed(args, user.value.role)
  {
    if user.None? then Unauthenticated
    else if Name(user.value.role) in Flat(args) then Allow
    else
      assert !InFlattening(args, Name(user.value.role));
      Forbidden
  }

  /** `requireRole(a, b)` and `requireRole([a, b])` decide identically (any number of names). */
  lemma SpreadAndArrayAgree(roles: seq<string>, user: Option<Identity>)
    ensures RequireRole(Names(roles), user) == RequireRole([Group(Names(roles))], user)
  {
    FlatOfNames(roles);
  }

  /** An array nested two levels deep is not spliced, so its names never match. */
  lemma NestedTwiceNeverMatches(r: string, id: string)
    ensures RequireRole([Group([Group([Name(r)])])], Some(Identity(id, r))) == Forbidden
  {
  }

  /** `requireAdmin`. */
  function RequireAdmin(user: Option<Identity>): (d: Decision)
    ensures user.None? <==> d == Unauthenticated
    ensures d == Allow <==> user.Some? && user.value.role == ADMIN
  {
    var d := RequireRole([Name(ADMIN)], user);
    assert user.Some? ==> (RoleAllowed([Name(ADMIN)], user.value.role) <==> user.value.role == ADMIN);
    d
  }

  /** `requirePlanner`. */
  function RequirePlanner(user: Option<Identity>): (d: Decision)
    ensures user.None? <==> d == Unauthenticated
    ensures d == Allow <==> user.Some? && user.value.role == PLANNER
  {
    var d := RequireRole([Name(PLANNER)], user);
    assert user.Some? ==> (RoleAllowed([Name(PLANNER)], user.value.role) <==> user.value.role == PLANNER);
    d
  }

  /** `requireVendor`. */
  function RequireVendor(user: Option<Identity>): (d: Decision)
    ensures user.None? <==> d == Unauthenticated
    ensures d == Allow <==> user.Some? && user.value.role == VENDOR
  {
    var d := RequireRole([Name(VENDOR)], user);
    assert user.Some? ==> (RoleAllowed([Name(VENDOR)], user.value.role) <==> user.value.role == VENDOR);
    d
  }

  /** `requirePlannerOrAdmin`: exactly the planner and admin roles pass. */
  function RequirePlannerOrAdmin(user: Option<Identity>): (d: Decision)
    ensures user.None? <==> d == Unauthenticated
    ensures d == Allow <==> user.Some? && user.value.role in {PLANNER, ADMIN}
  {
    var args := [Name(PLANNER), Name(ADMIN)];
    var d := RequireRole(args, user);
    assert user.Some? ==> (RoleAllowed(args, user.value.role) <==> user.value.role in {PLANNER, ADMIN}) by {
      if user.Some? && user.value.role in {PLANNER, ADMIN} {
        assert args[0] == Name(user.value.role) || args[1] == Name(user.value.role);
      }
    }
    d
  }

  /** `requireVendorOrPlanner`: exactly the vendor and planner roles pass. */
  function RequireVendorOrPlanner(user: Option<Identity>): (d: Decision)
    ensures user.None? <==> d == Unauthenticated
    ensures d == Allow <==> user.Some? && user.value.role in {VENDOR, PLANNER}
  {
    var args := [Name(VENDOR), Name(PLANNER)];
    var d := RequireRole(args, user);
    assert user.Some? ==> (RoleAllowed(args, user.value.role) <==> user.value.role in {VENDOR, PLANNER}) by {
      if user.Some? && user.value.role in {VENDOR, PLANNER} {
        assert args[0] == Name(user.value.role) || args[1] == Name(user.value.role);
      }
    }
    d
  }

  /** The default name of the owner parameter of `requireOwnerOrAdmin`. */
  const DEFAULT_OWNER_PARAM: string := "userId"

  /**
   * `req.params[name] || req.body[name]`: the route parameter (always a string
   * when present) unless it is missing or empty, then the body property.
   */
  function RequestedUserId(name: string, params: map<string, string>, body: map<string, JsValue>): (v: JsValue)
    ensures name in params && params[name] != "" ==> v == Str(params[name])
    ensures !(name in params && params[name] != "") ==> v == Property(body, name)
  {
    var fromParams := if name in params then Str(params[name]) else Undefined;
    Or(fromParams, Property(body, name))
  }

  /**
   * `requireOwnerOrAdmin(name)` applied to a request: 401 without a user,
   * otherwise allowed when the requested id is strictly the caller's id or
   * the caller is an admin, and 403 otherwise.
   */
  function RequireOwnerOrAdmin(name: string, params: map<string, string>, body: map<string, JsValue>,
                               user: Option<Identity>): (d: Decision)
    ensures user.None? <==> d == Unauthenticated
    ensures d == Allow <==>
              user.Some? && (StrictEqualsString(RequestedUserId(name, params, body), user.value.id) || user.value.role == ADMIN)
  {
    if user.None? then Unauthenticated
    else
      var requested := RequestedUserId(name, params, body);
      var isAdmin := user.value.role == ADMIN;
      if StrictEqualsString(requested, user.value.id) || isAdmin then Allow else Forbidden
  }

  /** An admin passes the ownership guard whatever is requested, even nothing. */
  lemma AdminPassesOwnership(name: string, params: map<string, string>, body: map<string, JsValue>, id: string)
    ensures RequireOwnerOrAdmin(name, params, body, Some(Identity(id, ADMIN))) == Allow
  {
  }

  /**
   * With the default parameter name, a caller whose own id is the `userId`
   * route parameter passes whatever its role and whatever the body holds.
   */
  lemma OwnerPassesByDefaultParam(id: string, role: string, body: map<string, JsValue>)
    requires id != ""
    ensures RequireOwnerOrAdmin(DEFAULT_OWNER_PARAM, map[DEFAULT_OWNER_PARAM := id], body, Some(Identity(id, role))) == Allow
  {
  }

  /** A non-admin is refused when the id comes from nowhere. */
  lemma NonAdminNeedsAnId(name: string, id: string, role: string)
    requires role != ADMIN
    ensures RequireOwnerOrAdmin(name, map[], map[], Some(Identity(id, role))) == Forbidden
  {
  }
}
