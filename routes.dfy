/**
 * The three routers as static tables: for each endpoint its verb, its path,
 * the guards run before the handler, and the handler. A request is matched
 * against the table in registration order and the first route that fits
 * handles it; its guards run left to right, `authenticate` attaching the user
 * and `authorize` testing that user's role, and any guard may answer instead
 * of passing the request on.
 */
module Routes {
  import opened Wrappers
  import opened Text
  import opened Types
  import opened AuthMiddleware
  import ProductSchema
  import ProductController

  datatype Verb = Get | Post | Put | Delete

  /** A path segment of a route: a literal, or a `:name` parameter. */
  datatype Segment = Lit(text: string) | Param(name: string)

  datatype Guard = RequireAuthentication | RequireRole(roles: seq<Role>)

  datatype Handler =
    | Register | Login | GetProfile
    | CreateOrder | GetOrders | GetAllOrders | GetOrderById | UpdateOrderStatus
    | GetAllProducts | GetProductById | CreateProduct | UpdateProduct | DeleteProduct | AddReview

  datatype Route = Route(verb: Verb, path: seq<Segment>, guards: seq<Guard>, handler: Handler)

  const Authenticate: seq<Guard> := [RequireAuthentication]
  const AdminOnly: seq<Guard> := [RequireAuthentication, RequireRole([Admin])]

  /** The auth router, in registration order. */
  const AuthRoutes: seq<Route> := [
    Route(Post, [Lit("register")], [], Register),
    Route(Post, [Lit("login")], [], Login),
    Route(Get, [Lit("profile")], Authenticate, GetProfile)
  ]

  /** The order router, in registration order: `/all` comes before `/:id`. */
  const OrderRoutes: seq<Route> := [
    Route(Post, [], Authenticate, CreateOrder),
    Route(Get, [], Authenticate, GetOrders),
    Route(Get, [Lit("all")], AdminOnly, GetAllOrders),
    Route(Get, [Param("id")], Authenticate, GetOrderById),
    Route(Put, [Param("id"), Lit("status")], AdminOnly, UpdateOrderStatus)
  ]

  /** The product router, in registration order. */
  const ProductRoutes: seq<Route> := [
    Route(Get, [], [], GetAllProducts),
    Route(Get, [Param("id")], [], GetProductById),
    Route(Post, [], AdminOnly, CreateProduct),
    Route(Put, [Param("id")], AdminOnly, UpdateProduct),
    Route(Delete, [Param("id")], AdminOnly, DeleteProduct),
    Route(Post, [Param("id"), Lit("reviews")], Authenticate, AddReview)
  ]

  /**
   * One segment of the request path against one of the route: a literal
   * matches ignoring ASCII case (routers are case-insensitive by default), a
   * parameter matches any non-empty segment.
   */
  predicate SegmentMatches(pattern: Segment, segment: string) {
    match pattern
    case Lit(text) => Lower(segment) == Lower(text)
    case Param(_) => segment != ""
  }

  predicate PathMatches(pattern: seq<Segment>, path: seq<string>) {
    |pattern| == |path| && forall k :: 0 <= k < |path| ==> SegmentMatches(pattern[k], path[k])
  }

  predicate Fits(r: Route, verb: Verb, path: seq<string>) {
    r.verb == verb && PathMatches(r.path, path)
  }

  /** The first route, in table order, that fits the request. */
  function Dispatch(routes: seq<Route>, verb: Verb, path: seq<string>): (r: Option<nat>)
    ensures r.Some? ==> r.value < |routes| && Fits(routes[r.value], verb, path)
                        && forall j :: 0 <= j < r.value ==> !Fits(routes[j], verb, path)
    ensures r.None? ==> forall j :: 0 <= j < |routes| ==> !Fits(routes[j], verb, path)
  {
    if routes == [] then None
    else if Fits(routes[0], verb, path) then Some(0)
    else
      var rest := Dispatch(routes[1..], verb, path);
      assert forall j :: 1 <= j < |routes| ==> routes[j] == routes[1..][j - 1];
      if rest.None? then None else Some(rest.value + 1)
  }

  /** What the guards leave: the request goes on with the attached user, or a guard answered. */
  datatype GuardOutcome = Passed(user: Option<Principal>) | Stopped(status: int, message: string)

  /** The guards of a route, run left to right on the request. */
  function RunGuards(guards: seq<Guard>, header: Option<string>, verify: string -> Option<UserId>,
                     users: map<UserId, User>, user: Option<Principal>): GuardOutcome
  {
    if guards == [] then Passed(user)
    else match guards[0]
      case RequireAuthentication =>
        (match AuthenticateDecision(header, verify, users)
         case Continue(p) => RunGuards(guards[1..], header, verify, users, Some(p))
         case Reject(status, message) => Stopped(status, message))
      case RequireRole(roles) =>
        (match AuthorizeDecision(roles, user)
         case Allowed => RunGuards(guards[1..], header, verify, users, user)
         case Denied(status, message) => Stopped(status, message))
  }

  // ----- What each guard list does -----

  /** No guard: every request reaches the handler, as it came. */
  lemma NoGuardsPass(header: Option<string>, verify: string -> Option<UserId>, users: map<UserId, User>)
    ensures RunGuards([], header, verify, users, None) == Passed(None)
  {
  }

  /**
   * `authenticate` alone: the request goes on exactly when authentication
   * succeeds, carrying the authenticated user whatever its role; otherwise
   * the answer is a 401.
   */
  lemma AuthenticatePasses(header: Option<string>, verify: string -> Option<UserId>, users: map<UserId, User>)
    ensures var o := RunGuards(Authenticate, header, verify, users, None);
            var d := AuthenticateDecision(header, verify, users);
            && (o.Passed? <==> d.Continue?)
            && (o.Passed? ==> o.user == Some(d.user))
            && (o.Stopped? ==> o.status == 401)
  {
    assert Authenticate[1..] == [];
  }

  /**
   * `authenticate` then `authorize('admin')`: the request goes on exactly
   * when authentication succeeds and the user is an admin; an unauthenticated
   * request is a 401 and an authenticated non-admin a 403.
   */
  lemma AdminOnlyPasses(header: Option<string>, verify: string -> Option<UserId>, users: map<UserId, User>)
    ensures var o := RunGuards(AdminOnly, header, verify, users, None);
            var d := AuthenticateDecision(header, verify, users);
            && (o.Passed? <==> d.Continue? && d.user.role == Admin)
            && (o.Passed? ==> o.user == Some(d.user))
            && (d.Reject? ==> o == Stopped(d.status, d.message) && o.status == 401)
            && (d.Continue? && d.user.role != Admin ==> o.Stopped? && o.status == 403)
  {
    var d := AuthenticateDecision(header, verify, users);
    var rest: seq<Guard> := [RequireRole([Admin])];
    assert AdminOnly[1..] == rest && rest[1..] == [];
    if d.Continue? {
      assert RunGuards(AdminOnly, header, verify, users, None) == RunGuards(rest, header, verify, users, Some(d.user));
      if d.user.role == Admin {
        assert RunGuards(rest, header, verify, users, Some(d.user)) == Passed(Some(d.user));
      } else {
        assert RunGuards(rest, header, verify, users, Some(d.user)).Stopped?;
      }
    }
  }

  // ----- The order router -----

  /** Every order endpoint starts with `authenticate`. */
  lemma OrderRoutesAuthenticate()
    ensures forall k :: 0 <= k < |OrderRoutes| ==> |OrderRoutes[k].guards| >= 1 && OrderRoutes[k].guards[0] == RequireAuthentication
  {
  }

  /**
   * Whatever the request, reaching an order handler needs a successful
   * authentication, and the handler sees the authenticated user.
   */
  lemma OrderHandlersSeeAuthenticatedUser(k: nat, header: Option<string>, verify: string -> Option<UserId>,
                                          users: map<UserId, User>)
    requires k < |OrderRoutes|
    ensures var o := RunGuards(OrderRoutes[k].guards, header, verify, users, None);
            var d := AuthenticateDecision(header, verify, users);
            (o.Passed? ==> d.Continue? && o.user == Some(d.user)) && (d.Reject? ==> o.Stopped? && o.status == 401)
  {
    OrderRoleGuards();
    if OrderRoutes[k].guards == AdminOnly {
      AdminOnlyPasses(header, verify, users);
    } else {
      AuthenticatePasses(header, verify, users);
    }
  }

  /** Listing all orders and updating a status are for admins only; the other order routes take any role. */
  lemma OrderRoleGuards()
    ensures forall k :: 0 <= k < |OrderRoutes| ==>
              (OrderRoutes[k].guards == AdminOnly <==> OrderRoutes[k].handler in {GetAllOrders, UpdateOrderStatus})
    ensures forall k :: 0 <= k < |OrderRoutes| && OrderRoutes[k].handler !in {GetAllOrders, UpdateOrderStatus} ==>
              OrderRoutes[k].guards == Authenticate
  {
  }

  /** `GET /orders/:id` has no role guard: any authenticated user reaches the handler, which checks ownership. */
  lemma OrderByIdAnyRole(id: string, header: Option<string>, verify: string -> Option<UserId>, users: map<UserId, User>)
    requires id != "" && Lower(id) != "all"
    ensures Dispatch(OrderRoutes, Get, [id]) == Some(3) && OrderRoutes[3].handler == GetOrderById
    ensures (RunGuards(OrderRoutes[3].guards, header, verify, users, None).Passed? <==>
              AuthenticateDecision(header, verify, users).Continue?)
  {
    assert !Fits(OrderRoutes[0], Get, [id]) && !Fits(OrderRoutes[1], Get, [id]);
    assert Lower("all") == "all";
    assert !SegmentMatches(Lit("all"), id);
    assert OrderRoutes[2].path == [Lit("all")] && [id][0] == id;
    assert !PathMatches(OrderRoutes[2].path, [id]);
    assert !Fits(OrderRoutes[2], Get, [id]);
    assert Fits(OrderRoutes[3], Get, [id]);
    AuthenticatePasses(header, verify, users);
  }

  /**
   * `/all` is registered before `/:id`, so `GET /orders/all` (in any letter
   * case) goes to `getAllOrders` and never to `getOrderById`.
   */
  lemma AllOrdersShadowsId(segment: string)
    requires Lower(segment) == "all"
    ensures Dispatch(OrderRoutes, Get, [segment]) == Some(2)
    ensures OrderRoutes[2].handler == GetAllOrders && OrderRoutes[3].handler == GetOrderById
  {
    assert Lower("all") == "all";
    assert |segment| == 3;
    assert !Fits(OrderRoutes[0], Get, [segment]) && !Fits(OrderRoutes[1], Get, [segment]);
    assert Fits(OrderRoutes[2], Get, [segment]);
  }

  // ----- The product router -----

  /** Listing products and fetching one are unguarded: every request reaches the handler. */
  lemma ProductReadsUnguarded(header: Option<string>, verify: string -> Option<UserId>, users: map<UserId, User>)
    ensures forall k :: 0 <= k < |ProductRoutes| && ProductRoutes[k].verb == Get ==> ProductRoutes[k].guards == []
    ensures RunGuards(ProductRoutes[0].guards, header, verify, users, None).Passed?
    ensures RunGuards(ProductRoutes[1].guards, header, verify, users, None).Passed?
  {
  }

  /** Creating, updating and deleting a product need `authenticate` then the admin role. */
  lemma ProductWritesAdminOnly()
    ensures forall k :: 0 <= k < |ProductRoutes| ==>
              (ProductRoutes[k].guards == AdminOnly <==> ProductRoutes[k].handler in {CreateProduct, UpdateProduct, DeleteProduct})
  {
  }

  /** Posting a review needs authentication only, for any role. */
  lemma ReviewsNeedAuthenticationOnly(header: Option<string>, verify: string -> Option<UserId>, users: map<UserId, User>)
    ensures ProductRoutes[5].handler == AddReview && ProductRoutes[5].guards == Authenticate
    ensures (RunGuards(ProductRoutes[5].guards, header, verify, users, None).Passed? <==>
              AuthenticateDecision(header, verify, users).Continue?)
  {
    AuthenticatePasses(header, verify, users);
  }

  /**
   * Through its route, `createProduct` only ever sees an admin, so its own
   * 401 for a non-admin requester cannot be reached.
   */
  lemma CreateProductRefusalUnreachable(header: Option<string>, verify: string -> Option<UserId>,
                                        users: map<UserId, User>, input: ProductSchema.ProductInput,
                                        id: ProductId, now: Timestamp)
    ensures ProductRoutes[2].handler == CreateProduct
    ensures var o := RunGuards(ProductRoutes[2].guards, header, verify, users, None);
            o.Passed? ==> && o.user.Some? && o.user.value.role == Admin
                          && ProductController.CreateProductOutcome(o.user.value, input, id, now)
                               != Failure(ProductController.NotPermitted)
  {
    AdminOnlyPasses(header, verify, users);
  }

  // ----- The auth router -----

  /** Register and login are unguarded; the profile needs `authenticate`; no auth route tests a role. */
  lemma AuthRouteGuards()
    ensures AuthRoutes[0].handler == Register && AuthRoutes[0].guards == []
    ensures AuthRoutes[1].handler == Login && AuthRoutes[1].guards == []
    ensures AuthRoutes[2].handler == GetProfile && AuthRoutes[2].guards == Authenticate
    ensures forall k, g :: 0 <= k < |AuthRoutes| && g in AuthRoutes[k].guards ==> !g.RequireRole?
  {
  }

  /** Every route of the three tables maps to its own handler: no two routes share one. */
  lemma HandlersDistinct()
    ensures forall i, j :: 0 <= i < j < |AuthRoutes + OrderRoutes + ProductRoutes| ==>
              (AuthRoutes + OrderRoutes + ProductRoutes)[i].handler != (AuthRoutes + OrderRoutes + ProductRoutes)[j].handler
  {
  }
}
