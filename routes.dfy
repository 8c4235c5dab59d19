/** The three routers (routes/carRoutes.ts, routes/userRoutes.ts,
    routes/maintenanceRoutes.ts) and how Express runs a request through one:
    the router-level `authenticateToken` first, then the first route whose
    method and path match, then that route's body validator if it has one,
    and finally its handler. */
module Routes {
  import opened Json
  import opened Text
  import opened Zod
  import opened Gate

  datatype Verb = GET | POST | PUT | DELETE

  /** A literal path such as `/profile`, or `/:id`. */
  datatype Pattern = Literal(path: string) | IdParam

  datatype Handler =
    | GetCars | CreateCar | GetCarById | UpdateCar | DeleteCar
    | GetMaintenance | CreateMaintenance | GetMaintenanceById | UpdateMaintenance | DeleteMaintenance
    | GetProfile | UpdateProfile | ChangePassword

  datatype Route = Route(verb: Verb, pattern: Pattern, validation: Option<Shape>, handler: Handler)

  /** A router: whether `router.use(authenticateToken)` is applied, and the
      routes in registration order. */
  datatype Router = Router(authenticated: bool, routes: seq<Route>)

  /** The `req.params` a pattern yields for a request path, if it matches. */
  function MatchPath(p: Pattern, path: string): (m: Option<Object>)
    ensures p.Literal? ==> (m.Some? <==> path == p.path)
    ensures p.IdParam? && m.Some? ==>
      ("id" in m.value && m.value["id"].JStr? && path == "/" + m.value["id"].s && m.value["id"].s != "")
  {
    match p
    case Literal(q) => if path == q then Some(map[]) else None
    case IdParam =>
      if |path| >= 2 && path[0] == '/' && '/' !in path[1..]
      then
        assert path == "/" + path[1..];
        Some(map["id" := JStr(path[1..])])
      else None
  }

  /** The first route, in registration order, that matches, with its index. */
  function FindRoute(routes: seq<Route>, verb: Verb, path: string): (r: Option<(nat, Object)>)
    ensures r.Some? ==>
      (r.value.0 < |routes| && routes[r.value.0].verb == verb
       && MatchPath(routes[r.value.0].pattern, path) == Some(r.value.1))
    ensures r.Some? ==> forall i :: 0 <= i < r.value.0 ==>
      !(routes[i].verb == verb && MatchPath(routes[i].pattern, path).Some?)
    ensures r.None? ==> forall i :: 0 <= i < |routes| ==>
      !(routes[i].verb == verb && MatchPath(routes[i].pattern, path).Some?)
  {
    if routes == [] then None
    else
      var m := MatchPath(routes[0].pattern, path);
      if routes[0].verb == verb && m.Some? then Some((0, m.value))
      else
        var rest := FindRoute(routes[1..], verb, path);
        if rest.None? then None else Some((rest.value.0 + 1, rest.value.1))
  }

  /** The result of running a request through a router: the handler that
      got control, if any. */
  method Dispatch(ex: Exchange, router: Router, verb: Verb, path: string,
                  o: Oracles, verify: string -> Option<Claims>) returns (h: Option<Handler>)
    modifies ex
    ensures router.authenticated && ExtractToken(old(ex.authorization)).None? ==>
      h.None? && ex.status == Some(401)
    ensures (router.authenticated && ExtractToken(old(ex.authorization)).Some?
             && verify(ExtractToken(old(ex.authorization)).value).None?) ==>
      h.None? && ex.status == Some(403)
    ensures h.Some? && router.authenticated ==>
      ExtractToken(old(ex.authorization)).Some?
      && ex.user == verify(ExtractToken(old(ex.authorization)).value) && ex.user.Some?
    ensures h.Some? ==>
      var found := FindRoute(router.routes, verb, path);
      && found.Some?
      && h.value == router.routes[found.value.0].handler
      && ex.params == JObj(found.value.1)
      && (router.routes[found.value.0].validation.None? ==> ex.body == old(ex.body))
      && (router.routes[found.value.0].validation.Some? ==>
            var res := ParseObject(o, router.routes[found.value.0].validation.value, old(ex.body));
            res.Success? && ex.body == res.data)
    ensures h.None? && FindRoute(router.routes, verb, path).Some? ==> ex.status.Some?
    ensures var t := ExtractToken(old(ex.authorization));
      var found := FindRoute(router.routes, verb, path);
      ((!router.authenticated || (t.Some? && verify(t.value).Some?)) && found.Some?) ==>
        if router.routes[found.value.0].validation.None?
           || ParseObject(o, router.routes[found.value.0].validation.value, old(ex.body)).Success?
        then h.Some?
        else h.None? && ex.status == Some(400)
  {
    if router.authenticated {
      var before := ex.nextCalls;
      AuthenticateToken(ex, verify);
      if ex.nextCalls == before {
        return None;
      }
    }
    assert ex.status == old(ex.status);
    var found := FindRoute(router.routes, verb, path);
    if found.None? {
      return None;
    }
    var route := router.routes[found.value.0];
    ex.params := JObj(found.value.1);
    if route.validation.Some? {
      var shape := route.validation.value;
      var before := ex.nextCalls;
      ValidateBody(ex, v => ParseObject(o, shape, v));
      if ex.nextCalls == before {
        return None;
      }
    }
    return Some(route.handler);
  }

  /** carRoutes.ts. */
  const CarRouter: Router := Router(true, [
    Route(GET, Literal("/"), None, GetCars),
    Route(POST, Literal("/"), Some(CreateCarShape), CreateCar),
    Route(GET, IdParam, None, GetCarById),
    Route(PUT, IdParam, Some(UpdateCarShape), UpdateCar),
    Route(DELETE, IdParam, None, DeleteCar)
  ])

  /** userRoutes.ts. */
  const UserRouter: Router := Router(true, [
    Route(GET, Literal("/profile"), None, GetProfile),
    Route(PUT, Literal("/profile"), Some(UpdateProfileShape), UpdateProfile),
    Route(PUT, Literal("/password"), Some(ChangePasswordShape), ChangePassword)
  ])

  /** maintenanceRoutes.ts: no route validates its body. */
  const MaintenanceRouter: Router := Router(true, [
    Route(GET, Literal("/"), None, GetMaintenance),
    Route(POST, Literal("/"), None, CreateMaintenance),
    Route(GET, IdParam, None, GetMaintenanceById),
    Route(PUT, IdParam, None, UpdateMaintenance),
    Route(DELETE, IdParam, None, DeleteMaintenance)
  ])

  /** Which schema, if any, the route a car request reaches validates its
      body with: createCarSchema for POST /, updateCarSchema for PUT /:id,
      none for the GET and DELETE routes. */
  lemma CarRouteValidation(verb: Verb, path: string)
    ensures var f := FindRoute(CarRouter.routes, verb, path);
      f.Some? ==>
        var r := CarRouter.routes[f.value.0];
        && (r.validation.Some? <==> verb == POST || verb == PUT)
        && (verb == POST ==> r.validation == Some(CreateCarShape) && r.handler == CreateCar && path == "/")
        && (verb == PUT ==> r.validation == Some(UpdateCarShape) && r.handler == UpdateCar)
  {
    var f := FindRoute(CarRouter.routes, verb, path);
    if f.Some? {
      var k := f.value.0;
      assert k == 0 || k == 1 || k == 2 || k == 3 || k == 4;
    }
  }

  /** `GET /` on the car router reaches getCars and `GET /<id>` reaches
      getCarById with that id as `req.params.id`. */
  lemma CarRouteLookup(id: string)
    requires id != "" && '/' !in id
    ensures FindRoute(CarRouter.routes, GET, "/") == Some((0, map[]))
    ensures FindRoute(CarRouter.routes, GET, "/" + id) == Some((2, map["id" := JStr(id)]))
    ensures FindRoute(CarRouter.routes, PUT, "/" + id) == Some((3, map["id" := JStr(id)]))
    ensures FindRoute(CarRouter.routes, DELETE, "/" + id) == Some((4, map["id" := JStr(id)]))
  {
    var p := "/" + id;
    assert p[1..] == id;
    assert MatchPath(Literal("/"), p) == None;
    assert MatchPath(IdParam, p) == Some(map["id" := JStr(id)]);
    var rs := CarRouter.routes;
    assert FindRoute(rs[4..], DELETE, p) == Some((0, map["id" := JStr(id)]));
    assert FindRoute(rs[3..], DELETE, p) == Some((1, map["id" := JStr(id)]));
    assert FindRoute(rs[2..], DELETE, p) == Some((2, map["id" := JStr(id)]));
    assert FindRoute(rs[1..], DELETE, p) == Some((3, map["id" := JStr(id)]));
    assert FindRoute(rs[3..], PUT, p) == Some((0, map["id" := JStr(id)]));
    assert FindRoute(rs[2..], PUT, p) == Some((1, map["id" := JStr(id)]));
    assert FindRoute(rs[1..], PUT, p) == Some((2, map["id" := JStr(id)]));
    assert FindRoute(rs[2..], GET, p) == Some((0, map["id" := JStr(id)]));
    assert FindRoute(rs[1..], GET, p) == Some((1, map["id" := JStr(id)]));
  }

  /** Both PUT routes of the user router are validated, the GET is not. */
  lemma UserRouteValidation(verb: Verb, path: string)
    ensures var f := FindRoute(UserRouter.routes, verb, path);
      f.Some? ==>
        var r := UserRouter.routes[f.value.0];
        && (r.validation.Some? <==> verb == PUT)
        && (verb == PUT && path == "/profile" ==> r.validation == Some(UpdateProfileShape))
        && (verb == PUT && path == "/password" ==> r.validation == Some(ChangePasswordShape))
  {
    var f := FindRoute(UserRouter.routes, verb, path);
    if f.Some? {
      var k := f.value.0;
      assert k == 0 || k == 1 || k == 2;
    }
  }

  /** No maintenance route validates its body. */
  lemma MaintenanceRoutesUnvalidated(verb: Verb, path: string)
    ensures var f := FindRoute(MaintenanceRouter.routes, verb, path);
      f.Some? ==> MaintenanceRouter.routes[f.value.0].validation.None?
  {
    var f := FindRoute(MaintenanceRouter.routes, verb, path);
    if f.Some? {
      var k := f.value.0;
      assert k == 0 || k == 1 || k == 2 || k == 3 || k == 4;
    }
  }
}
