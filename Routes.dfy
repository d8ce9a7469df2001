/** The two route tables (src/routes/appointments.js, src/routes/doctors.js)
    as Express evaluates them: layers in order, every `use` guard applying to
    each request that reaches it, the first route whose verb and pattern
    match handling the request. A request no route matches still passes the
    guards before it and falls through to the application's 404. */
module Routes {
  import opened Outcomes
  import AuthGuard
  import Text

  datatype Verb = Get | Post | Put | Patch | Delete

  /** A path segment of a pattern: a literal, or a parameter such as `:id`. */
  datatype Segment = Lit(text: string) | Param

  datatype Guard = Protect | RestrictTo(roles: seq<string>)

  datatype Handler =
    | GetMyAppointments | CreateAppointment | CancelAppointment | GetAppointment
    | GetAllAppointments | UpdateAppointmentStatus
    | GetAllDoctors | GetDoctor | CreateDoctor | UpdateDoctor | DeleteDoctor | GetDoctorAppointments

  datatype Layer =
    | Use(guard: Guard)
    | Route(verb: Verb, pattern: seq<Segment>, guards: seq<Guard>, handler: Handler)

  /** The guards a request meets, in order, and the handler that answers it. */
  datatype Dispatched = Dispatched(guards: seq<Guard>, handler: Option<Handler>)

  const APPOINTMENT_ROUTES: seq<Layer> := [
    Use(Protect),
    Route(Get, [Lit("all")], [RestrictTo(["admin"])], GetAllAppointments),
    Route(Patch, [Param, Lit("status")], [RestrictTo(["admin"])], UpdateAppointmentStatus),
    Route(Get, [Lit("my-appointments")], [], GetMyAppointments),
    Route(Post, [], [], CreateAppointment),
    Route(Get, [Param], [], GetAppointment),
    Route(Patch, [Param, Lit("cancel")], [], CancelAppointment)
  ]

  const STAFF: seq<string> := ["admin", "superadmin"]

  const DOCTOR_ROUTES: seq<Layer> := [
    Route(Get, [], [], GetAllDoctors),
    Route(Get, [Param], [], GetDoctor),
    Use(Protect),
    Use(RestrictTo(STAFF)),
    Route(Post, [], [], CreateDoctor),
    Route(Put, [Param], [], UpdateDoctor),
    Route(Delete, [Param], [], DeleteDoctor),
    Route(Get, [Param, Lit("appointments")], [], GetDoctorAppointments)
  ]

  /** A path matches a pattern segment by segment; a parameter takes any
      non-empty segment. Express routers are case-insensitive by default, so a
      literal is compared with the lower-cased segment (every literal of the
      two tables is lower-case). */
  predicate Matches(pattern: seq<Segment>, path: seq<string>)
  {
    && |pattern| == |path|
    && forall i :: 0 <= i < |path| ==>
         path[i] != "" && (pattern[i].Lit? ==> pattern[i].text == Text.Lower(path[i]))
  }

  /** `layers[i]` is a route for this verb and path. */
  predicate Handles(layers: seq<Layer>, i: int, verb: Verb, path: seq<string>)
  {
    0 <= i < |layers| && layers[i].Route? && layers[i].verb == verb && Matches(layers[i].pattern, path)
  }

  /** Express's walk through a router: the first route for the verb and path
      answers, after the `use` guards before it and with its own guards;
      with no such route, every `use` guard still runs. */
  function Dispatch(layers: seq<Layer>, verb: Verb, path: seq<string>): (d: Dispatched)
    ensures d.handler.None? ==> forall i :: 0 <= i < |layers| && layers[i].Route? ==>
      !(layers[i].verb == verb && Matches(layers[i].pattern, path))
    decreases |layers|
  {
    if |layers| == 0 then Dispatched([], None)
    else match layers[0]
      case Use(g) =>
        var rest := Dispatch(layers[1..], verb, path);
        Dispatched([g] + rest.guards, rest.handler)
      case Route(v, pattern, guards, h) =>
        if v == verb && Matches(pattern, path) then Dispatched(guards, Some(h))
        else Dispatch(layers[1..], verb, path)
  }

  /** The walk answers with the first route for the verb and path, and with
      none exactly when no route is for them. */
  lemma {:induction false} DispatchFirstMatch(layers: seq<Layer>, verb: Verb, path: seq<string>)
    ensures var d := Dispatch(layers, verb, path);
      && (d.handler.None? <==> forall i :: !Handles(layers, i, verb, path))
      && (d.handler.Some? ==>
            exists i :: && Handles(layers, i, verb, path)
                        && d.handler == Some(layers[i].handler)
                        && forall j :: 0 <= j < i ==> !Handles(layers, j, verb, path))
    decreases |layers|
  {
    if |layers| > 0 {
      var d := Dispatch(layers, verb, path);
      if Handles(layers, 0, verb, path) {
        assert d.handler == Some(layers[0].handler);
      } else {
        var rest := layers[1..];
        DispatchFirstMatch(rest, verb, path);
        assert d.handler == Dispatch(rest, verb, path).handler;
        assert forall i :: 1 <= i < |layers| ==> (Handles(layers, i, verb, path) <==> Handles(rest, i - 1, verb, path));
        if d.handler.Some? {
          var k :| && Handles(rest, k, verb, path) && d.handler == Some(rest[k].handler)
                   && forall j :: 0 <= j < k ==> !Handles(rest, j, verb, path);
          assert Handles(layers, k + 1, verb, path) && layers[k + 1] == rest[k];
          assert forall j :: 0 <= j < k + 1 ==> !Handles(layers, j, verb, path);
        } else {
          assert forall i :: !Handles(layers, i, verb, path);
        }
      }
    }
  }

  /** Running the guards in order with the outcome of `protect` (the caller's
      role, or its 401); `user` is the role of `req.user` once `protect` has
      set it. The first refusal answers; a role check that runs before
      authentication finds no user. */
  function Admit(guards: seq<Guard>, auth: Outcome<string>, user: Option<string>): (r: Outcome<()>)
    ensures r.Ok? ==> forall i :: 0 <= i < |guards| && guards[i].Protect? ==> auth.Ok?
    decreases |guards|
  {
    if |guards| == 0 then Ok(())
    else match guards[0]
      case Protect =>
        if auth.Fail? then Fail(auth.failure) else Admit(guards[1..], auth, Some(auth.value))
      case RestrictTo(roles) =>
        if user.None? then Thrown(NoUserOnRequest)
        else if AuthGuard.RequireRole(roles, user.value).Fail? then AuthGuard.RequireRole(roles, user.value)
        else Admit(guards[1..], auth, user)
  }

  /** Authentication followed by a role check: a failed `protect` answers
      first, then the role decides. */
  lemma AuthenticateThenRole(roles: seq<string>, auth: Outcome<string>)
    ensures Admit([Protect, RestrictTo(roles)], auth, None) ==
      if auth.Fail? then Fail(auth.failure) else AuthGuard.RequireRole(roles, auth.value)
  {
    var g := [RestrictTo(roles)];
    assert [Protect, RestrictTo(roles)][1..] == g;
    if auth.Ok? {
      var check := AuthGuard.RequireRole(roles, auth.value);
      assert Admit([Protect, RestrictTo(roles)], auth, None) == Admit(g, auth, Some(auth.value));
      assert g[1..] == [];
      assert Admit(g, auth, Some(auth.value)) == if check.Fail? then check else Admit([], auth, Some(auth.value));
    }
  }

  /** Whether a request with the given `protect` outcome reaches its handler. */
  function Reaches(layers: seq<Layer>, verb: Verb, path: seq<string>, auth: Outcome<string>): (r: Outcome<()>)
  {
    Admit(Dispatch(layers, verb, path).guards, auth, None)
  }

  /** Every appointment request, matched or not, is authenticated first. */
  lemma {:induction false} AppointmentsNeedAuthentication(verb: Verb, path: seq<string>, auth: Outcome<string>)
    ensures Dispatch(APPOINTMENT_ROUTES, verb, path).guards[0] == Protect
    ensures auth.Fail? ==> Reaches(APPOINTMENT_ROUTES, verb, path, auth) == Fail(auth.failure)
  {
  }

  /** Listing all appointments and changing a status need the admin role,
      however the literal segment is capitalised. */
  lemma AdminAppointmentRoutes(id: string, all: string, status: string, auth: Outcome<string>)
    requires id != "" && Text.Lower(all) == "all" && Text.Lower(status) == "status"
    ensures Dispatch(APPOINTMENT_ROUTES, Get, [all]) == Dispatched([Protect, RestrictTo(["admin"])], Some(GetAllAppointments))
    ensures Dispatch(APPOINTMENT_ROUTES, Patch, [id, status])
            == Dispatched([Protect, RestrictTo(["admin"])], Some(UpdateAppointmentStatus))
    ensures Reaches(APPOINTMENT_ROUTES, Get, [all], auth).Ok? <==> auth == Ok("admin")
  {
    assert |all| == 3 && [all][0] == all;
    assert [id, status][1] == status;
  }

  /** The patient routes need authentication and nothing more. A segment
      that reads "all" or "my-appointments" in any capitalisation is never
      taken as an appointment id, while any other segment is. */
  lemma PatientAppointmentRoutes(id: string, mine: string, cancel: string, auth: Outcome<string>)
    requires id != "" && Text.Lower(id) != "all" && Text.Lower(id) != "my-appointments"
    requires Text.Lower(mine) == "my-appointments" && Text.Lower(cancel) == "cancel"
    ensures Dispatch(APPOINTMENT_ROUTES, Get, [mine]) == Dispatched([Protect], Some(GetMyAppointments))
    ensures Dispatch(APPOINTMENT_ROUTES, Post, []) == Dispatched([Protect], Some(CreateAppointment))
    ensures Dispatch(APPOINTMENT_ROUTES, Get, [id]) == Dispatched([Protect], Some(GetAppointment))
    ensures Dispatch(APPOINTMENT_ROUTES, Patch, [id, cancel]) == Dispatched([Protect], Some(CancelAppointment))
    ensures Reaches(APPOINTMENT_ROUTES, Get, [id], auth).Ok? <==> auth.Ok?
  {
    assert |mine| == 15 && [mine][0] == mine;
    assert [id][0] == id;
    assert [id, cancel][1] == cancel;
  }

  /** The two doctor reads are public: no guard runs. */
  lemma PublicDoctorRoutes(id: string, auth: Outcome<string>)
    requires id != ""
    ensures Dispatch(DOCTOR_ROUTES, Get, []) == Dispatched([], Some(GetAllDoctors))
    ensures Dispatch(DOCTOR_ROUTES, Get, [id]) == Dispatched([], Some(GetDoctor))
    ensures Reaches(DOCTOR_ROUTES, Get, [id], auth) == Ok(())
  {
  }

  /** Every other doctor request, including one no route matches, is
      authenticated and then needs role admin or superadmin; an
      unauthenticated one is refused by `protect` before any role check. */
  lemma {:induction false} StaffDoctorRoutes(verb: Verb, path: seq<string>, auth: Outcome<string>)
    requires !(verb == Get && (|path| == 0 || (|path| == 1 && path[0] != "")))
    ensures Dispatch(DOCTOR_ROUTES, verb, path).guards == [Protect, RestrictTo(STAFF)]
    ensures Reaches(DOCTOR_ROUTES, verb, path, auth).Ok? <==> auth.Ok? && auth.value in STAFF
    ensures auth.Fail? ==> Reaches(DOCTOR_ROUTES, verb, path, auth) == Fail(auth.failure)
    ensures auth.Ok? && auth.value !in STAFF ==> Reaches(DOCTOR_ROUTES, verb, path, auth) == AppFail(403, NoPermission)
  {
    var L := DOCTOR_ROUTES;
    assert !Matches(L[0].pattern, path) || verb != Get;
    assert Dispatch(L, verb, path) == Dispatch(L[1..], verb, path);
    assert !Matches(L[1].pattern, path) || verb != Get;
    assert Dispatch(L[1..], verb, path) == Dispatch(L[2..], verb, path) by {
      assert L[1..][0] == L[1];
      assert L[1..][1..] == L[2..];
    }
    var d := Dispatch(L[4..], verb, path);
    RoutesOnlyHaveNoGuards(L[4..], verb, path);
    assert Dispatch(L[3..], verb, path) == Dispatched([RestrictTo(STAFF)] + d.guards, d.handler) by {
      assert L[3..][0] == Use(RestrictTo(STAFF));
      assert L[3..][1..] == L[4..];
    }
    assert Dispatch(L[2..], verb, path).guards == [Protect] + Dispatch(L[3..], verb, path).guards by {
      assert L[2..][0] == Use(Protect);
      assert L[2..][1..] == L[3..];
    }
    AuthenticateThenRole(STAFF, auth);
  }

  /** Routes of a table without route-level guards and without `use` layers
      add no guard. */
  lemma {:induction false} RoutesOnlyHaveNoGuards(layers: seq<Layer>, verb: Verb, path: seq<string>)
    requires forall i :: 0 <= i < |layers| ==> layers[i].Route? && layers[i].guards == []
    ensures Dispatch(layers, verb, path).guards == []
    decreases |layers|
  {
    if |layers| > 0 {
      RoutesOnlyHaveNoGuards(layers[1..], verb, path);
    }
  }
}
