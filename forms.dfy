/** The forms of the web client and the requests they send: the car form
    (lib/schemas.ts, used by EditCarDialog), the maintenance form of
    AddMaintenanceDialog, the change-password form and the login form. Each
    form is a zod schema over the values the form resolver sees; the lemmas
    compare what the client lets through with what the server accepts. */
module Forms {
  import opened Json
  import opened Text
  import opened Zod
  import opened Models
  import Controllers

  //---------------------------------------------------------------------------
  // carSchema (lib/schemas.ts)
  //---------------------------------------------------------------------------

  const BrandField: Field := Field("brand", Str(1, "Brand is required"), false)
  const CarModelField: Field := Field("carModel", Str(1, "Model is required"), false)
  const ColorField: Field := Field("color", Str(0, InvalidInput), true)

  /** The keys carSchema keeps. */
  const CarFormNames: set<string> := {"brand", "carModel", "year", "color"}

  predicate IsWhole(n: real)
  {
    n.Floor as real == n
  }

  /** The checks on `year`: a number, whole, at least 1900 and at most the
      year after `currentYear`, the year the page was loaded in. A failed
      type or whole-number check ends the chain (`.int()` reports an
      invalid type in zod 4), so the bounds are checked, and both
      reported, only for a whole number. */
  function YearIssues(v: Option<Json>, currentYear: int): (r: seq<Issue>)
    ensures r == [] <==> v.Some? && v.value.JNum? && IsWhole(v.value.n)
                         && 1900.0 <= v.value.n <= (currentYear + 1) as real
    ensures forall i :: 0 <= i < |r| ==> r[i].path == ["year"]
    ensures v.Some? && v.value.JNum? && !IsWhole(v.value.n) ==> r == [Issue(["year"], "Year must be a whole number")]
    ensures v.Some? && v.value.JNum? && IsWhole(v.value.n) && v.value.n < 1900.0 ==>
      Issue(["year"], "Year must be at least 1900") in r
    ensures v.Some? && v.value.JNum? && IsWhole(v.value.n) && v.value.n > (currentYear + 1) as real ==>
      Issue(["year"], "Year must be at most " + IntToString(currentYear + 1)) in r
  {
    if v.None? || !v.value.JNum? then [Issue(["year"], "Year must be a number")]
    else
      var n := v.value.n;
      if !IsWhole(n) then [Issue(["year"], "Year must be a whole number")]
      else
        (if n >= 1900.0 then [] else [Issue(["year"], "Year must be at least 1900")])
        + (if n <= (currentYear + 1) as real then [] else
             [Issue(["year"], "Year must be at most " + IntToString(currentYear + 1))])
  }

  /** The issues of carSchema, in the order of its fields. */
  function CarFormIssues(o: Oracles, currentYear: int, obj: Object): seq<Issue>
  {
    FieldIssues(o, BrandField, Get(obj, "brand")) + FieldIssues(o, CarModelField, Get(obj, "carModel"))
    + YearIssues(Get(obj, "year"), currentYear) + FieldIssues(o, ColorField, Get(obj, "color"))
  }

  /** `carSchema.safeParse(values)`. */
  function ParseCarForm(o: Oracles, currentYear: int, input: Json): SafeParse
  {
    if !input.JObj? then Failure([Issue([], InvalidInput)])
    else
      var issues := CarFormIssues(o, currentYear, input.fields);
      if issues == [] then Success(JObj(map k | k in input.fields && k in CarFormNames :: input.fields[k]))
      else Failure(issues)
  }

  /** The predicate carSchema states: brand and carModel non-empty, the year
      a whole number from 1900 to the year after the current one, color an
      optional string; the output keeps those keys only. */
  lemma CarFormSpec(o: Oracles, currentYear: int, obj: Object)
    ensures ParseCarForm(o, currentYear, JObj(obj)).Success? <==>
      && NonEmptyString(Get(obj, "brand")) && NonEmptyString(Get(obj, "carModel"))
      && Get(obj, "year").Some? && obj["year"].JNum? && IsWhole(obj["year"].n)
      && 1900.0 <= obj["year"].n <= (currentYear + 1) as real
      && OptionalStringValue(Get(obj, "color"))
    ensures ParseCarForm(o, currentYear, JObj(obj)).Success? ==>
      ParseCarForm(o, currentYear, JObj(obj)).data.fields.Keys == obj.Keys * CarFormNames
  {
  }

  /** Every year the client form accepts also passes the server's bound of
      1886, whatever the current year. */
  lemma ClientYearWithinServerBound(o: Oracles, currentYear: int, obj: Object)
    requires ParseCarForm(o, currentYear, JObj(obj)).Success?
    ensures ServerYearOk(Get(obj, "year"))
  {
    CarFormSpec(o, currentYear, obj);
  }

  /** What the car form lets through, createCarSchema accepts. */
  lemma ClientCarAcceptedByServer(o: Oracles, currentYear: int, obj: Object)
    requires ParseCarForm(o, currentYear, JObj(obj)).Success?
    ensures ParseObject(o, CreateCarShape, ParseCarForm(o, currentYear, JObj(obj)).data).Success?
  {
    CarFormSpec(o, currentYear, obj);
    var data := ParseCarForm(o, currentYear, JObj(obj)).data.fields;
    assert Get(data, "brand") == Get(obj, "brand") && Get(data, "carModel") == Get(obj, "carModel");
    assert Get(data, "year") == Get(obj, "year") && Get(data, "color") == Get(obj, "color");
    CreateCarSchemaSpec(o, data);
  }

  /** The converse fails: the server takes years the form refuses, such as
      1890. */
  lemma ServerTakesYearsFormRefuses(o: Oracles, currentYear: int)
    ensures var body := map["brand" := JStr("Ford"), "carModel" := JStr("T"), "year" := JNum(1890.0)];
      ParseObject(o, CreateCarShape, JObj(body)).Success? && ParseCarForm(o, currentYear, JObj(body)).Failure?
  {
    var body := map["brand" := JStr("Ford"), "carModel" := JStr("T"), "year" := JNum(1890.0)];
    CreateCarSchemaSpec(o, body);
    CarFormSpec(o, currentYear, body);
  }

  //---------------------------------------------------------------------------
  // EditCarDialog's prefill and request
  //---------------------------------------------------------------------------

  /** A car as the client receives it. */
  datatype CarView = CarView(id: string, userId: string, brand: string, model: string, year: real, color: Option<string>)

  /** The values the dialog resets its form to when it opens with a car:
      the stored model goes to carModel, a missing or empty color to ''. */
  function Prefill(car: CarView): (f: Object)
    ensures f.Keys == CarFormNames
    ensures f["brand"] == JStr(car.brand) && f["carModel"] == JStr(car.model) && f["year"] == JNum(car.year)
    ensures f["color"] == JStr(if car.color.Some? then car.color.value else "")
  {
    map["brand" := JStr(car.brand), "carModel" := JStr(car.model), "year" := JNum(car.year),
        "color" := JStr(if car.color.Some? && car.color.value != "" then car.color.value else "")]
  }

  /** The prefilled form submits exactly when the stored car meets the
      client's rules, and then its values are sent unchanged. */
  lemma PrefillSubmittable(o: Oracles, currentYear: int, car: CarView)
    ensures ParseCarForm(o, currentYear, JObj(Prefill(car))).Success? <==>
      car.brand != "" && car.model != "" && IsWhole(car.year) && 1900.0 <= car.year <= (currentYear + 1) as real
    ensures ParseCarForm(o, currentYear, JObj(Prefill(car))).Success? ==>
      ParseCarForm(o, currentYear, JObj(Prefill(car))).data == JObj(Prefill(car))
  {
    CarFormSpec(o, currentYear, Prefill(car));
  }

  /** A car stored with a year from 1886 to before 1900, which the server
      admits, opens an edit form that never submits: the year check refuses
      it, with the lower bound's message for a whole year and the
      whole-number message otherwise. */
  lemma PrefillRefusesEarlyYears(o: Oracles, currentYear: int, car: CarView)
    requires ServerYearOk(Some(JNum(car.year))) && car.year < 1900.0
    ensures ParseCarForm(o, currentYear, JObj(Prefill(car))).Failure?
    ensures IsWhole(car.year) ==>
      Issue(["year"], "Year must be at least 1900") in ParseCarForm(o, currentYear, JObj(Prefill(car))).issues
    ensures !IsWhole(car.year) ==>
      Issue(["year"], "Year must be a whole number") in ParseCarForm(o, currentYear, JObj(Prefill(car))).issues
  {
    PrefillSubmittable(o, currentYear, car);
    var f := Prefill(car);
    if IsWhole(car.year) {
      assert Issue(["year"], "Year must be at least 1900") in YearIssues(Get(f, "year"), currentYear);
    } else {
      assert Issue(["year"], "Year must be a whole number") in YearIssues(Get(f, "year"), currentYear);
    }
  }

  /** The request EditCarDialog sends: `PUT /cars/<car._id>` with the form
      values as the body. */
  datatype Request = Request(path: string, body: Object)

  function EditCarRequest(car: CarView, values: Object): (q: Request)
    ensures q.path == "/cars/" + car.id && q.body == values
  {
    Request("/cars/" + car.id, values)
  }

  /** The body of an edit carries no `id`, so however valid the form,
      updateCarSchema refuses it and the id is reported missing. */
  lemma EditCarRequestRejected(o: Oracles, currentYear: int, values: Object, car: CarView)
    requires ParseCarForm(o, currentYear, JObj(values)).Success?
    ensures var q := EditCarRequest(car, ParseCarForm(o, currentYear, JObj(values)).data.fields);
      && ParseObject(o, UpdateCarShape, JObj(q.body)).Failure?
      && Issue(["id"], InvalidInput) in ParseObject(o, UpdateCarShape, JObj(q.body)).issues
  {
    var data := ParseCarForm(o, currentYear, JObj(values)).data.fields;
    assert "id" !in data;
    UpdateCarNeedsId(o, data);
  }

  //---------------------------------------------------------------------------
  // AddMaintenanceDialog's form and payload
  //---------------------------------------------------------------------------

  /** maintenanceSchema. */
  const MaintenanceFormShape: Shape := [
    Field("type", Str(1, "Type is required"), false),
    Field("description", Str(1, "Description is required"), false),
    Field("cost", Num(0.0, "Cost must be positive"), true),
    Field("mileage", Num(0.0, "Mileage must be positive"), false),
    Field("date", Str(0, InvalidInput), true),
    Field("nextDueDate", Str(0, InvalidInput), true),
    Field("nextDueMileage", Num(0.0, "Next due mileage must be positive"), true),
    Field("notes", Str(0, InvalidInput), true)
  ]

  predicate OptionalAtLeastZero(v: Option<Json>)
  {
    v.None? || (v.value.JNum? && v.value.n >= 0.0)
  }

  /** A maintenance form is valid exactly when type and description are
      non-empty, mileage is a number of at least 0, cost and nextDueMileage
      are absent or at least 0, and the dates and notes are absent or
      strings. */
  lemma MaintenanceFormSpec(o: Oracles, obj: Object)
    ensures ParseObject(o, MaintenanceFormShape, JObj(obj)).Success? <==>
      && NonEmptyString(Get(obj, "type")) && NonEmptyString(Get(obj, "description"))
      && OptionalAtLeastZero(Get(obj, "cost"))
      && Get(obj, "mileage").Some? && obj["mileage"].JNum? && obj["mileage"].n >= 0.0
      && OptionalStringValue(Get(obj, "date")) && OptionalStringValue(Get(obj, "nextDueDate"))
      && OptionalAtLeastZero(Get(obj, "nextDueMileage")) && OptionalStringValue(Get(obj, "notes"))
  {
    var s := MaintenanceFormShape;
    assert s[0].name == "type" && s[1].name == "description" && s[2].name == "cost" && s[3].name == "mileage";
    assert s[4].name == "date" && s[5].name == "nextDueDate" && s[6].name == "nextDueMileage" && s[7].name == "notes";
    ParseObjectSpec(o, s, JObj(obj));
    if NonEmptyString(Get(obj, "type")) && NonEmptyString(Get(obj, "description"))
      && OptionalAtLeastZero(Get(obj, "cost"))
      && Get(obj, "mileage").Some? && obj["mileage"].JNum? && obj["mileage"].n >= 0.0
      && OptionalStringValue(Get(obj, "date")) && OptionalStringValue(Get(obj, "nextDueDate"))
      && OptionalAtLeastZero(Get(obj, "nextDueMileage")) && OptionalStringValue(Get(obj, "notes")) {
      forall j | 0 <= j < |s|
        ensures FieldOk(o, s[j], Get(obj, s[j].name))
      {
      }
    }
  }

  /** The values and labels of the type selector. */
  const MaintenanceTypeOptions: seq<(string, string)> := [
    ("oil_change", "Oil Change"), ("tire_rotation", "Tire Rotation"), ("brake_service", "Brake Service"),
    ("battery_replacement", "Battery Replacement"), ("air_filter", "Air Filter"), ("fuel_filter", "Fuel Filter"),
    ("transmission_fluid", "Transmission Fluid"), ("coolant_flush", "Coolant Flush"),
    ("inspection", "Inspection"), ("other", "Other")
  ]

  /** The selector offers exactly the model's ten types, in the same order. */
  lemma TypeOptionsMatchModel()
    ensures |MaintenanceTypeOptions| == |MaintenanceTypes|
    ensures forall i :: 0 <= i < |MaintenanceTypeOptions| ==> MaintenanceTypeOptions[i].0 == MaintenanceTypes[i]
  {
  }

  /** `{ ...data, carId, cost: data.cost || 0 }`. */
  function MaintenancePayload(data: Object, carId: string): (p: Object)
    ensures p.Keys == data.Keys + {"carId", "cost"}
    ensures p["carId"] == JStr(carId)
    ensures p["cost"] == (if Truthy(Get(data, "cost")) then data["cost"] else JNum(0.0))
    ensures forall k :: k in data && k != "carId" && k != "cost" ==> p[k] == data[k]
  {
    data["carId" := JStr(carId)]["cost" := OrElse(Get(data, "cost"), JNum(0.0))]
  }

  /** What a valid maintenance form's data holds, by the schema. */
  lemma MaintenanceFormData(o: Oracles, values: Object)
    requires ParseObject(o, MaintenanceFormShape, JObj(values)).Success?
    ensures var data := ParseObject(o, MaintenanceFormShape, JObj(values)).data.fields;
      && NonEmptyString(Get(data, "type")) && NonEmptyString(Get(data, "description"))
      && "mileage" in data && OptionalAtLeastZero(Get(data, "cost"))
  {
    MaintenanceFormSpec(o, values);
    ParseObjectSpec(o, MaintenanceFormShape, JObj(values));
    var s := MaintenanceFormShape;
    assert s[0].name == "type" && s[1].name == "description" && s[2].name == "cost" && s[3].name == "mileage";
    assert "type" in Names(s) && "description" in Names(s) && "mileage" in Names(s) && "cost" in Names(s);
  }

  /** A payload built from a valid form and a car id passes createMaintenance's
      presence check, and the stored cost is a number of at least 0. */
  lemma PayloadPassesRequiredCheck(o: Oracles, values: Object, carId: string)
    requires carId != ""
    requires ParseObject(o, MaintenanceFormShape, JObj(values)).Success?
    ensures var p := MaintenancePayload(ParseObject(o, MaintenanceFormShape, JObj(values)).data.fields, carId);
      Controllers.HasRequiredRecordFields(p) && p["cost"].JNum? && p["cost"].n >= 0.0
  {
    MaintenanceFormData(o, values);
    var data := ParseObject(o, MaintenanceFormShape, JObj(values)).data.fields;
    PayloadKeepsRequired(data, carId);
  }

  lemma PayloadKeepsRequired(data: Object, carId: string)
    requires carId != ""
    requires NonEmptyString(Get(data, "type")) && NonEmptyString(Get(data, "description"))
    requires "mileage" in data && OptionalAtLeastZero(Get(data, "cost"))
    ensures var p := MaintenancePayload(data, carId);
      Controllers.HasRequiredRecordFields(p) && p["cost"].JNum? && p["cost"].n >= 0.0
  {
    var p := MaintenancePayload(data, carId);
    assert p["type"] == data["type"] && p["description"] == data["description"];
  }

  /** The form takes a next-due mileage from 0 to 999 that the model's
      minimum of 1000 refuses: such a record cannot be stored, so
      createMaintenance answers 500. */
  lemma LowNextDueMileageRejected(uid: string, payload: Object, now: Json, n: real)
    requires 0.0 <= n < MinNextDueMileage
    requires "nextDueMileage" in payload && payload["nextDueMileage"] == JNum(n)
    ensures OptionalAtLeastZero(Get(payload, "nextDueMileage"))
    ensures !MaintenanceValid(Controllers.NewRecordDoc(uid, payload, now))
  {
    var d := Controllers.NewRecordDoc(uid, payload, now);
    Controllers.NewRecordDocCopies(uid, payload, now, "nextDueMileage");
    assert d["nextDueMileage"] == JNum(n);
    assert !MaintenanceFieldOk("nextDueMileage", d["nextDueMileage"]);
  }

  /** The form's default date, today's date as `YYYY-MM-DD`. */
  function MaintenanceDefaults(today: string): (f: Object)
    ensures f.Keys == {"date"} && f["date"] == JStr(today)
  {
    map["date" := JStr(today)]
  }

  /** The defaults alone do not submit: exactly type, description and
      mileage raise an issue. */
  lemma DefaultsNeedRequiredFields(o: Oracles, today: string)
    ensures ParseObject(o, MaintenanceFormShape, JObj(MaintenanceDefaults(today))).Failure?
    ensures forall j :: 0 <= j < |MaintenanceFormShape| ==>
      (FieldIssues(o, MaintenanceFormShape[j], Get(MaintenanceDefaults(today), MaintenanceFormShape[j].name)) != []
       <==> MaintenanceFormShape[j].name in {"type", "description", "mileage"})
  {
    var s := MaintenanceFormShape;
    var f := MaintenanceDefaults(today);
    ParseObjectSpec(o, s, JObj(f));
    assert !FieldOk(o, s[0], Get(f, s[0].name));
  }

  /** Filling in those three fields decides it: the form then submits
      exactly when type and description are non-empty and mileage is at
      least 0. */
  lemma DefaultsFilledIn(o: Oracles, today: string, t: string, d: string, m: real)
    ensures ParseObject(o, MaintenanceFormShape,
        JObj(MaintenanceDefaults(today)["type" := JStr(t)]["description" := JStr(d)]["mileage" := JNum(m)])).Success?
      <==> t != "" && d != "" && m >= 0.0
  {
    var f := MaintenanceDefaults(today)["type" := JStr(t)]["description" := JStr(d)]["mileage" := JNum(m)];
    MaintenanceFormSpec(o, f);
    assert Get(f, "cost").None? && Get(f, "nextDueDate").None? && Get(f, "nextDueMileage").None? && Get(f, "notes").None?;
    assert Get(f, "date") == Some(JStr(today));
  }

  //---------------------------------------------------------------------------
  // ChangePassword's form and request
  //---------------------------------------------------------------------------

  const PasswordFormShape: Shape := [
    Field("currentPassword", Str(1, "Current password is required"), false),
    Field("newPassword", Str(6, "New password must be at least 6 characters"), false),
    Field("confirmPassword", Str(1, "Please confirm new password"), false)
  ]

  const Mismatch: Issue := Issue(["confirmPassword"], "Passwords do not match")

  /** The schema with its refinement: the refinement runs only on values
      that pass the object schema, and reports on confirmPassword. */
  function ParsePasswordForm(o: Oracles, input: Json): SafeParse
  {
    var base := ParseObject(o, PasswordFormShape, input);
    if base.Failure? then base
    else if Get(base.data.fields, "newPassword") == Get(base.data.fields, "confirmPassword") then base
    else Failure([Mismatch])
  }

  /** Valid exactly when the current password is non-empty, the new one has
      at least six characters and the confirmation is non-empty and equal to
      it; a confirmation that differs is reported on confirmPassword alone. */
  lemma PasswordFormSpec(o: Oracles, obj: Object)
    ensures ParsePasswordForm(o, JObj(obj)).Success? <==>
      && NonEmptyString(Get(obj, "currentPassword"))
      && Get(obj, "newPassword").Some? && obj["newPassword"].JStr? && |obj["newPassword"].s| >= 6
      && NonEmptyString(Get(obj, "confirmPassword"))
      && obj["confirmPassword"] == obj["newPassword"]
    ensures ParseObject(o, PasswordFormShape, JObj(obj)).Success? && Get(obj, "confirmPassword") != Get(obj, "newPassword") ==>
      ParsePasswordForm(o, JObj(obj)) == Failure([Mismatch])
  {
    var s := PasswordFormShape;
    assert s[0].name == "currentPassword" && s[1].name == "newPassword" && s[2].name == "confirmPassword";
    assert "newPassword" in Names(s) && "confirmPassword" in Names(s);
    ParseObjectSpec(o, s, JObj(obj));
    if NonEmptyString(Get(obj, "currentPassword"))
      && Get(obj, "newPassword").Some? && obj["newPassword"].JStr? && |obj["newPassword"].s| >= 6
      && NonEmptyString(Get(obj, "confirmPassword")) {
      forall j | 0 <= j < |s|
        ensures FieldOk(o, s[j], Get(obj, s[j].name))
      {
      }
    }
  }

  /** The request body: the two passwords, never the confirmation. */
  function PasswordRequest(currentPassword: string, newPassword: string): (b: Object)
    ensures b.Keys == {"currentPassword", "newPassword"} && "confirmPassword" !in b
    ensures b["currentPassword"] == JStr(currentPassword) && b["newPassword"] == JStr(newPassword)
  {
    map["currentPassword" := JStr(currentPassword), "newPassword" := JStr(newPassword)]
  }

  /** What the form lets through, changePasswordSchema accepts. */
  lemma PasswordRequestAccepted(o: Oracles, obj: Object, current: string, next: string)
    requires ParsePasswordForm(o, JObj(obj)).Success?
    requires Get(obj, "currentPassword") == Some(JStr(current)) && Get(obj, "newPassword") == Some(JStr(next))
    ensures ParseObject(o, ChangePasswordShape, JObj(PasswordRequest(current, next))).Success?
  {
    PasswordFormSpec(o, obj);
    ChangePasswordSchemaSpec(o, PasswordRequest(current, next));
  }

  //---------------------------------------------------------------------------
  // Login's form
  //---------------------------------------------------------------------------

  const LoginFormShape: Shape := [
    Field("email", Email("Invalid email address"), false),
    Field("password", Str(1, "Password is required"), false)
  ]

  /** The login form and the server's loginSchema accept the same bodies;
      only their messages differ. */
  lemma LoginFormMatchesServer(o: Oracles, obj: Object)
    ensures ParseObject(o, LoginFormShape, JObj(obj)).Success? <==> ParseObject(o, LoginShape, JObj(obj)).Success?
  {
    LoginSchemaSpec(o, obj);
    ParseObjectSpec(o, LoginFormShape, JObj(obj));
    var s := LoginFormShape;
    assert s[0].name == "email" && s[1].name == "password";
    if ParseObject(o, LoginShape, JObj(obj)).Success? {
      forall j | 0 <= j < |s|
        ensures FieldOk(o, s[j], Get(obj, s[j].name))
      {
      }
    }
  }
}
