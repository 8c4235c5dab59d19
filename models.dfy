/** The three Mongoose models (apps/backend/src/models) as predicates over
    stored documents: which paths a document may have, which are required,
    the bounds and the enumeration, and the defaults filled in on creation.
    A document is kept without its `_id`, which is the key it is stored under. */
module Models {
  import opened Json

  //---------------------------------------------------------------------------
  // Field constraints shared by the schemas
  //---------------------------------------------------------------------------

  /** Mongoose `required` on a String path: present, not null, not ''. */
  predicate RequiredString(d: Object, k: string)
  {
    k in d && d[k].JStr? && d[k].s != ""
  }

  /** An optional String path: absent, null or a string. */
  predicate OptionalString(d: Object, k: string)
  {
    k !in d || d[k] == JNull || d[k].JStr?
  }

  /** The store's update of a document by an update object: every key of the
      update that is a path of the schema overwrites that path, and keys that
      are not paths of the schema are dropped (Mongoose's strict mode). */
  function Overlay(d: Object, upd: Object, paths: set<string>): (r: Object)
    ensures forall k :: k in r <==> k in d || (k in upd && k in paths)
    ensures forall k :: k in upd && k in paths ==> r[k] == upd[k]
    ensures forall k :: k in d && !(k in upd && k in paths) ==> r[k] == d[k]
  {
    d + map k | k in upd && k in paths :: upd[k]
  }

  //---------------------------------------------------------------------------
  // Car (apps/backend/src/models/Car.ts)
  //---------------------------------------------------------------------------

  /** The paths of the car schema. There is no license plate and no
      timestamps option, so no `createdAt` path either. */
  const CarPaths: set<string> := {"userId", "brand", "model", "year", "color"}

  /** A value admissible at one path of the car schema, when it is written. */
  predicate CarFieldOk(k: string, v: Json)
  {
    if k == "userId" || k == "brand" || k == "model" then v.JStr? && v.s != ""
    else if k == "year" then v.JNum?
    else if k == "color" then v == JNull || v.JStr?
    else true
  }

  /** A stored car: only schema paths, with userId, brand, model and year
      present. No path is unique apart from `_id`. */
  predicate CarValid(d: Object)
  {
    && d.Keys <= CarPaths
    && RequiredString(d, "userId") && RequiredString(d, "brand") && RequiredString(d, "model")
    && "year" in d && d["year"].JNum?
    && OptionalString(d, "color")
  }

  /** The update validators (`runValidators`) for a car: every schema path the
      update writes gets an admissible value. */
  predicate CarUpdateOk(upd: Object)
  {
    forall k :: k in upd && k in CarPaths ==> CarFieldOk(k, upd[k])
  }

  /** A valid car stays valid under an update the validators accept. */
  lemma CarUpdatePreservesValid(d: Object, upd: Object)
    requires CarValid(d) && CarUpdateOk(upd)
    ensures CarValid(Overlay(d, upd, CarPaths))
  {
  }

  /** Because no path but `_id` is unique, two cars with identical contents
      may be stored side by side. */
  lemma IdenticalCarsMayCoexist(d: Object, a: string, b: string)
    requires CarValid(d)
    ensures var cars := map[a := d, b := d]; forall id :: id in cars ==> CarValid(cars[id])
  {
  }

  //---------------------------------------------------------------------------
  // Maintenance (apps/backend/src/models/Maintenance.ts)
  //---------------------------------------------------------------------------

  /** The ten values of the `type` enumeration, in declared order. */
  const MaintenanceTypes: seq<string> := [
    "oil_change", "tire_rotation", "brake_service", "battery_replacement", "air_filter",
    "fuel_filter", "transmission_fluid", "coolant_flush", "inspection", "other"
  ]

  /** The paths of the maintenance schema. `attachments` is declared in the
      TypeScript interface but not in the schema, so it is not a path. */
  const MaintenancePaths: set<string> := {
    "carId", "userId", "type", "description", "cost", "mileage", "date",
    "nextDueDate", "nextDueMileage", "notes"
  }

  const MinNextDueMileage: real := 1000.0

  /** A value the Date cast accepts: a timestamp or a non-empty string. The
      cast turns '' into null, and refuses booleans, arrays and objects. */
  predicate DateCastOk(v: Json)
  {
    v.JNum? || (v.JStr? && v.s != "")
  }

  /** A value admissible at one path of the maintenance schema, when written.
      `date` is required, so null and '' (cast to null) are refused;
      `nextDueDate` is optional, so both are admitted. */
  predicate MaintenanceFieldOk(k: string, v: Json)
  {
    if k == "carId" || k == "userId" then v.JStr? && v.s != ""
    else if k == "type" then v.JStr? && v.s in MaintenanceTypes
    else if k == "description" || k == "notes" then v == JNull || v.JStr?
    else if k == "cost" || k == "mileage" then v == JNull || (v.JNum? && v.n >= 0.0)
    else if k == "date" then DateCastOk(v)
    else if k == "nextDueDate" then v == JNull || v == JStr("") || DateCastOk(v)
    else if k == "nextDueMileage" then v == JNull || (v.JNum? && v.n >= MinNextDueMileage)
    else true
  }

  /** A stored maintenance record: carId, userId, type and date present; cost
      and mileage not negative; nextDueMileage at least 1000 when set;
      description, mileage and notes optional at this level. */
  predicate MaintenanceValid(d: Object)
  {
    && d.Keys <= MaintenancePaths
    && "carId" in d && "userId" in d && "type" in d && "date" in d
    && forall k :: k in d ==> MaintenanceFieldOk(k, d[k])
  }

  /** The update validators for a maintenance record. */
  predicate MaintenanceUpdateOk(upd: Object)
  {
    forall k :: k in upd && k in MaintenancePaths ==> MaintenanceFieldOk(k, upd[k])
  }

  lemma MaintenanceUpdatePreservesValid(d: Object, upd: Object)
    requires MaintenanceValid(d) && MaintenanceUpdateOk(upd)
    ensures MaintenanceValid(Overlay(d, upd, MaintenancePaths))
  {
  }

  /** The schema defaults, filled in when a record is created: a missing cost
      becomes 0, a missing date becomes the creation time, missing notes
      become ''. Keys outside the schema are dropped. */
  function WithMaintenanceDefaults(d: Object, now: Json): (r: Object)
    ensures r.Keys == (d.Keys * MaintenancePaths) + {"cost", "date", "notes"}
    ensures forall k :: k in d && k in MaintenancePaths ==> r[k] == d[k]
    ensures "cost" !in d ==> r["cost"] == JNum(0.0)
    ensures "date" !in d ==> r["date"] == now
    ensures "notes" !in d ==> r["notes"] == JStr("")
  {
    var kept := map k | k in d && k in MaintenancePaths :: d[k];
    var withCost := if "cost" in kept then kept else kept["cost" := JNum(0.0)];
    var withDate := if "date" in withCost then withCost else withCost["date" := now];
    if "notes" in withDate then withDate else withDate["notes" := JStr("")]
  }

  //---------------------------------------------------------------------------
  // User (apps/backend/src/models/User.ts)
  //---------------------------------------------------------------------------

  /** A stored user. `password` holds the password hash. */
  datatype User = User(email: string, fullName: string, password: string, profilePic: Option<string>)

  const MinStoredPasswordLength: nat := 6

  /** A user document as the schema requires it: email and fullName present,
      the stored password at least six characters long. */
  predicate UserValid(u: User)
  {
    u.email != "" && u.fullName != "" && |u.password| >= MinStoredPasswordLength
  }

  /** A new user document; profilePic takes its default ''. */
  function NewUser(email: string, fullName: string, password: string): (u: User)
    ensures u.profilePic == Some("")
    ensures u.email == email && u.fullName == fullName && u.password == password
  {
    User(email, fullName, password, Some(""))
  }

  /** A new user satisfies the schema exactly when email and name are
      non-empty and the stored hash has at least six characters. */
  lemma NewUserValid(email: string, fullName: string, hash: string)
    ensures UserValid(NewUser(email, fullName, hash)) <==>
      email != "" && fullName != "" && |hash| >= MinStoredPasswordLength
  {
  }

  /** The unique index on email: no two users share an email. */
  ghost predicate UniqueEmails(users: map<string, User>)
  {
    forall a, b :: a in users && b in users && a != b ==> users[a].email != users[b].email
  }
}
