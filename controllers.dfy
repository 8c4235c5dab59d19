/** The four controllers (controllers/carController.ts,
    maintenanceController.ts, userController.ts, authController.ts) as
    methods on one store holding the three collections. Every handler is a
    chain of early returns; the store answers each with a status and either
    a value or an error message. Cars and maintenance records are kept as
    documents (objects), so that request bodies can flow into them as they
    do in the source; users are kept typed. */
module Controllers {
  import opened Json
  import opened Text
  import opened Models
  import opened Zod
  import opened Gate

  type Id = string

  /** The `message` and `error` texts the handlers answer with. */
  datatype Message =
    | NoMessage
    | Unauthorized | CarNotFound | UserNotFound | RecordNotFound | ValidationFailed
    | UpdateProfileFailed | ChangePasswordFailed | InvalidCredentials | UpdateRecordFailed
    | UpdateCarFailed | CreateRecordFailed | CreateCarFailed | UserExists | MissingFields
    | PlateExists | WrongPassword | PasswordsRequired | CreateUserFailed
    | CarCreated | CarUpdated | CarDeleted | RecordCreated | RecordUpdated | RecordDeleted
    | ProfileUpdated | PasswordChanged | UserCreated | LoginSucceeded

  /** The text sent for each message ('' where the handler sends none). */
  function MessageText(m: Message): string
  {
    match m
    case NoMessage => ""
    case Unauthorized => "Unauthorized"
    case CarNotFound => "Car not found"
    case UserNotFound => "User not found"
    case RecordNotFound => "Maintenance record not found"
    case ValidationFailed => "Validation failed"
    case UpdateProfileFailed => "Failed to update profile"
    case ChangePasswordFailed => "Failed to change password"
    case InvalidCredentials => "Invalid credentials"
    case UpdateRecordFailed => "Failed to update maintenance record"
    case UpdateCarFailed => "Failed to update car"
    case CreateRecordFailed => "Failed to create maintenance record"
    case CreateCarFailed => "Failed to create car"
    case UserExists => "User already exists"
    case MissingFields => "Missing required fields"
    case PlateExists => "License plate already exists"
    case WrongPassword => "Current password is incorrect"
    case PasswordsRequired => "Current and new password are required"
    case CreateUserFailed => "Failed to create user"
    case CarCreated => "Car created successfully"
    case CarUpdated => "Car updated successfully"
    case CarDeleted => "Car deleted successfully"
    case RecordCreated => "Maintenance record created successfully"
    case RecordUpdated => "Maintenance record updated successfully"
    case RecordDeleted => "Maintenance record deleted successfully"
    case ProfileUpdated => "Profile updated successfully"
    case PasswordChanged => "Password changed successfully"
    case UserCreated => "User created successfully"
    case LoginSucceeded => "Login successful"
  }

  /** A reply: a success status with the reply's `message` and its data, or
      an error status with `error`. */
  datatype Reply<T> = Ok(status: nat, message: Message, data: T) | Fail(status: nat, error: Message)

  /** `{ count, cars }` / `{ count, records }`: the count and the documents by id. */
  datatype Listing = Listing(count: nat, items: map<Id, Object>)

  /** A document with its id, as `{ car }` / `{ record }` carry it. */
  datatype Stored = Stored(id: Id, doc: Object)

  /** The password hashing library. `salt` stands for the random salt a
      fresh hash is made with. */
  datatype Crypto = Crypto(hash: (string, string) -> string, matches: (string, string) -> bool)

  /** What bcrypt guarantees: a password matches every hash made from it,
      and a hash is 60 characters long. */
  ghost predicate Sound(c: Crypto)
  {
    forall p, salt :: c.matches(p, c.hash(p, salt)) && |c.hash(p, salt)| == 60
  }

  /** The claims a token is signed with. */
  datatype TokenPayload = TokenPayload(id: string, email: string, username: string)

  /** userController's toPublicUser. */
  datatype Profile = Profile(id: Id, email: string, profilePic: string)

  /** authController's toPublicUser. */
  datatype Account = Account(id: Id, email: string, fullName: string, profilePic: string)

  /** `{ token, user }` of register and login. */
  datatype Session = Session(token: TokenPayload, user: Account)

  /** `user.profilePic ?? ''`. */
  function PicOrEmpty(u: User): string
  {
    if u.profilePic.Some? then u.profilePic.value else ""
  }

  /** userController's toPublicUser: id, email and picture, '' for a missing
      picture; it does not depend on the password or the name. */
  function ProfileView(id: Id, u: User): (p: Profile)
    ensures p.id == id && p.email == u.email
    ensures p.profilePic == (if u.profilePic.Some? then u.profilePic.value else "")
  {
    Profile(id, u.email, PicOrEmpty(u))
  }

  /** authController's toPublicUser: id, email, name and picture, '' for a
      missing picture; it does not depend on the password. */
  function AccountView(id: Id, u: User): (a: Account)
    ensures a.id == id && a.email == u.email && a.fullName == u.fullName
    ensures a.profilePic == (if u.profilePic.Some? then u.profilePic.value else "")
  {
    Account(id, u.email, u.fullName, PicOrEmpty(u))
  }

  /** The public profile shows neither the password hash nor the name:
      users that differ only in those have the same profile. */
  lemma ProfileViewHidesPassword(id: Id, u: User, password: string, fullName: string)
    ensures ProfileView(id, u.(password := password, fullName := fullName)) == ProfileView(id, u)
    ensures ProfileView(id, u).email == u.email && (u.profilePic.None? ==> ProfileView(id, u).profilePic == "")
  {
  }

  /** The public account never shows the password hash, and it agrees with
      the public profile on id, email and picture. */
  lemma AccountViewHidesPassword(id: Id, u: User, password: string)
    ensures AccountView(id, u.(password := password)) == AccountView(id, u)
    ensures var a := AccountView(id, u); var p := ProfileView(id, u);
      a.id == p.id && a.email == p.email && a.profilePic == p.profilePic && a.fullName == u.fullName
  {
  }

  /** A document belongs to a user when its userId is that user's id. */
  predicate OwnedBy(d: Object, uid: string)
  {
    "userId" in d && d["userId"] == JStr(uid)
  }

  /** The filtered lookup of a list handler: the documents matching the
      filter by value on every filter key. */
  predicate MatchesFilter(d: Object, filter: Object)
  {
    forall k :: k in filter ==> k in d && d[k] == filter[k]
  }

  //---------------------------------------------------------------------------
  // Documents built by the handlers
  //---------------------------------------------------------------------------

  /** The document createCar asks the store to create: the owner from the
      token, brand, model from the body's carModel, year and color; a
      property whose value is undefined is left out. */
  function NewCarDoc(uid: string, body: Object): (d: Object)
    ensures d.Keys <= CarPaths
    ensures "userId" in d && d["userId"] == JStr(uid)
    ensures ("model" in d <==> "carModel" in body) && ("carModel" in body ==> d["model"] == body["carModel"])
    ensures forall k :: k in {"brand", "year", "color"} ==> (k in d <==> k in body) && (k in body ==> d[k] == body[k])
  {
    var d0 := map["userId" := JStr(uid)];
    var d1 := Put(d0, "brand", Get(body, "brand"));
    var d2 := Put(d1, "model", Get(body, "carModel"));
    var d3 := Put(d2, "year", Get(body, "year"));
    Put(d3, "color", Get(body, "color"))
  }

  /** updateCar's `updateData`: a copy of the body in which a truthy carModel
      moves to `model`; every other key passes through unchanged. */
  function RenameCarModel(body: Object): (r: Object)
    ensures Truthy(Get(body, "carModel")) ==> "carModel" !in r && "model" in r && r["model"] == body["carModel"]
    ensures !Truthy(Get(body, "carModel")) ==> r == body
    ensures forall k :: k != "model" && k != "carModel" ==> (k in r <==> k in body) && (k in body ==> r[k] == body[k])
  {
    if Truthy(Get(body, "carModel")) then (body["model" := body["carModel"]]) - {"carModel"}
    else body
  }

  /** The fields of the body createMaintenance copies into its document
      besides cost and date. It also copies `attachments`, which is not a path
      of the schema and is dropped. */
  const CopiedRecordFields: set<string> :=
    {"carId", "type", "description", "mileage", "nextDueDate", "nextDueMileage", "notes"}

  /** The document createMaintenance asks the store to create, after the
      schema has filled in its defaults: the owner from the token, cost
      `?? 0`, date `?? now`, notes '' when missing, the other copied fields
      of the body as given, and nothing else of the body. */
  function NewRecordDoc(uid: string, body: Object, now: Json): (d: Object)
    ensures d.Keys <= MaintenancePaths && "attachments" !in d
    ensures "userId" in d && d["userId"] == JStr(uid)
    ensures "cost" in d && d["cost"] == Coalesce(Get(body, "cost"), JNum(0.0))
    ensures "date" in d && d["date"] == Coalesce(Get(body, "date"), now)
    ensures "notes" in d && d["notes"] == (if "notes" in body then body["notes"] else JStr(""))
  {
    var copied := map k | k in body && k in CopiedRecordFields :: body[k];
    var owned := copied["userId" := JStr(uid)];
    var costed := owned["cost" := Coalesce(Get(body, "cost"), JNum(0.0))];
    WithMaintenanceDefaults(costed["date" := Coalesce(Get(body, "date"), now)], now)
  }

  /** A body whose date is '' gives a record the schema refuses: the Date
      cast makes it null and the path is required. */
  lemma EmptyDateRefused(uid: string, body: Object, now: Json)
    requires "date" in body && body["date"] == JStr("")
    ensures !MaintenanceValid(NewRecordDoc(uid, body, now))
  {
    var d := NewRecordDoc(uid, body, now);
    assert d["date"] == JStr("");
    assert !MaintenanceFieldOk("date", d["date"]);
  }

  /** The other copied fields of the body reach the new record as given. */
  lemma NewRecordDocCopies(uid: string, body: Object, now: Json, k: string)
    requires k in CopiedRecordFields && k != "notes"
    ensures k in NewRecordDoc(uid, body, now) <==> k in body
    ensures k in body ==> NewRecordDoc(uid, body, now)[k] == body[k]
  {
  }

  /** createMaintenance's presence check: carId, type and description
      truthy, mileage defined (so a mileage of 0 passes). */
  predicate HasRequiredRecordFields(body: Object)
  {
    Truthy(Get(body, "carId")) && Truthy(Get(body, "type")) && Truthy(Get(body, "description")) && "mileage" in body
  }

  /** maintenanceController's getUserId, `req.user?.id || req.user?.userId`,
      reduced to the id the handlers go on with: none when both are falsy. */
  function GetUserId(user: Option<Claims>): (r: Option<string>)
    ensures r.Some? ==> r.value != ""
    ensures user.Some? && user.value.id.Some? && user.value.id.value != "" ==> r == user.value.id
    ensures (user.Some? && !(user.value.id.Some? && user.value.id.value != "")
             && user.value.userId.Some? && user.value.userId.value != "") ==> r == user.value.userId
    ensures r.None? <==> user.None? || ((user.value.id.None? || user.value.id.value == "")
                                        && (user.value.userId.None? || user.value.userId.value == ""))
  {
    if user.None? then None
    else if user.value.id.Some? && user.value.id.value != "" then user.value.id
    else if user.value.userId.Some? && user.value.userId.value != "" then user.value.userId
    else None
  }

  /** The claims verifyToken (utils/jwt.ts) rebuilds from a token signed
      with `p`: id, email and username, never a `userId`. */
  function VerifiedClaims(p: TokenPayload): Claims
  {
    Claims(Some(p.id), None, Some(p.email), Some(p.username))
  }

  /** A token issued by register or login identifies its user to the
      maintenance handlers: getUserId yields the id the token was signed
      with, and its `userId` fallback never applies. */
  lemma IssuedTokenIdentifiesUser(p: TokenPayload)
    ensures p.id != "" ==> GetUserId(Some(VerifiedClaims(p))) == Some(p.id)
    ensures p.id == "" ==> GetUserId(Some(VerifiedClaims(p))).None?
  {
  }

  /** `fullName?.trim() || email.split('@')[0]`. */
  function ResolveName(fullName: Option<string>, email: string): (r: string)
    ensures fullName.Some? && Trim(fullName.value) != "" ==> r == Trim(fullName.value)
    ensures (fullName.None? || Trim(fullName.value) == "") ==> r == Split(email, '@')[0]
  {
    if fullName.Some? && Trim(fullName.value) != "" then Trim(fullName.value)
    else Split(email, '@')[0]
  }

  /** The derived name is the text of the email before its first '@'. */
  lemma NameFromEmail(local: string, domain: string)
    requires '@' !in local
    ensures ResolveName(None, local + "@" + domain) == local
    ensures ResolveName(Some(" \t "), local + "@" + domain) == local
  {
    SplitAfter(local, '@', domain);
    assert local + "@" + domain == local + ['@'] + domain;
    assert AllSpace(" \t ");
    TrimEmptyIffAllSpace(" \t ");
  }

  /** A resolved name is empty exactly when no non-blank fullName was given
      and the email has nothing before its first '@'. */
  lemma ResolveNameEmpty(fullName: Option<string>, email: string)
    ensures ResolveName(fullName, email) == "" <==>
      (fullName.None? || AllSpace(fullName.value)) && (email == "" || email[0] == '@')
  {
    if fullName.Some? {
      TrimEmptyIffAllSpace(fullName.value);
    }
    SplitFirst(email, '@');
    if '@' in email {
      var i := IndexOf(email, '@');
      assert email[..i] == "" <==> i == 0;
    }
  }

  /** A name taken from fullName is stored trimmed and is never empty. */
  lemma ResolvedNameIsTrimmed(fullName: Option<string>, email: string)
    ensures fullName.Some? && !AllSpace(fullName.value) ==>
      ResolveName(fullName, email) != "" && Trim(ResolveName(fullName, email)) == ResolveName(fullName, email)
  {
    if fullName.Some? {
      TrimEmptyIffAllSpace(fullName.value);
      TrimIdempotent(fullName.value);
    }
  }

  /** A login that succeeds against `users`: a user with that email whose
      stored hash the password matches. */
  ghost predicate AuthenticatesIn(users: map<Id, User>, id: Id, email: string, password: string, c: Crypto)
  {
    id in users && users[id].email == email && c.matches(password, users[id].password)
  }

  //---------------------------------------------------------------------------
  // What the routes and the handlers give together
  //---------------------------------------------------------------------------

  /** A body createCarSchema accepts always yields a document the car schema
      accepts, for a requester with an id: behind its route, createCar never
      fails with 500. */
  lemma ValidatedCarBodyIsStorable(o: Oracles, body: Object, uid: string)
    requires uid != ""
    requires ParseObject(o, CreateCarShape, JObj(body)).Success?
    ensures CarValid(NewCarDoc(uid, ParseObject(o, CreateCarShape, JObj(body)).data.fields))
  {
    CreateCarSchemaSpec(o, body);
    ParseObjectSpec(o, CreateCarShape, JObj(body));
    CarShapeNames();
    var data := ParseObject(o, CreateCarShape, JObj(body)).data.fields;
    assert data == Strip(CreateCarShape, body);
    assert "brand" in data && "carModel" in data && "year" in data;
    var d := NewCarDoc(uid, data);
    assert d["brand"] == body["brand"] && d["model"] == body["carModel"] && d["year"] == body["year"];
  }

  /** A body updateCarSchema accepts passes the update validators and never
      writes userId: behind its route, updateCar neither fails with 500 nor
      hands the car to another user. */
  lemma ValidatedCarUpdateKeepsOwner(o: Oracles, body: Object, d: Object, uid: string)
    requires ParseObject(o, UpdateCarShape, JObj(body)).Success?
    requires CarValid(d) && OwnedBy(d, uid)
    ensures var upd := RenameCarModel(ParseObject(o, UpdateCarShape, JObj(body)).data.fields);
      CarUpdateOk(upd) && "userId" !in upd && OwnedBy(Overlay(d, upd, CarPaths), uid)
  {
    UpdateCarData(o, body);
    RenamedUpdateKeepsOwner(ParseObject(o, UpdateCarShape, JObj(body)).data.fields, d, uid);
  }

  /** What updateCarSchema lets through: a non-empty brand and model, a year
      the server accepts, a string colour if any, and no other car field. */
  lemma UpdateCarData(o: Oracles, body: Object)
    requires ParseObject(o, UpdateCarShape, JObj(body)).Success?
    ensures var data := ParseObject(o, UpdateCarShape, JObj(body)).data.fields;
      && NonEmptyString(Get(data, "brand")) && NonEmptyString(Get(data, "carModel"))
      && ServerYearOk(Get(data, "year")) && OptionalStringValue(Get(data, "color"))
      && data.Keys <= {"id", "brand", "carModel", "year", "color"}
  {
    assert NonEmptyString(Get(body, "brand")) && NonEmptyString(Get(body, "carModel"))
      && ServerYearOk(Get(body, "year")) && OptionalStringValue(Get(body, "color")) by {
      UpdateCarSchemaSpec(o, body);
      CreateCarSchemaSpec(o, body);
    }
    var data := Strip(UpdateCarShape, body);
    assert ParseObject(o, UpdateCarShape, JObj(body)).data.fields == data by {
      ParseObjectSpec(o, UpdateCarShape, JObj(body));
    }
    CarShapeNames();
    assert Get(data, "brand") == Get(body, "brand") && Get(data, "carModel") == Get(body, "carModel");
    assert Get(data, "year") == Get(body, "year") && Get(data, "color") == Get(body, "color");
  }

  /** An update with those fields, carModel renamed, passes the validators
      and leaves the owner alone. */
  lemma RenamedUpdateKeepsOwner(data: Object, d: Object, uid: string)
    requires NonEmptyString(Get(data, "brand")) && NonEmptyString(Get(data, "carModel"))
    requires ServerYearOk(Get(data, "year")) && OptionalStringValue(Get(data, "color"))
    requires data.Keys <= {"id", "brand", "carModel", "year", "color"}
    requires CarValid(d) && OwnedBy(d, uid)
    ensures var upd := RenameCarModel(data);
      CarUpdateOk(upd) && "userId" !in upd && OwnedBy(Overlay(d, upd, CarPaths), uid)
  {
    var upd := RenameCarModel(data);
    assert "userId" !in upd;
    assert "model" in upd && upd["model"] == data["carModel"];
  }

  /** updateMaintenance checks the owner of the record but not of what the
      body writes: a record can be moved to any car id and to any user. */
  lemma UpdateMayReassignRecord(rec: Object, carId: string, uid: string)
    requires MaintenanceValid(rec) && carId != "" && uid != ""
    ensures var body := map["carId" := JStr(carId), "userId" := JStr(uid)];
      && MaintenanceUpdateOk(body)
      && var updated := Overlay(rec, body, MaintenancePaths);
      && MaintenanceValid(updated) && updated["carId"] == JStr(carId) && OwnedBy(updated, uid)
  {
    var body := map["carId" := JStr(carId), "userId" := JStr(uid)];
    assert MaintenanceUpdateOk(body);
    MaintenanceUpdatePreservesValid(rec, body);
  }

  /** Register then login: with a sound hashing library, the user register
      stores is the one user its email and password log in as. */
  lemma {:induction false} RegisteredUserLogsIn(users: map<Id, User>, newId: Id, email: string,
                                               name: string, password: string, salt: string, c: Crypto)
    requires Sound(c)
    requires forall other :: other in users ==> users[other].email != email
    ensures var stored := users[newId := NewUser(email, name, c.hash(password, salt))];
      && AuthenticatesIn(stored, newId, email, password, c)
      && forall id :: AuthenticatesIn(stored, id, email, password, c) ==> id == newId
  {
    assert c.matches(password, c.hash(password, salt));
  }

  /** With bcrypt's 60-character hashes, a registration with an email and a
      non-empty name always gives a user the schema accepts, so register never
      answers 500 for it. */
  lemma SoundHashIsStorable(email: string, name: string, password: string, salt: string, c: Crypto)
    requires Sound(c) && email != "" && name != ""
    ensures UserValid(NewUser(email, name, c.hash(password, salt)))
  {
    assert |c.hash(password, salt)| == 60;
    NewUserValid(email, name, c.hash(password, salt));
  }

  /** After changePassword, the new password logs in and the email is the same. */
  lemma ChangedPasswordLogsIn(users: map<Id, User>, uid: Id, next: string, salt: string, c: Crypto)
    requires Sound(c) && uid in users
    ensures AuthenticatesIn(users[uid := users[uid].(password := c.hash(next, salt))], uid, users[uid].email, next, c)
  {
    assert c.matches(next, c.hash(next, salt));
  }

  //---------------------------------------------------------------------------
  // The store
  //---------------------------------------------------------------------------

  /** Every stored user, car and record satisfies its schema. */
  predicate UsersValid(users: map<Id, User>)
  {
    forall id :: id in users ==> UserValid(users[id])
  }

  predicate CarsValid(cars: map<Id, Object>)
  {
    forall id :: id in cars ==> CarValid(cars[id])
  }

  predicate RecordsValid(records: map<Id, Object>)
  {
    forall id :: id in records ==> MaintenanceValid(records[id])
  }

  /** Storing a user that satisfies the schema, whose email no other user
      holds, keeps both the schema and the unique index. */
  lemma PutUserKeepsValid(users: map<Id, User>, id: Id, u: User)
    requires UniqueEmails(users) && UsersValid(users) && UserValid(u)
    requires forall other :: other in users && other != id ==> users[other].email != u.email
    ensures UniqueEmails(users[id := u]) && UsersValid(users[id := u])
  {
  }

  /** Rewriting a user without changing the email keeps the unique index. */
  lemma SameEmailKeepsUnique(users: map<Id, User>, id: Id, u: User)
    requires UniqueEmails(users) && id in users && u.email == users[id].email
    ensures forall other :: other in users && other != id ==> users[other].email != u.email
  {
  }

  lemma PutCarKeepsValid(cars: map<Id, Object>, id: Id, d: Object)
    requires CarsValid(cars) && CarValid(d)
    ensures CarsValid(cars[id := d])
  {
  }

  lemma RemoveCarKeepsValid(cars: map<Id, Object>, id: Id)
    requires CarsValid(cars)
    ensures CarsValid(cars - {id})
  {
  }

  lemma PutRecordKeepsValid(records: map<Id, Object>, id: Id, d: Object)
    requires RecordsValid(records) && MaintenanceValid(d)
    ensures RecordsValid(records[id := d])
  {
  }

  lemma RemoveRecordKeepsValid(records: map<Id, Object>, id: Id)
    requires RecordsValid(records)
    ensures RecordsValid(records - {id})
  {
  }

  class Store {
    var users: map<Id, User>
    var cars: map<Id, Object>
    var records: map<Id, Object>

    /** What the schemas and the unique index keep true of the collections. */
    ghost predicate Valid()
      reads this
    {
      UniqueEmails(users) && UsersValid(users) && CarsValid(cars) && RecordsValid(records)
    }

    constructor ()
      ensures Valid()
      ensures users == map[] && cars == map[] && records == map[]
    {
      users := map[];
      cars := map[];
      records := map[];
    }

    //-------------------------------------------------------------------------
    // carController
    //-------------------------------------------------------------------------

    /** getCars: exactly the requester's cars, with their number. The order,
        createdAt descending, is not modelled: cars have no createdAt. */
    method GetCars(uid: string) returns (r: Reply<Listing>)
      ensures r.Ok? && r.status == 200
      ensures r.data.count == |r.data.items|
      ensures forall id :: id in r.data.items <==> id in cars && OwnedBy(cars[id], uid)
      ensures forall id :: id in r.data.items ==> r.data.items[id] == cars[id]
    {
      var found := map id | id in cars && OwnedBy(cars[id], uid) :: cars[id];
      r := Ok(200, NoMessage, Listing(|found|, found));
    }

    /** createCar: stores NewCarDoc under a fresh id and answers 201 with it;
        a document the schema refuses gives 500, an id already taken
        (duplicate key) gives 400. */
    method CreateCar(uid: string, body: Object, newId: Id) returns (r: Reply<Stored>)
      requires Valid()
      modifies this
      ensures Valid()
      ensures users == old(users) && records == old(records)
      ensures !CarValid(NewCarDoc(uid, body)) ==> r == Fail(500, CreateCarFailed) && cars == old(cars)
      ensures CarValid(NewCarDoc(uid, body)) && newId in old(cars) ==>
        r == Fail(400, PlateExists) && cars == old(cars)
      ensures r.Ok? <==> CarValid(NewCarDoc(uid, body)) && newId !in old(cars)
      ensures r.Ok? ==>
        && r.status == 201 && r.message == CarCreated
        && r.data == Stored(newId, NewCarDoc(uid, body)) && OwnedBy(r.data.doc, uid)
        && cars == old(cars)[newId := NewCarDoc(uid, body)]
    {
      var doc := NewCarDoc(uid, body);
      if !CarValid(doc) {
        return Fail(500, CreateCarFailed);
      }
      if newId in cars {
        return Fail(400, PlateExists);
      }
      PutCarKeepsValid(cars, newId, doc);
      cars := cars[newId := doc];
      r := Ok(201, CarCreated, Stored(newId, doc));
    }

    /** getCarById: the car only when both id and owner match; a missing car
        and someone else's car get the same 404. */
    method GetCarById(uid: string, id: Id) returns (r: Reply<Stored>)
      ensures id in cars && OwnedBy(cars[id], uid) ==> r == Ok(200, NoMessage, Stored(id, cars[id]))
      ensures !(id in cars && OwnedBy(cars[id], uid)) ==> r == Fail(404, CarNotFound)
    {
      if id in cars && OwnedBy(cars[id], uid) {
        r := Ok(200, NoMessage, Stored(id, cars[id]));
      } else {
        r := Fail(404, CarNotFound);
      }
    }

    /** updateCar: the update validators run first (500 when they refuse),
        then only the requester's car with that id is changed, by the renamed
        body restricted to the schema paths; no match gives 404. */
    method UpdateCar(uid: string, id: Id, body: Object) returns (r: Reply<Stored>)
      requires Valid()
      modifies this
      ensures Valid()
      ensures users == old(users) && records == old(records)
      ensures var upd := RenameCarModel(body);
        && (!CarUpdateOk(upd) ==> r == Fail(500, UpdateCarFailed) && cars == old(cars))
        && (CarUpdateOk(upd) && !(id in old(cars) && OwnedBy(old(cars)[id], uid)) ==>
              r == Fail(404, CarNotFound) && cars == old(cars))
        && (CarUpdateOk(upd) && id in old(cars) && OwnedBy(old(cars)[id], uid) ==>
              && cars == old(cars)[id := Overlay(old(cars)[id], upd, CarPaths)]
              && r == Ok(200, CarUpdated, Stored(id, cars[id])))
      ensures forall other :: other in old(cars) && other != id ==> other in cars && cars[other] == old(cars)[other]
      ensures cars.Keys == old(cars).Keys
    {
      var upd := RenameCarModel(body);
      if !CarUpdateOk(upd) {
        return Fail(500, UpdateCarFailed);
      }
      if !(id in cars && OwnedBy(cars[id], uid)) {
        return Fail(404, CarNotFound);
      }
      CarUpdatePreservesValid(cars[id], upd);
      var updated := Overlay(cars[id], upd, CarPaths);
      PutCarKeepsValid(cars, id, updated);
      cars := cars[id := updated];
      r := Ok(200, CarUpdated, Stored(id, updated));
    }

    /** deleteCar: removes only the requester's car with that id; no match
        gives 404 and changes nothing. */
    method DeleteCar(uid: string, id: Id) returns (r: Reply<()>)
      requires Valid()
      modifies this
      ensures Valid()
      ensures users == old(users) && records == old(records)
      ensures id in old(cars) && OwnedBy(old(cars)[id], uid) ==>
        r == Ok(200, CarDeleted, ()) && cars == old(cars) - {id}
      ensures !(id in old(cars) && OwnedBy(old(cars)[id], uid)) ==>
        r == Fail(404, CarNotFound) && cars == old(cars)
    {
      if id in cars && OwnedBy(cars[id], uid) {
        RemoveCarKeepsValid(cars, id);
        cars := cars - {id};
        r := Ok(200, CarDeleted, ());
      } else {
        r := Fail(404, CarNotFound);
      }
    }

    //-------------------------------------------------------------------------
    // maintenanceController
    //-------------------------------------------------------------------------

    /** getMaintenance: the requester's records, narrowed to the query's carId
        when it is truthy; 401 without a user id. The order, date descending,
        is not modelled. */
    method GetMaintenance(user: Option<Claims>, query: Object) returns (r: Reply<Listing>)
      ensures GetUserId(user).None? ==> r == Fail(401, Unauthorized)
      ensures GetUserId(user).Some? ==>
        && r.Ok? && r.status == 200 && r.data.count == |r.data.items|
        && (forall id :: id in r.data.items ==> id in records && r.data.items[id] == records[id])
        && (forall id :: id in r.data.items <==>
              id in records && OwnedBy(records[id], GetUserId(user).value)
              && (Truthy(Get(query, "carId")) ==> "carId" in records[id] && records[id]["carId"] == query["carId"]))
    {
      var userId := GetUserId(user);
      if userId.None? {
        return Fail(401, Unauthorized);
      }
      var filter: Object := map["userId" := JStr(userId.value)];
      if Truthy(Get(query, "carId")) {
        filter := filter["carId" := query["carId"]];
      }
      var found := map id | id in records && MatchesFilter(records[id], filter) :: records[id];
      r := Ok(200, NoMessage, Listing(|found|, found));
    }

    /** createMaintenance. 401 without a user id; 400 unless carId, type and
        description are truthy and mileage is defined (0 is accepted); 404
        unless the car is the requester's; then the record NewRecordDoc is
        stored and answered with 201. A document the schema refuses, a carId
        that is not an id and a taken id give 500. */
    method CreateMaintenance(user: Option<Claims>, body: Object, now: Json, newId: Id) returns (r: Reply<Stored>)
      requires Valid()
      modifies this
      ensures Valid()
      ensures users == old(users) && cars == old(cars)
      ensures r.Fail? ==> records == old(records)
      ensures GetUserId(user).None? ==> r == Fail(401, Unauthorized)
      ensures GetUserId(user).Some? && !HasRequiredRecordFields(body) ==> r == Fail(400, MissingFields)
      ensures r.Ok? ==>
        && GetUserId(user).Some?
        && var uid := GetUserId(user).value;
        && "mileage" in body && body["carId"].JStr?
        && body["carId"].s in cars && OwnedBy(cars[body["carId"].s], uid)
        && r == Ok(201, RecordCreated, Stored(newId, NewRecordDoc(uid, body, now)))
        && newId !in old(records) && records == old(records)[newId := NewRecordDoc(uid, body, now)]
      ensures (GetUserId(user).Some? && HasRequiredRecordFields(body) && body["carId"].JStr?
          && !(body["carId"].s in cars && OwnedBy(cars[body["carId"].s], GetUserId(user).value))) ==>
        r == Fail(404, CarNotFound)
      ensures GetUserId(user).Some? && HasRequiredRecordFields(body) && !body["carId"].JStr? ==>
        r == Fail(500, CreateRecordFailed)
      ensures (GetUserId(user).Some? && HasRequiredRecordFields(body) && body["carId"].JStr?
          && body["carId"].s in cars && OwnedBy(cars[body["carId"].s], GetUserId(user).value)) ==>
        if MaintenanceValid(NewRecordDoc(GetUserId(user).value, body, now)) && newId !in old(records)
        then r.Ok? else r == Fail(500, CreateRecordFailed)
    {
      var userId := GetUserId(user);
      if userId.None? {
        return Fail(401, Unauthorized);
      }
      if !HasRequiredRecordFields(body) {
        return Fail(400, MissingFields);
      }
      var carId := body["carId"];
      if !carId.JStr? {
        return Fail(500, CreateRecordFailed);
      }
      if !(carId.s in cars && OwnedBy(cars[carId.s], userId.value)) {
        return Fail(404, CarNotFound);
      }
      var doc := NewRecordDoc(userId.value, body, now);
      if !MaintenanceValid(doc) || newId in records {
        return Fail(500, CreateRecordFailed);
      }
      PutRecordKeepsValid(records, newId, doc);
      records := records[newId := doc];
      r := Ok(201, RecordCreated, Stored(newId, doc));
    }

    /** getMaintenanceById: the record only when both id and owner match. */
    method GetMaintenanceById(user: Option<Claims>, id: Id) returns (r: Reply<Stored>)
      ensures GetUserId(user).None? ==> r == Fail(401, Unauthorized)
      ensures GetUserId(user).Some? && id in records && OwnedBy(records[id], GetUserId(user).value) ==>
        r == Ok(200, NoMessage, Stored(id, records[id]))
      ensures GetUserId(user).Some? && !(id in records && OwnedBy(records[id], GetUserId(user).value)) ==>
        r == Fail(404, RecordNotFound)
    {
      var userId := GetUserId(user);
      if userId.None? {
        return Fail(401, Unauthorized);
      }
      if id in records && OwnedBy(records[id], userId.value) {
        r := Ok(200, NoMessage, Stored(id, records[id]));
      } else {
        r := Fail(404, RecordNotFound);
      }
    }

    /** updateMaintenance: gated on id and owner, but the body is applied as
        given (restricted to the schema paths), so carId and userId can be
        rewritten without the ownership check createMaintenance makes. */
    method UpdateMaintenance(user: Option<Claims>, id: Id, body: Object) returns (r: Reply<Stored>)
      requires Valid()
      modifies this
      ensures Valid()
      ensures users == old(users) && cars == old(cars)
      ensures GetUserId(user).None? ==> r == Fail(401, Unauthorized) && records == old(records)
      ensures GetUserId(user).Some? && !MaintenanceUpdateOk(body) ==>
        r == Fail(500, UpdateRecordFailed) && records == old(records)
      ensures (GetUserId(user).Some? && MaintenanceUpdateOk(body)
          && !(id in old(records) && OwnedBy(old(records)[id], GetUserId(user).value))) ==>
        r == Fail(404, RecordNotFound) && records == old(records)
      ensures (GetUserId(user).Some? && MaintenanceUpdateOk(body)
          && id in old(records) && OwnedBy(old(records)[id], GetUserId(user).value)) ==>
        && records == old(records)[id := Overlay(old(records)[id], body, MaintenancePaths)]
        && r == Ok(200, RecordUpdated, Stored(id, records[id]))
    {
      var userId := GetUserId(user);
      if userId.None? {
        return Fail(401, Unauthorized);
      }
      if !MaintenanceUpdateOk(body) {
        return Fail(500, UpdateRecordFailed);
      }
      if !(id in records && OwnedBy(records[id], userId.value)) {
        return Fail(404, RecordNotFound);
      }
      MaintenanceUpdatePreservesValid(records[id], body);
      var updated := Overlay(records[id], body, MaintenancePaths);
      PutRecordKeepsValid(records, id, updated);
      records := records[id := updated];
      r := Ok(200, RecordUpdated, Stored(id, updated));
    }

    /** deleteMaintenance: removes only the requester's record with that id. */
    method DeleteMaintenance(user: Option<Claims>, id: Id) returns (r: Reply<()>)
      requires Valid()
      modifies this
      ensures Valid()
      ensures users == old(users) && cars == old(cars)
      ensures GetUserId(user).None? ==> r == Fail(401, Unauthorized) && records == old(records)
      ensures GetUserId(user).Some? && id in old(records) && OwnedBy(old(records)[id], GetUserId(user).value) ==>
        r == Ok(200, RecordDeleted, ()) && records == old(records) - {id}
      ensures GetUserId(user).Some? && !(id in old(records) && OwnedBy(old(records)[id], GetUserId(user).value)) ==>
        r == Fail(404, RecordNotFound) && records == old(records)
    {
      var userId := GetUserId(user);
      if userId.None? {
        return Fail(401, Unauthorized);
      }
      if id in records && OwnedBy(records[id], userId.value) {
        RemoveRecordKeepsValid(records, id);
        records := records - {id};
        r := Ok(200, RecordDeleted, ());
      } else {
        r := Fail(404, RecordNotFound);
      }
    }

    //-------------------------------------------------------------------------
    // userController
    //-------------------------------------------------------------------------

    /** getProfile. */
    method GetProfile(uid: Id) returns (r: Reply<Profile>)
      ensures uid in users ==> r == Ok(200, NoMessage, ProfileView(uid, users[uid]))
      ensures uid !in users ==> r == Fail(404, UserNotFound)
    {
      if uid !in users {
        return Fail(404, UserNotFound);
      }
      r := Ok(200, NoMessage, ProfileView(uid, users[uid]));
    }

    /** The user after updateProfile's `{ email, profilePic }` update: only
        the two fields the body defines change. */
    static function ProfileUpdate(u: User, body: Object): (v: User)
      requires "email" in body ==> body["email"].JStr?
      requires "profilePic" in body ==> body["profilePic"].JStr? || body["profilePic"] == JNull
      ensures v.password == u.password && v.fullName == u.fullName
      ensures v.email == (if "email" in body then body["email"].s else u.email)
      ensures "profilePic" !in body ==> v.profilePic == u.profilePic
      ensures "profilePic" in body ==> v.profilePic == (if body["profilePic"] == JNull then None else Some(body["profilePic"].s))
    {
      var withEmail := if "email" in body then u.(email := body["email"].s) else u;
      if "profilePic" !in body then withEmail
      else if body["profilePic"] == JNull then withEmail.(profilePic := None)
      else withEmail.(profilePic := Some(body["profilePic"].s))
    }

    /** The update validators of updateProfile: an email that is set must be
        a non-empty string (it is required), a picture a string or null. */
    static predicate ProfileUpdateOk(body: Object)
    {
      && ("email" in body ==> body["email"].JStr? && body["email"].s != "")
      && ("profilePic" in body ==> body["profilePic"].JStr? || body["profilePic"] == JNull)
    }

    /** Another user than `uid` already has this email. */
    ghost predicate EmailTaken(email: string, uid: Id)
      reads this
    {
      exists other :: other in users && other != uid && users[other].email == email
    }

    /** updateProfile: validators first (500), then 404 for a missing user,
        then 500 for an email another user holds (the unique index); on
        success only email and profilePic change. */
    method UpdateProfile(uid: Id, body: Object) returns (r: Reply<Profile>)
      requires Valid()
      modifies this
      ensures Valid()
      ensures cars == old(cars) && records == old(records)
      ensures r.Fail? ==> users == old(users)
      ensures !ProfileUpdateOk(body) ==> r == Fail(500, UpdateProfileFailed)
      ensures ProfileUpdateOk(body) && uid !in old(users) ==> r == Fail(404, UserNotFound)
      ensures r.Ok? ==>
        && ProfileUpdateOk(body) && uid in old(users)
        && users == old(users)[uid := ProfileUpdate(old(users)[uid], body)]
        && r == Ok(200, ProfileUpdated, ProfileView(uid, users[uid]))
      ensures ProfileUpdateOk(body) && uid in old(users) && !r.Ok? ==>
        r == Fail(500, UpdateProfileFailed) && "email" in body && old(EmailTaken(body["email"].s, uid))
    {
      if !ProfileUpdateOk(body) {
        return Fail(500, UpdateProfileFailed);
      }
      if uid !in users {
        return Fail(404, UserNotFound);
      }
      var updated := ProfileUpdate(users[uid], body);
      if "email" in body {
        var taken := exists other :: other in users && other != uid && users[other].email == updated.email;
        if taken {
          return Fail(500, UpdateProfileFailed);
        }
      } else {
        SameEmailKeepsUnique(users, uid, updated);
      }
      PutUserKeepsValid(users, uid, updated);
      users := users[uid := updated];
      r := Ok(200, ProfileUpdated, ProfileView(uid, updated));
    }

    /** changePassword. 400 when either password is falsy, before any lookup;
        404 for a missing user; 400 when the current password does not match
        the stored hash, which stays; otherwise the hash of the new password
        is stored. A non-string password is refused by the library (500). */
    method ChangePassword(uid: Id, body: Object, c: Crypto, salt: string) returns (r: Reply<()>)
      requires Valid()
      modifies this
      ensures Valid()
      ensures cars == old(cars) && records == old(records)
      ensures r.Fail? ==> users == old(users)
      ensures !Truthy(Get(body, "currentPassword")) || !Truthy(Get(body, "newPassword")) ==>
        r == Fail(400, PasswordsRequired)
      ensures Truthy(Get(body, "currentPassword")) && Truthy(Get(body, "newPassword")) && uid !in old(users) ==>
        r == Fail(404, UserNotFound)
      ensures (Truthy(Get(body, "currentPassword")) && Truthy(Get(body, "newPassword")) && uid in old(users)
          && body["currentPassword"].JStr? && !c.matches(body["currentPassword"].s, old(users)[uid].password)) ==>
        r == Fail(400, WrongPassword)
      ensures r.Ok? ==>
        && uid in old(users) && body["currentPassword"].JStr? && body["newPassword"].JStr?
        && c.matches(body["currentPassword"].s, old(users)[uid].password)
        && users == old(users)[uid := old(users)[uid].(password := c.hash(body["newPassword"].s, salt))]
        && r == Ok(200, PasswordChanged, ())
      ensures (Sound(c) && Truthy(Get(body, "currentPassword")) && body["currentPassword"].JStr?
          && Truthy(Get(body, "newPassword")) && body["newPassword"].JStr? && uid in old(users)
          && c.matches(body["currentPassword"].s, old(users)[uid].password)) ==> r.Ok?
    {
      var current := Get(body, "currentPassword");
      var next := Get(body, "newPassword");
      if !Truthy(current) || !Truthy(next) {
        return Fail(400, PasswordsRequired);
      }
      if uid !in users {
        return Fail(404, UserNotFound);
      }
      if !current.value.JStr? {
        return Fail(500, ChangePasswordFailed);
      }
      if !c.matches(current.value.s, users[uid].password) {
        return Fail(400, WrongPassword);
      }
      if !next.value.JStr? {
        return Fail(500, ChangePasswordFailed);
      }
      var hashed := c.hash(next.value.s, salt);
      if |hashed| < MinStoredPasswordLength {
        return Fail(500, ChangePasswordFailed);
      }
      var updated := users[uid].(password := hashed);
      SameEmailKeepsUnique(users, uid, updated);
      PutUserKeepsValid(users, uid, updated);
      users := users[uid := updated];
      r := Ok(200, PasswordChanged, ());
    }

    //-------------------------------------------------------------------------
    // authController
    //-------------------------------------------------------------------------

    /** `User.findOne({ email })`: with unique emails, the one user with it. */
    method FindByEmail(email: string) returns (id: Option<Id>)
      ensures id.Some? ==> id.value in users && users[id.value].email == email
      ensures id.None? ==> forall u :: u in users ==> users[u].email != email
    {
      if exists u :: u in users && users[u].email == email {
        var u :| u in users && users[u].email == email;
        id := Some(u);
      } else {
        id := None;
      }
    }

    /** register: 400 `Validation failed` for a body registerSchema refuses or
        a name that resolves to ''; 400 `User already exists` for a taken
        email; otherwise the user is stored with the hash of the password
        (never the password) and answered with 201, a token for the new id,
        email and name, and the public user. */
    method Register(body: Json, o: Oracles, c: Crypto, salt: string, newId: Id) returns (r: Reply<Session>)
      requires Valid()
      modifies this
      ensures Valid()
      ensures cars == old(cars) && records == old(records)
      ensures r.Fail? ==> users == old(users)
      ensures ParseObject(o, RegisterShape, body).Failure? ==> r == Fail(400, ValidationFailed)
      ensures r.Ok? ==>
        && ParseObject(o, RegisterShape, body).Success?
        && body.JObj? && "email" in body.fields && body.fields["email"].JStr?
        && "password" in body.fields && body.fields["password"].JStr?
        && var email := body.fields["email"].s;
           var name := ResolveName(AsString(Get(body.fields, "fullName")), email);
           var u := NewUser(email, name, c.hash(body.fields["password"].s, salt));
        && name != ""
        && (forall other :: other in old(users) ==> old(users)[other].email != email)
        && newId !in old(users) && users == old(users)[newId := u]
        && r == Ok(201, UserCreated, Session(TokenPayload(newId, email, name), AccountView(newId, u)))
      ensures (ParseObject(o, RegisterShape, body).Success? && body.JObj? && body.fields["email"].JStr?
          && (exists other :: other in old(users) && old(users)[other].email == body.fields["email"].s)
          && ResolveName(AsString(Get(body.fields, "fullName")), body.fields["email"].s) != "") ==>
        r == Fail(400, UserExists)
      ensures (ParseObject(o, RegisterShape, body).Success? && body.JObj? && "email" in body.fields
          && body.fields["email"].JStr?
          && ResolveName(AsString(Get(body.fields, "fullName")), body.fields["email"].s) == "") ==>
        r == Fail(400, ValidationFailed)
      ensures (ParseObject(o, RegisterShape, body).Success? && body.JObj?
          && "email" in body.fields && body.fields["email"].JStr?
          && "password" in body.fields && body.fields["password"].JStr?
          && var email := body.fields["email"].s;
             var name := ResolveName(AsString(Get(body.fields, "fullName")), email);
          && name != ""
          && (forall other :: other in old(users) ==> old(users)[other].email != email)) ==>
        var email := body.fields["email"].s;
        var name := ResolveName(AsString(Get(body.fields, "fullName")), email);
        if UserValid(NewUser(email, name, c.hash(body.fields["password"].s, salt))) && newId !in old(users)
        then r.Ok? else r == Fail(500, CreateUserFailed)
    {
      var parsed := ParseObject(o, RegisterShape, body);
      if parsed.Failure? {
        return Fail(400, ValidationFailed);
      }
      ParseObjectSpec(o, RegisterShape, body);
      RegisterSchemaSpec(o, body.fields);
      var data := parsed.data.fields;
      assert data == Strip(RegisterShape, body.fields);
      assert RegisterShape[0].name == "email" && RegisterShape[1].name == "password" && RegisterShape[2].name == "fullName";
      assert "email" in Names(RegisterShape) && "password" in Names(RegisterShape) && "fullName" in Names(RegisterShape);
      var email := data["email"].s;
      var password := data["password"].s;
      var name := ResolveName(AsString(Get(data, "fullName")), email);
      assert Get(data, "fullName") == Get(body.fields, "fullName");
      if name == "" {
        return Fail(400, ValidationFailed);
      }
      var existing := FindByEmail(email);
      if existing.Some? {
        return Fail(400, UserExists);
      }
      var u := NewUser(email, name, c.hash(password, salt));
      if !UserValid(u) || newId in users {
        return Fail(500, CreateUserFailed);
      }
      PutUserKeepsValid(users, newId, u);
      users := users[newId := u];
      r := Ok(201, UserCreated, Session(TokenPayload(newId, email, name), AccountView(newId, u)));
    }

    /** A login attempt that succeeds: a stored user with that email whose
        hash the password matches. */
    ghost predicate Authenticates(id: Id, email: string, password: string, c: Crypto)
      reads this
    {
      AuthenticatesIn(users, id, email, password, c)
    }

    /** login: 400 for a body loginSchema refuses; the same 401 `Invalid
        credentials` for an unknown email and for a wrong password; otherwise
        a token for the user's id, email and name, and the public user. */
    method Login(body: Json, o: Oracles, c: Crypto) returns (r: Reply<Session>)
      requires Valid()
      ensures ParseObject(o, LoginShape, body).Failure? ==> r == Fail(400, ValidationFailed)
      ensures ParseObject(o, LoginShape, body).Success? ==>
        && body.JObj? && "email" in body.fields && body.fields["email"].JStr?
        && "password" in body.fields && body.fields["password"].JStr?
        && var email := body.fields["email"].s;
           var password := body.fields["password"].s;
        && ((forall id :: !Authenticates(id, email, password, c)) ==> r == Fail(401, InvalidCredentials))
        && (forall id :: Authenticates(id, email, password, c) ==>
              r == Ok(200, LoginSucceeded, Session(TokenPayload(id, email, users[id].fullName), AccountView(id, users[id]))))
    {
      var parsed := ParseObject(o, LoginShape, body);
      if parsed.Failure? {
        return Fail(400, ValidationFailed);
      }
      ParseObjectSpec(o, LoginShape, body);
      LoginSchemaSpec(o, body.fields);
      var data := parsed.data.fields;
      assert LoginShape[0].name == "email" && LoginShape[1].name == "password";
      assert "email" in Names(LoginShape) && "password" in Names(LoginShape);
      var email := data["email"].s;
      var password := data["password"].s;
      assert email == body.fields["email"].s && password == body.fields["password"].s;
      var found := FindByEmail(email);
      if found.None? {
        return Fail(401, InvalidCredentials);
      }
      var u := users[found.value];
      assert forall id :: id in users && users[id].email == email ==> id == found.value;
      if !c.matches(password, u.password) {
        return Fail(401, InvalidCredentials);
      }
      assert Authenticates(found.value, email, password, c);
      r := Ok(200, LoginSucceeded, Session(TokenPayload(found.value, u.email, u.fullName), AccountView(found.value, u)));
    }
  }
}
