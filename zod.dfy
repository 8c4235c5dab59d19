/** The zod object schemas the server applies to request bodies: the car
    schemas of carRoutes.ts, the profile and password schemas of
    userRoutes.ts and the register and login schemas of authController.ts.
    An object schema checks each declared field in order, collects one issue
    per failing field, and on success returns the input restricted to the
    declared fields (zod strips unknown keys). */
module Zod {
  import opened Json
  import opened Text

  /** One problem found by a schema: the path to the value and a message. */
  datatype Issue = Issue(path: seq<string>, message: string)

  /** The result of `schema.safeParse(value)`. */
  datatype SafeParse = Success(data: Json) | Failure(issues: seq<Issue>)

  /** The library checks the application cannot see: `z.email()`'s address
      pattern and the length of the bytes a base64 text decodes to. */
  datatype Oracles = Oracles(isEmail: string -> bool, decodedSize: string -> nat)

  /** Stands for zod's own wording of a type or union failure. */
  const InvalidInput: string := "Invalid input"

  /** The check on one field's value. */
  datatype Rule =
    | Str(min: nat, tooShort: string)        // z.string().min(min, tooShort)
    | Num(least: real, tooSmall: string)     // z.number().min(least, tooSmall)
    | Email(invalid: string)                 // z.email(invalid)
    | HexId(invalid: string)                 // z.string().refine(24 hex digits, invalid)
    | ImageOrEmpty                           // the profile picture union

  datatype Field = Field(name: string, rule: Rule, optional: bool)

  type Shape = seq<Field>

  //---------------------------------------------------------------------------
  // The string tests used by the refinements
  //---------------------------------------------------------------------------

  predicate IsHexDigit(c: char)
  {
    ('0' <= c <= '9') || ('a' <= c <= 'f') || ('A' <= c <= 'F')
  }

  /** `/^[a-fA-F0-9]{24}$/`: exactly 24 hex digits of either case. */
  predicate IsHex24(s: string)
  {
    |s| == 24 && forall i :: 0 <= i < |s| ==> IsHexDigit(s[i])
  }

  const ImageFormats: seq<string> := ["png", "jpeg", "jpg", "webp", "gif"]

  function ImagePrefix(format: string): string
  {
    "data:image/" + format + ";base64,"
  }

  /** `/^data:image\/(png|jpeg|jpg|webp|gif);base64,/`. */
  predicate HasImagePrefix(s: string)
  {
    exists i :: 0 <= i < |ImageFormats| && ImagePrefix(ImageFormats[i]) <= s
  }

  /** MAX_FILE_SIZE: 5 MB. */
  const MaxFileSize: nat := 5 * 1024 * 1024

  /** The text between the first and the second comma, when there is one. */
  function SecondSegment(s: string): Option<string>
  {
    var parts := Split(s, ',');
    if |parts| >= 2 then Some(parts[1]) else None
  }

  /** The size refinement: the second comma-separated segment is present,
      not empty, and decodes to at most MaxFileSize bytes. */
  predicate SmallEnough(o: Oracles, s: string)
  {
    var seg := SecondSegment(s);
    seg.Some? && seg.value != "" && o.decodedSize(seg.value) <= MaxFileSize
  }

  /** The profile picture union: a data URI of an image that passes both
      refinements, or the empty string. */
  predicate ImageOrEmptyOk(o: Oracles, s: string)
  {
    s == "" || (HasImagePrefix(s) && SmallEnough(o, s))
  }

  //---------------------------------------------------------------------------
  // Acceptance of one value, stated directly
  //---------------------------------------------------------------------------

  predicate RuleOk(o: Oracles, rule: Rule, v: Json)
  {
    match rule
    case Str(min, _) => v.JStr? && |v.s| >= min
    case Num(least, _) => v.JNum? && v.n >= least
    case Email(_) => v.JStr? && o.isEmail(v.s)
    case HexId(_) => v.JStr? && IsHex24(v.s)
    case ImageOrEmpty => v.JStr? && ImageOrEmptyOk(o, v.s)
  }

  /** A field accepts an absent value only when it is optional. */
  predicate FieldOk(o: Oracles, f: Field, v: Option<Json>)
  {
    if v.None? then f.optional else RuleOk(o, f.rule, v.value)
  }

  //---------------------------------------------------------------------------
  // The issues zod reports
  //---------------------------------------------------------------------------

  /** The message reported when the value has the wrong type or is missing:
      a custom message given to `z.email` covers that case as well. */
  function TypeMessage(rule: Rule): string
  {
    if rule.Email? then rule.invalid else InvalidInput
  }

  /** The issues one value raises against one rule: none when it is
      accepted, otherwise exactly one, with the rule's message for a failed
      bound or refinement and the type message for a value of the wrong type. */
  function RuleIssues(o: Oracles, rule: Rule, v: Json, path: seq<string>): (r: seq<Issue>)
    ensures r == [] <==> RuleOk(o, rule, v)
    ensures |r| <= 1
    ensures forall i :: 0 <= i < |r| ==> r[i].path == path
    ensures rule.Str? && v.JStr? && |v.s| < rule.min ==> r == [Issue(path, rule.tooShort)]
    ensures rule.Num? && v.JNum? && v.n < rule.least ==> r == [Issue(path, rule.tooSmall)]
    ensures rule.HexId? && v.JStr? && !IsHex24(v.s) ==> r == [Issue(path, rule.invalid)]
    ensures !rule.ImageOrEmpty? && !(v.JStr? || v.JNum?) ==> r == [Issue(path, TypeMessage(rule))]
  {
    match rule
    case Str(min, msg) =>
      if !v.JStr? then [Issue(path, InvalidInput)]
      else if |v.s| < min then [Issue(path, msg)] else []
    case Num(least, msg) =>
      if !v.JNum? then [Issue(path, InvalidInput)]
      else if v.n < least then [Issue(path, msg)] else []
    case Email(msg) =>
      if v.JStr? && o.isEmail(v.s) then [] else [Issue(path, msg)]
    case HexId(msg) =>
      if !v.JStr? then [Issue(path, InvalidInput)]
      else if !IsHex24(v.s) then [Issue(path, msg)] else []
    case ImageOrEmpty =>
      if v.JStr? && ImageOrEmptyOk(o, v.s) then [] else [Issue(path, InvalidInput)]
  }

  function FieldIssues(o: Oracles, f: Field, v: Option<Json>): (r: seq<Issue>)
    ensures r == [] <==> FieldOk(o, f, v)
    ensures |r| <= 1
    ensures forall i :: 0 <= i < |r| ==> r[i].path == [f.name]
  {
    if v.None? then (if f.optional then [] else [Issue([f.name], TypeMessage(f.rule))])
    else RuleIssues(o, f.rule, v.value, [f.name])
  }

  /** The issues of all fields, in the order the fields are declared. */
  function ShapeIssues(o: Oracles, shape: Shape, obj: Object): (r: seq<Issue>)
    ensures forall i :: 0 <= i < |r| ==> exists j :: 0 <= j < |shape| && r[i].path == [shape[j].name]
    ensures |r| <= |shape|
  {
    if shape == [] then []
    else
      var rest := ShapeIssues(o, shape[1..], obj);
      var first := FieldIssues(o, shape[0], Get(obj, shape[0].name));
      assert forall i :: 0 <= i < |rest| ==> exists j :: 0 <= j < |shape| && rest[i].path == [shape[j].name] by {
        forall i | 0 <= i < |rest|
          ensures exists j :: 0 <= j < |shape| && rest[i].path == [shape[j].name]
        {
          var j :| 0 <= j < |shape[1..]| && rest[i].path == [shape[1..][j].name];
          assert shape[1..][j] == shape[j + 1];
        }
      }
      first + rest
  }

  /** The field names of a shape are distinct, as the keys of an object
      literal are. */
  predicate DistinctNames(shape: Shape)
  {
    forall i, j :: 0 <= i < j < |shape| ==> shape[i].name != shape[j].name
  }

  /** No two issues share a path. */
  predicate OnePerPath(r: seq<Issue>)
  {
    forall i, j :: 0 <= i < j < |r| ==> r[i].path != r[j].path
  }

  /** A parse reports at most one issue per field. */
  lemma {:induction false} ShapeIssuesOnePerField(o: Oracles, shape: Shape, obj: Object)
    requires DistinctNames(shape)
    ensures OnePerPath(ShapeIssues(o, shape, obj))
  {
    if shape != [] {
      var rest := ShapeIssues(o, shape[1..], obj);
      var first := FieldIssues(o, shape[0], Get(obj, shape[0].name));
      assert DistinctNames(shape[1..]) by {
        forall i, j | 0 <= i < j < |shape[1..]|
          ensures shape[1..][i].name != shape[1..][j].name
        {
          assert shape[1..][i] == shape[i + 1] && shape[1..][j] == shape[j + 1];
        }
      }
      ShapeIssuesOnePerField(o, shape[1..], obj);
      assert OnePerPath(rest);
      var r := ShapeIssues(o, shape, obj);
      assert r == first + rest;
      forall i, j | 0 <= i < j < |r|
        ensures r[i].path != r[j].path
      {
        if i >= |first| {
          assert r[i] == rest[i - |first|] && r[j] == rest[j - |first|];
          assert rest[i - |first|].path != rest[j - |first|].path;
        } else {
          assert r[i] == first[i] && r[j] == rest[j - |first|];
          var k :| 0 <= k < |shape[1..]| && rest[j - |first|].path == [shape[1..][k].name];
          assert shape[1..][k] == shape[k + 1];
          assert first[i].path == [shape[0].name] && shape[0].name != shape[k + 1].name;
          assert r[i].path[0] != r[j].path[0];
        }
      }
    }
  }

  /** An object has no issue exactly when every declared field accepts its value. */
  lemma {:induction false} ShapeIssuesEmpty(o: Oracles, shape: Shape, obj: Object)
    ensures ShapeIssues(o, shape, obj) == [] <==>
      forall j :: 0 <= j < |shape| ==> FieldOk(o, shape[j], Get(obj, shape[j].name))
  {
    if shape != [] {
      ShapeIssuesEmpty(o, shape[1..], obj);
      assert forall j :: 1 <= j < |shape| ==> shape[j] == shape[1..][j - 1];
    }
  }

  function Names(shape: Shape): set<string>
  {
    set j | 0 <= j < |shape| :: shape[j].name
  }

  /** What an object schema returns: the declared fields the input has. */
  function Strip(shape: Shape, obj: Object): (r: Object)
    ensures forall k :: k in r <==> k in obj && k in Names(shape)
    ensures forall k :: k in r ==> r[k] == obj[k]
  {
    map k | k in obj && k in Names(shape) :: obj[k]
  }

  /** `z.object(shape).safeParse(input)`. */
  function ParseObject(o: Oracles, shape: Shape, input: Json): SafeParse
  {
    if !input.JObj? then Failure([Issue([], InvalidInput)])
    else
      var issues := ShapeIssues(o, shape, input.fields);
      if issues == [] then Success(JObj(Strip(shape, input.fields))) else Failure(issues)
  }

  /** A parse succeeds exactly when the input is an object whose declared
      fields all accept their values, and then it returns that object
      without its undeclared keys; a failure always reports an issue. */
  lemma ParseObjectSpec(o: Oracles, shape: Shape, input: Json)
    ensures ParseObject(o, shape, input).Success? <==>
      input.JObj? && forall j :: 0 <= j < |shape| ==> FieldOk(o, shape[j], Get(input.fields, shape[j].name))
    ensures ParseObject(o, shape, input).Success? ==>
      ParseObject(o, shape, input).data == JObj(Strip(shape, input.fields))
    ensures ParseObject(o, shape, input).Failure? ==> ParseObject(o, shape, input).issues != []
  {
    if input.JObj? {
      ShapeIssuesEmpty(o, shape, input.fields);
    }
  }

  //---------------------------------------------------------------------------
  // The application's schemas
  //---------------------------------------------------------------------------

  /** createCarSchema (carRoutes.ts). */
  const CreateCarShape: Shape := [
    Field("brand", Str(1, "Brand is required"), false),
    Field("carModel", Str(1, "Model is required"), false),
    Field("year", Num(1886.0, "Year is required"), false),
    Field("color", Str(0, InvalidInput), true)
  ]

  /** updateCarSchema (carRoutes.ts): createCarSchema plus the car id. */
  const UpdateCarShape: Shape := [Field("id", HexId("Invalid car ID"), false)] + CreateCarShape

  /** updateProfileSchema (userRoutes.ts). */
  const UpdateProfileShape: Shape := [
    Field("email", Email("Invalid email format"), true),
    Field("profilePic", ImageOrEmpty, true)
  ]

  /** changePasswordSchema (userRoutes.ts). */
  const ChangePasswordShape: Shape := [
    Field("currentPassword", Str(1, "Current password is required"), false),
    Field("newPassword", Str(6, "New password must be at least 6 characters"), false)
  ]

  /** registerSchema (authController.ts). */
  const RegisterShape: Shape := [
    Field("email", Email(InvalidInput), false),
    Field("password", Str(6, InvalidInput), false),
    Field("fullName", Str(1, InvalidInput), true)
  ]

  /** loginSchema (authController.ts). */
  const LoginShape: Shape := [
    Field("email", Email(InvalidInput), false),
    Field("password", Str(1, InvalidInput), false)
  ]

  /** Every server schema declares each field once, so each of its parses
      reports at most one issue per field. */
  lemma ServerShapesDistinct()
    ensures DistinctNames(CreateCarShape) && DistinctNames(UpdateCarShape)
    ensures DistinctNames(UpdateProfileShape) && DistinctNames(ChangePasswordShape)
    ensures DistinctNames(RegisterShape) && DistinctNames(LoginShape)
  {
  }

  predicate NonEmptyString(v: Option<Json>)
  {
    v.Some? && v.value.JStr? && v.value.s != ""
  }

  predicate OptionalStringValue(v: Option<Json>)
  {
    v.None? || v.value.JStr?
  }

  /** The year bound of the server: a number, at least 1886. */
  predicate ServerYearOk(v: Option<Json>)
  {
    v.Some? && v.value.JNum? && v.value.n >= 1886.0
  }

  /** A create-car body is accepted exactly when brand and carModel are
      non-empty strings, year is a number of at least 1886 (there is no upper
      bound) and color, if present, is a string; the output keeps only those
      four keys. */
  lemma CreateCarSchemaSpec(o: Oracles, body: Object)
    ensures ParseObject(o, CreateCarShape, JObj(body)).Success? <==>
      NonEmptyString(Get(body, "brand")) && NonEmptyString(Get(body, "carModel"))
      && ServerYearOk(Get(body, "year")) && OptionalStringValue(Get(body, "color"))
    ensures ParseObject(o, CreateCarShape, JObj(body)).Success? ==>
      ParseObject(o, CreateCarShape, JObj(body)).data.fields.Keys == body.Keys * {"brand", "carModel", "year", "color"}
  {
    ParseObjectSpec(o, CreateCarShape, JObj(body));
    assert Names(CreateCarShape) == {"brand", "carModel", "year", "color"} by {
      assert CreateCarShape[0].name == "brand" && CreateCarShape[1].name == "carModel";
      assert CreateCarShape[2].name == "year" && CreateCarShape[3].name == "color";
    }
    if NonEmptyString(Get(body, "brand")) && NonEmptyString(Get(body, "carModel"))
      && ServerYearOk(Get(body, "year")) && OptionalStringValue(Get(body, "color")) {
      forall j | 0 <= j < |CreateCarShape|
        ensures FieldOk(o, CreateCarShape[j], Get(body, CreateCarShape[j].name))
      {
      }
    }
  }

  /** An update-car body needs everything a create body needs, brand,
      carModel and year included (a full replacement, not a patch), plus an
      `id` of exactly 24 hex digits. */
  lemma UpdateCarSchemaSpec(o: Oracles, body: Object)
    ensures ParseObject(o, UpdateCarShape, JObj(body)).Success? <==>
      Get(body, "id").Some? && Get(body, "id").value.JStr? && IsHex24(body["id"].s)
      && ParseObject(o, CreateCarShape, JObj(body)).Success?
    ensures ParseObject(o, UpdateCarShape, JObj(body)).Success? ==>
      ParseObject(o, UpdateCarShape, JObj(body)).data.fields.Keys == body.Keys * {"id", "brand", "carModel", "year", "color"}
  {
    var first := FieldIssues(o, UpdateCarShape[0], Get(body, "id"));
    var rest := ShapeIssues(o, CreateCarShape, body);
    assert UpdateCarShape[1..] == CreateCarShape;
    assert ShapeIssues(o, UpdateCarShape, body) == first + rest;
    UpdateCarIdIssues(o, body);
    assert ShapeIssues(o, UpdateCarShape, body) == [] <==> first == [] && rest == [];
    CarShapeNames();
  }

  /** The `id` field raises no issue exactly when it is 24 hex digits. */
  lemma UpdateCarIdIssues(o: Oracles, body: Object)
    ensures FieldIssues(o, UpdateCarShape[0], Get(body, "id")) == [] <==>
      Get(body, "id").Some? && Get(body, "id").value.JStr? && IsHex24(body["id"].s)
  {
    assert UpdateCarShape[0] == Field("id", HexId("Invalid car ID"), false);
  }

  lemma CarShapeNames()
    ensures Names(CreateCarShape) == {"brand", "carModel", "year", "color"}
    ensures Names(UpdateCarShape) == {"id", "brand", "carModel", "year", "color"}
  {
    assert CreateCarShape[0].name == "brand" && CreateCarShape[1].name == "carModel";
    assert CreateCarShape[2].name == "year" && CreateCarShape[3].name == "color";
    assert UpdateCarShape[0].name == "id" && UpdateCarShape[1..] == CreateCarShape;
    assert forall j :: 1 <= j < |UpdateCarShape| ==> UpdateCarShape[j] == CreateCarShape[j - 1];
  }

  /** A body without an `id` never passes the update-car schema, and the
      parse reports the missing id. */
  lemma UpdateCarNeedsId(o: Oracles, body: Object)
    requires "id" !in body
    ensures ParseObject(o, UpdateCarShape, JObj(body)).Failure?
    ensures Issue(["id"], InvalidInput) in ParseObject(o, UpdateCarShape, JObj(body)).issues
  {
    ParseObjectSpec(o, UpdateCarShape, JObj(body));
    assert !FieldOk(o, UpdateCarShape[0], Get(body, UpdateCarShape[0].name));
    var rest := ShapeIssues(o, UpdateCarShape[1..], body);
    assert ShapeIssues(o, UpdateCarShape, body) == [Issue(["id"], InvalidInput)] + rest;
  }

  /** The profile picture is accepted exactly when it is absent, the empty
      string, or a string that starts with an image data-URI prefix and whose
      second comma-separated segment is non-empty and decodes to at most
      5 MB; the email, when present, must be an address. */
  lemma UpdateProfileSchemaSpec(o: Oracles, body: Object)
    ensures ParseObject(o, UpdateProfileShape, JObj(body)).Success? <==>
      (Get(body, "email").None? || (body["email"].JStr? && o.isEmail(body["email"].s)))
      && (Get(body, "profilePic").None? || (body["profilePic"].JStr? &&
           (body["profilePic"].s == "" || (HasImagePrefix(body["profilePic"].s) && SmallEnough(o, body["profilePic"].s)))))
  {
    ParseObjectSpec(o, UpdateProfileShape, JObj(body));
    assert UpdateProfileShape[0].name == "email" && UpdateProfileShape[1].name == "profilePic";
    if (Get(body, "email").None? || (body["email"].JStr? && o.isEmail(body["email"].s)))
      && (Get(body, "profilePic").None? || (body["profilePic"].JStr? && ImageOrEmptyOk(o, body["profilePic"].s))) {
      forall j | 0 <= j < |UpdateProfileShape|
        ensures FieldOk(o, UpdateProfileShape[j], Get(body, UpdateProfileShape[j].name))
      {
      }
    }
  }

  /** A plain web address is not an image data URI, so it is never accepted
      as a profile picture. */
  lemma HttpUrlRejected(o: Oracles, rest: string)
    ensures !ImageOrEmptyOk(o, "https://" + rest)
    ensures !ImageOrEmptyOk(o, "http://" + rest)
  {
    forall i | 0 <= i < |ImageFormats|
      ensures !(ImagePrefix(ImageFormats[i]) <= "https://" + rest)
      ensures !(ImagePrefix(ImageFormats[i]) <= "http://" + rest)
    {
      assert ImagePrefix(ImageFormats[i])[0] == 'd';
      assert ("https://" + rest)[0] == 'h' && ("http://" + rest)[0] == 'h';
    }
  }

  /** A data URI whose text ends at its first comma has no second segment
      and is rejected, whatever the prefix. */
  lemma EmptyPayloadRejected(o: Oracles, head: string)
    requires ',' !in head
    ensures !ImageOrEmptyOk(o, head + ",")
  {
    var s := head + ",";
    assert ',' in s by { assert s[|head|] == ','; }
    var i := IndexOf(s, ',');
    assert i == |head|;
    assert s[i + 1..] == "";
    assert Split(s, ',') == [head, ""];
  }

  /** A password change is accepted exactly when currentPassword is a
      non-empty string and newPassword a string of at least six characters. */
  lemma ChangePasswordSchemaSpec(o: Oracles, body: Object)
    ensures ParseObject(o, ChangePasswordShape, JObj(body)).Success? <==>
      NonEmptyString(Get(body, "currentPassword"))
      && Get(body, "newPassword").Some? && body["newPassword"].JStr? && |body["newPassword"].s| >= 6
  {
    ParseObjectSpec(o, ChangePasswordShape, JObj(body));
    assert ChangePasswordShape[0].name == "currentPassword" && ChangePasswordShape[1].name == "newPassword";
    if NonEmptyString(Get(body, "currentPassword"))
      && Get(body, "newPassword").Some? && body["newPassword"].JStr? && |body["newPassword"].s| >= 6 {
      forall j | 0 <= j < |ChangePasswordShape|
        ensures FieldOk(o, ChangePasswordShape[j], Get(body, ChangePasswordShape[j].name))
      {
      }
    }
  }

  /** Registration needs an email address, a password of at least six
      characters and, when a fullName is supplied, a non-empty one. */
  lemma RegisterSchemaSpec(o: Oracles, body: Object)
    ensures ParseObject(o, RegisterShape, JObj(body)).Success? <==>
      Get(body, "email").Some? && body["email"].JStr? && o.isEmail(body["email"].s)
      && Get(body, "password").Some? && body["password"].JStr? && |body["password"].s| >= 6
      && (Get(body, "fullName").None? || NonEmptyString(Get(body, "fullName")))
  {
    ParseObjectSpec(o, RegisterShape, JObj(body));
    assert RegisterShape[0].name == "email" && RegisterShape[1].name == "password" && RegisterShape[2].name == "fullName";
    if Get(body, "email").Some? && body["email"].JStr? && o.isEmail(body["email"].s)
      && Get(body, "password").Some? && body["password"].JStr? && |body["password"].s| >= 6
      && (Get(body, "fullName").None? || NonEmptyString(Get(body, "fullName"))) {
      forall j | 0 <= j < |RegisterShape|
        ensures FieldOk(o, RegisterShape[j], Get(body, RegisterShape[j].name))
      {
      }
    }
  }

  /** Login needs an email address and a non-empty password. */
  lemma LoginSchemaSpec(o: Oracles, body: Object)
    ensures ParseObject(o, LoginShape, JObj(body)).Success? <==>
      Get(body, "email").Some? && body["email"].JStr? && o.isEmail(body["email"].s)
      && NonEmptyString(Get(body, "password"))
  {
    ParseObjectSpec(o, LoginShape, JObj(body));
    assert LoginShape[0].name == "email" && LoginShape[1].name == "password";
    if Get(body, "email").Some? && body["email"].JStr? && o.isEmail(body["email"].s)
      && NonEmptyString(Get(body, "password")) {
      forall j | 0 <= j < |LoginShape|
        ensures FieldOk(o, LoginShape[j], Get(body, LoginShape[j].name))
      {
      }
    }
  }

  //---------------------------------------------------------------------------
  // `error.flatten()`, as register and login report a failed parse
  //---------------------------------------------------------------------------

  /** Messages of issues at the top of the object, and messages grouped by
      the first key of their path. */
  datatype Flattened = Flattened(formErrors: seq<string>, fieldErrors: map<string, seq<string>>)

  function Flatten(issues: seq<Issue>): Flattened
    decreases |issues|
  {
    if issues == [] then Flattened([], map[])
    else
      var last := issues[|issues| - 1];
      var r := Flatten(issues[..|issues| - 1]);
      if last.path == [] then Flattened(r.formErrors + [last.message], r.fieldErrors)
      else
        var k := last.path[0];
        var before := if k in r.fieldErrors then r.fieldErrors[k] else [];
        Flattened(r.formErrors, r.fieldErrors[k := before + [last.message]])
  }

  /** Whether an issue is reported at the top of the object (`None`) or
      under the first key `k` of its path (`Some(k)`). */
  predicate Selects(x: Issue, key: Option<string>)
  {
    if key.None? then x.path == [] else x.path != [] && x.path[0] == key.value
  }

  /** The messages of the issues a key selects, in the order of the issues. */
  function Messages(issues: seq<Issue>, key: Option<string>): seq<string>
    decreases |issues|
  {
    if issues == [] then []
    else (if Selects(issues[0], key) then [issues[0].message] else []) + Messages(issues[1..], key)
  }

  /** `idx` lists positions of issues the key selects, one for each
      message of the filter, with that message. */
  predicate Hits(issues: seq<Issue>, key: Option<string>, idx: seq<int>)
  {
    && |idx| == |Messages(issues, key)|
    && forall j :: 0 <= j < |idx| ==>
         0 <= idx[j] < |issues| && Selects(issues[idx[j]], key) && issues[idx[j]].message == Messages(issues, key)[j]
  }

  predicate Increasing(idx: seq<int>)
  {
    forall j, j' :: 0 <= j < j' < |idx| ==> idx[j] < idx[j']
  }

  /** Every issue the key selects has its position in `idx`. */
  predicate Covers(issues: seq<Issue>, key: Option<string>, idx: seq<int>)
  {
    forall i :: 0 <= i < |issues| && Selects(issues[i], key) ==> i in idx
  }

  /** `idx` lists, in increasing order, exactly the positions of the issues
      the key selects, and the messages are theirs. */
  predicate Enumerates(issues: seq<Issue>, key: Option<string>, idx: seq<int>)
  {
    Hits(issues, key, idx) && Increasing(idx) && Covers(issues, key, idx)
  }

  /** Every position moved one place on. */
  function Shift(idx: seq<int>): (r: seq<int>)
    ensures |r| == |idx| && forall j :: 0 <= j < |idx| ==> r[j] == idx[j] + 1
  {
    seq(|idx|, j requires 0 <= j < |idx| => idx[j] + 1)
  }

  /** The positions for a list, from those for its tail. */
  function ConsPositions(issues: seq<Issue>, key: Option<string>, idx: seq<int>): seq<int>
    requires issues != []
  {
    (if Selects(issues[0], key) then [0] else []) + Shift(idx)
  }

  lemma HitsStep(issues: seq<Issue>, key: Option<string>, idx: seq<int>)
    requires issues != [] && Hits(issues[1..], key, idx)
    ensures Hits(issues, key, ConsPositions(issues, key, idx))
  {
    var tail := issues[1..];
    var r := ConsPositions(issues, key, idx);
    var d := if Selects(issues[0], key) then 1 else 0;
    assert Messages(issues, key) == (if Selects(issues[0], key) then [issues[0].message] else []) + Messages(tail, key);
    forall j | 0 <= j < |r|
      ensures 0 <= r[j] < |issues| && Selects(issues[r[j]], key) && issues[r[j]].message == Messages(issues, key)[j]
    {
      if j >= d {
        assert r[j] == idx[j - d] + 1 && issues[r[j]] == tail[idx[j - d]];
        assert Messages(issues, key)[j] == Messages(tail, key)[j - d];
      }
    }
  }

  lemma IncreasingStep(issues: seq<Issue>, key: Option<string>, idx: seq<int>)
    requires issues != [] && Increasing(idx) && forall j :: 0 <= j < |idx| ==> idx[j] >= 0
    ensures Increasing(ConsPositions(issues, key, idx))
  {
  }

  lemma CoversStep(issues: seq<Issue>, key: Option<string>, idx: seq<int>)
    requires issues != [] && Covers(issues[1..], key, idx)
    ensures Covers(issues, key, ConsPositions(issues, key, idx))
  {
    var tail := issues[1..];
    var r := ConsPositions(issues, key, idx);
    var d := if Selects(issues[0], key) then 1 else 0;
    forall i | 0 <= i < |issues| && Selects(issues[i], key)
      ensures i in r
    {
      if i > 0 {
        assert tail[i - 1] == issues[i];
        var j :| 0 <= j < |idx| && idx[j] == i - 1;
        assert r[j + d] == i;
      }
    }
  }

  /** The filter keeps every selected message once, in order, and nothing
      else: its entries are in one-to-one, order-preserving correspondence
      with the selected issues. */
  lemma {:induction false} MessagesEnumerated(issues: seq<Issue>, key: Option<string>)
    ensures exists idx :: Enumerates(issues, key, idx)
    decreases |issues|
  {
    if issues == [] {
      assert Enumerates(issues, key, []);
    } else {
      MessagesEnumerated(issues[1..], key);
      var idx :| Enumerates(issues[1..], key, idx);
      HitsStep(issues, key, idx);
      IncreasingStep(issues, key, idx);
      CoversStep(issues, key, idx);
      assert Enumerates(issues, key, ConsPositions(issues, key, idx));
    }
  }

  /** A key that selects no issue has no messages. */
  lemma {:induction false} NoneSelected(issues: seq<Issue>, key: Option<string>)
    requires forall i :: 0 <= i < |issues| ==> !Selects(issues[i], key)
    ensures Messages(issues, key) == []
    decreases |issues|
  {
    if issues != [] {
      assert forall i :: 0 <= i < |issues[1..]| ==> issues[1..][i] == issues[i + 1];
      NoneSelected(issues[1..], key);
    }
  }

  /** Filtering an extended list extends the filtered list by the new
      issue's message when the key selects it. */
  lemma {:induction false} MessagesAppend(issues: seq<Issue>, x: Issue, key: Option<string>)
    ensures Messages(issues + [x], key) == Messages(issues, key) + (if Selects(x, key) then [x.message] else [])
    decreases |issues|
  {
    if issues == [] {
      assert [x][1..] == [];
    } else {
      assert (issues + [x])[0] == issues[0];
      assert (issues + [x])[1..] == issues[1..] + [x];
      MessagesAppend(issues[1..], x, key);
    }
  }

  /** fieldErrors holds the first key of every path, and each key holds
      exactly, and only, the messages it selects. */
  predicate FieldsExact(issues: seq<Issue>, r: Flattened)
  {
    && (forall i :: 0 <= i < |issues| && issues[i].path != [] ==> issues[i].path[0] in r.fieldErrors)
    && (forall k :: k in r.fieldErrors ==> r.fieldErrors[k] == Messages(issues, Some(k)) && r.fieldErrors[k] != [])
  }

  /** Every top-level message is a form error, and there are no more form
      errors than issues. */
  predicate FormGrouped(issues: seq<Issue>, r: Flattened)
  {
    && (forall i :: 0 <= i < |issues| && issues[i].path == [] ==> issues[i].message in r.formErrors)
    && |r.formErrors| <= |issues|
  }

  /** Every other message is listed under the first key of its path. */
  predicate FieldGrouped(issues: seq<Issue>, r: Flattened)
  {
    forall i :: 0 <= i < |issues| && issues[i].path != [] ==>
      issues[i].path[0] in r.fieldErrors && issues[i].message in r.fieldErrors[issues[i].path[0]]
  }

  /** Every key of fieldErrors is the first key of some issue's path. */
  predicate KeysFromIssues(issues: seq<Issue>, r: Flattened)
  {
    forall k :: k in r.fieldErrors ==> exists i :: 0 <= i < |issues| && issues[i].path != [] && issues[i].path[0] == k
  }

  /** The last issue either extends formErrors or the list under its first key. */
  lemma FlattenStep(issues: seq<Issue>)
    requires issues != []
    ensures var last := issues[|issues| - 1]; var r0 := Flatten(issues[..|issues| - 1]);
      last.path == [] ==> Flatten(issues) == Flattened(r0.formErrors + [last.message], r0.fieldErrors)
    ensures var last := issues[|issues| - 1]; var r0 := Flatten(issues[..|issues| - 1]);
      last.path != [] ==> Flatten(issues) == Flattened(r0.formErrors, r0.fieldErrors[last.path[0] :=
        (if last.path[0] in r0.fieldErrors then r0.fieldErrors[last.path[0]] else []) + [last.message]])
  {
  }

  /** formErrors is exactly the top-level messages, in order; in
      particular every top-level message is there. */
  lemma {:induction false} FlattenForm(issues: seq<Issue>)
    ensures Flatten(issues).formErrors == Messages(issues, None)
    ensures FormGrouped(issues, Flatten(issues))
    decreases |issues|
  {
    if issues != [] {
      var init := issues[..|issues| - 1];
      FlattenForm(init);
      FlattenStep(issues);
      assert issues == init + [issues[|issues| - 1]];
      MessagesAppend(init, issues[|issues| - 1], None);
      assert forall i :: 0 <= i < |init| ==> init[i] == issues[i];
    }
  }

  /** Each list in fieldErrors is exactly the messages under its key, in
      order, and the keys are exactly those some message is under. */
  lemma {:induction false} FlattenFieldsExact(issues: seq<Issue>)
    ensures FieldsExact(issues, Flatten(issues))
    decreases |issues|
  {
    if issues != [] {
      var init := issues[..|issues| - 1];
      var last := issues[|issues| - 1];
      FlattenFieldsExact(init);
      assert FieldsExact(init, Flatten(init));
      FlattenStep(issues);
      assert issues == init + [last];
      var r := Flatten(issues);
      forall k | k in r.fieldErrors
        ensures r.fieldErrors[k] == Messages(issues, Some(k)) && r.fieldErrors[k] != []
      {
        MessagesAppend(init, last, Some(k));
        if last.path == [] || k != last.path[0] {
          assert k in Flatten(init).fieldErrors;
        } else if k in Flatten(init).fieldErrors {
          assert Flatten(init).fieldErrors[k] == Messages(init, Some(k));
        } else {
          assert forall i :: 0 <= i < |init| ==> !Selects(init[i], Some(k));
          NoneSelected(init, Some(k));
        }
      }
      forall i | 0 <= i < |issues| && issues[i].path != []
        ensures issues[i].path[0] in r.fieldErrors
      {
        if i < |init| {
          assert init[i] == issues[i];
        }
      }
    }
  }

  /** Every message with a path is listed under its first key; and each
      list holds exactly that key's messages, in order. */
  lemma {:induction false} FlattenFields(issues: seq<Issue>)
    ensures FieldsExact(issues, Flatten(issues))
    ensures FieldGrouped(issues, Flatten(issues))
    decreases |issues|
  {
    FlattenFieldsExact(issues);
    if issues != [] {
      var init := issues[..|issues| - 1];
      var last := issues[|issues| - 1];
      FlattenFields(init);
      FlattenStep(issues);
      var r0 := Flatten(init);
      var r := Flatten(issues);
      forall i | 0 <= i < |issues| && issues[i].path != []
        ensures issues[i].path[0] in r.fieldErrors && issues[i].message in r.fieldErrors[issues[i].path[0]]
      {
        if i < |init| {
          assert init[i] == issues[i];
          if last.path != [] && issues[i].path[0] == last.path[0] {
            assert issues[i].message in r0.fieldErrors[last.path[0]];
          }
        }
      }
    }
  }

  lemma {:induction false} FlattenKeys(issues: seq<Issue>)
    ensures KeysFromIssues(issues, Flatten(issues))
    decreases |issues|
  {
    if issues != [] {
      var init := issues[..|issues| - 1];
      var last := issues[|issues| - 1];
      FlattenKeys(init);
      FlattenStep(issues);
      var r := Flatten(issues);
      forall k | k in r.fieldErrors
        ensures exists i :: 0 <= i < |issues| && issues[i].path != [] && issues[i].path[0] == k
      {
        if !(last.path != [] && k == last.path[0]) {
          var i :| 0 <= i < |init| && init[i].path != [] && init[i].path[0] == k;
          assert issues[i] == init[i];
        }
      }
    }
  }

  /** What `flatten()` promises of its result: formErrors is exactly the
      top-level messages in order, each key of fieldErrors lists exactly the
      messages under it in order, and there are no other keys; so every
      top-level message is a form error, every other message is listed
      under the first key of its path, and every key comes from some issue.
      `MessagesEnumerated` says what "exactly, in order" means. */
  lemma FlattenSpec(issues: seq<Issue>)
    ensures Flatten(issues).formErrors == Messages(issues, None) && FieldsExact(issues, Flatten(issues))
    ensures FormGrouped(issues, Flatten(issues)) && FieldGrouped(issues, Flatten(issues))
    ensures KeysFromIssues(issues, Flatten(issues))
  {
    FlattenForm(issues);
    FlattenFields(issues);
    FlattenKeys(issues);
  }
}
