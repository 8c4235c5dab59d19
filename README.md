# Car Doctor, modelled in Dafny

Car Doctor is a web application where a signed-in user keeps a garage of
cars and a maintenance log for each car. It has two parts.

- The **backend** is an Express server over MongoDB (Mongoose):
  - token authentication;
  - zod validation of request bodies;
  - controllers for cars, maintenance records, the user profile, and registration and login.
- The **web client** is a React application:
  - an auth context persisted in local storage;
  - route guards and a navigation bar;
  - forms with client-side zod schemas, and dialogs that call the API;
  - a canned-reply maintenance chat.

This project models that core in Dafny and proves what it promises.

| file | module | what it models |
|---|---|---|
| `text.dfy` | `Text` | Several JavaScript string operations: `includes`, `trim` (the full ECMAScript whitespace set), one-character `split` and `join`, ASCII `toLowerCase`, and decimal rendering of integers. |
| `json.dfy` | `Json` | JSON values. A missing key stands for `undefined`. It also models truthiness, `??`, and Mongoose dropping `undefined` properties. |
| `models.dfy` | `Models` | The Car, Maintenance and User schemas. Also how `findOneAndUpdate` overlays an update on a document in strict mode, and what the update validators accept. |
| `zod.dfy` | `Zod` | Object schemas: issues collected per field, unknown keys stripped. Also the server's six schemas and `error.flatten()`. |
| `gate.dfy` | `Gate` | The request/response pair, `authenticateToken`, and the `validateBody`/`validateParams`/`validateQuery` middleware. |
| `routes.dfy` | `Routes` | The car, user and maintenance routers. Dispatch runs authentication, then route matching, then the body validator, then the handler. |
| `controllers.dfy` | `Controllers` | Every handler of the four controllers, as methods on a store that holds the three collections. The `message` and `error` texts of the replies are the enumeration `Message`; `MessageText` gives each one's exact text. |
| `forms.dfy` | `Forms` | The client's car schema (`lib/schemas.ts`), and the forms of the maintenance dialog, the password page and the login page, with the payloads they send. |
| `session.dfy` | `Session` | The auth provider, ProtectedRoute, AuthedRoute, the login page's `from`, and the Navbar's link filter, auth button and avatar. |
| `dialogs.dfy` | `Dialogs` | The state of AddMaintenanceDialog, EditCarDialog, the ChangePassword page and the Login page. |
| `chat.dfy` | `Chat` | ChatPanel: the keyword classifier, the canned replies, the greeting, and the conversation the panel keeps. |

Code outside the application is passed in as parameters:

- the JWT signature check, as `verify: string -> Option<Claims>`;
- bcrypt, as `Crypto(hash, matches)`. The ghost predicate `Sound` states bcrypt's guarantee;
- zod's email pattern and the base64 decoded length, as `Oracles`;
- the clock, as `now` and `today`, and fresh document ids, as `newId`.

Behaviour of the code that is easy to miss:

- **Car updates replace, they do not patch.** `updateCarSchema` repeats every required field of `createCarSchema` and adds `id`. So an update body must carry brand, carModel and year.
- **The edit dialog cannot succeed.** EditCarDialog sends only the form fields, without `id`, to `PUT /cars/:id`. Behind that route's validator the request is always refused. This is stated as `Forms.EditCarRequestRejected`.
- **Maintenance requests are not validated.** Its routes have no validator. The model keeps that:
  - createMaintenance checks presence only;
  - the update validators are the only check on updates;
  - an update may move a record to another car or user (`Controllers.UpdateMayReassignRecord`).
- **A taken id is reported as a duplicate plate.** The only duplicate-key error a car insert can raise is a taken `_id`. The model answers it exactly as the source answers error 11000: 400 "License plate already exists".

## Model

| member | source | states |
|---|---|---|
| `Json.CoalesceVersusOr` | apps/backend/src/controllers/maintenanceController.ts:80 | `v ?? d` keeps every defined non-null value. It agrees with `v || d` except on a defined, non-null falsy value (false, 0, '') other than the default, which `??` keeps and `||` replaces. |
| `Json.OrElse` | apps/web/src/components/AddMaintenanceDialog.tsx:71 | `v || d` with a truthy default is always truthy. |
| `Json.Put` | apps/backend/src/controllers/carController.ts:31-37 | A property whose value is `undefined` is left out of the created document. Every other key is unchanged. |
| `Text.TrimEmptyIffAllSpace` | apps/web/src/components/ChatPanel.tsx:48 | `input.trim()` is empty exactly when the input is all whitespace. Otherwise the trimmed text neither starts nor ends with whitespace. |
| `Text.TrimStartSpec` | apps/web/src/components/ChatPanel.tsx:48 | Trimming the start removes a leading run of whitespace only: the result is a suffix of the input, what was removed is all whitespace, and a non-empty result starts with a non-space. |
| `Text.TrimEndSpec` | apps/web/src/components/ChatPanel.tsx:48 | Trimming the end removes a trailing run of whitespace only: the result is a prefix of the input, what was removed is all whitespace, and a non-empty result ends with a non-space. |
| `Text.TrimIdempotent` | apps/web/src/components/ChatPanel.tsx:53 | Trimming an already trimmed text changes nothing. |
| `Text.JoinSplit` | apps/backend/src/middleware/auth.ts:15 | Joining the pieces of `split(sep)` with the separator gives back the original text. |
| `Text.SplitJoin` | apps/backend/src/routes/userRoutes.ts:30 | Splitting a join of separator-free pieces gives the pieces back. |
| `Text.ToLowerIdempotent` | apps/web/src/components/ChatPanel.tsx:159 | Lower-casing twice equals lower-casing once, and leaves no upper-case ASCII letter. |
| `Models.Overlay` | apps/backend/src/controllers/carController.ts:94-97 | An update overlays only the schema's paths: it overwrites those keys and leaves every other key of the document as it was. |
| `Models.CarUpdatePreservesValid` | apps/backend/src/models/Car.ts:12-19 | An update that passes the update validators leaves a valid car valid. |
| `Models.IdenticalCarsMayCoexist` | apps/backend/src/models/Car.ts:12-19 | The car schema has no unique index, so two cars with identical fields can both be stored. |
| `Models.MaintenanceUpdatePreservesValid` | apps/backend/src/models/Maintenance.ts:17-78 | An update that passes the validators leaves a valid record valid. The validators: type in the enumeration; cost and mileage ≥ 0; nextDueMileage ≥ 1000; a date the Date cast accepts, never null or ''. |
| `Models.WithMaintenanceDefaults` | apps/backend/src/models/Maintenance.ts:49-75 | Keeps the schema paths and drops every other key. Fills in cost 0, date now and notes '' exactly when they are missing. |
| `Models.NewUserValid` | apps/backend/src/models/User.ts:12-31 | A new user satisfies the schema exactly when email and name are non-empty and the stored hash has at least six characters. |
| `Zod.RuleIssues` | apps/backend/src/routes/carRoutes.ts:9-14 | A value raises no issue exactly when the rule accepts it, and otherwise one issue at its path. A failed bound or refinement carries the rule's own message. |
| `Zod.FieldIssues` | apps/backend/src/routes/carRoutes.ts:13 | A missing value is an issue exactly when the field is not optional. |
| `Zod.ShapeIssues` | apps/backend/src/middleware/validation.ts:7 | Every issue names a declared field, and there are at most as many issues as fields. |
| `Zod.ShapeIssuesOnePerField` | apps/backend/src/middleware/validation.ts:7 | When the field names are distinct, no two issues share a path: at most one issue per field. |
| `Zod.ServerShapesDistinct` | apps/backend/src/routes/carRoutes.ts:9-22 | Each of the six server schemas declares every field name once. |
| `Zod.ShapeIssuesEmpty` | apps/backend/src/middleware/validation.ts:7-9 | An object has no issues exactly when every declared field accepts its value. |
| `Zod.Strip` | apps/backend/src/middleware/validation.ts:20 | The parsed data is the input restricted to the declared keys, with their values unchanged. |
| `Zod.ParseObjectSpec` | apps/backend/src/middleware/validation.ts:7-20 | A parse succeeds exactly when the input is an object whose fields all pass, and it then returns the stripped object. A failure always carries an issue. |
| `Zod.CreateCarSchemaSpec` | apps/backend/src/routes/carRoutes.ts:9-14 | The create-car body is accepted iff brand and carModel are non-empty strings, year is a number of at least 1886 and color is absent or a string. Only those four keys are kept. |
| `Zod.UpdateCarSchemaSpec` | apps/backend/src/routes/carRoutes.ts:16-22 | The update-car body is accepted iff `id` is exactly 24 hex digits and the create-car conditions hold. Only those five keys are kept. |
| `Zod.CarShapeNames` | apps/backend/src/routes/carRoutes.ts:9-22 | The two car schemas declare exactly {brand, carModel, year, color}, and the update schema declares `id` as well. |
| `Zod.UpdateCarNeedsId` | apps/backend/src/routes/carRoutes.ts:17 | A body without `id` always fails the update schema, and the failure names `id`. |
| `Zod.UpdateProfileSchemaSpec` | apps/backend/src/routes/userRoutes.ts:16-42 | The picture is accepted iff it is absent, '', or an image data URI whose second comma segment is non-empty and decodes to at most 5 MB. A present email must be an address. |
| `Zod.HttpUrlRejected` | apps/backend/src/routes/userRoutes.ts:22 | A web address (`http://` or `https://`) is never accepted as a profile picture. |
| `Zod.EmptyPayloadRejected` | apps/backend/src/routes/userRoutes.ts:30-31 | A data URI that ends at its first comma is rejected. |
| `Zod.ChangePasswordSchemaSpec` | apps/backend/src/routes/userRoutes.ts:44-47 | A password change is accepted iff currentPassword is a non-empty string and newPassword is a string of at least 6 characters. |
| `Zod.RegisterSchemaSpec` | apps/backend/src/controllers/authController.ts:21-25 | Registration is accepted iff it has an email address, a password of at least 6 characters, and a fullName that is absent or non-empty. |
| `Zod.LoginSchemaSpec` | apps/backend/src/controllers/authController.ts:27-30 | Login is accepted iff it has an email address and a non-empty password. |
| `Zod.FlattenSpec` | apps/backend/src/controllers/authController.ts:37 | Of `error.flatten()`: formErrors is exactly the top-level messages, in order. Each key of fieldErrors lists exactly the messages whose path starts with it, in order, and there are no other keys. So every message is reported once, where it belongs. |
| `Zod.FlattenForm` | apps/backend/src/controllers/authController.ts:37 | formErrors equals `Zod.Messages(issues, None)`: the messages of the issues without a path, each once and in order, and nothing else. |
| `Zod.FlattenFields` | apps/backend/src/controllers/authController.ts:37 | The first key of every path is a key of fieldErrors. The list under each key equals `Zod.Messages(issues, Some(k))`: that key's messages, each once and in order, and no others. It is never empty. |
| `Zod.MessagesEnumerated` | apps/backend/src/controllers/authController.ts:37 | Gives meaning to "exactly, in order": the filter's entries correspond one to one, in increasing position, to the issues the key selects, carrying their messages. The count is therefore that of the selected issues. |
| `Zod.NoneSelected` | apps/backend/src/controllers/authController.ts:37 | A key that selects no issue has no messages. |
| `Zod.FlattenKeys` | apps/backend/src/controllers/authController.ts:37 | No key of fieldErrors is invented: each is the first key of some issue's path. |
| `Gate.Exchange.constructor` | apps/backend/src/middleware/auth.ts:8-12 | A request starts with no user, no status, no reply and no call to `next`. |
| `Gate.Exchange.Send` | apps/backend/src/middleware/auth.ts:18 | `res.status(code).json(value)` sets the status and reply, and the request is unchanged. |
| `Gate.ExtractToken` | apps/backend/src/middleware/auth.ts:14-15 | A token is present only when it is a non-empty, space-free word, and never when the header is missing or empty. |
| `Gate.ExtractSecondWord` | apps/backend/src/middleware/auth.ts:15 | For `scheme token rest`, the token is the second space-separated word, or missing when that word is empty. |
| `Gate.EmptyBearerIsMissing` | apps/backend/src/middleware/auth.ts:15-17 | The header `"Bearer "` counts as a missing token. |
| `Gate.OneWordIsMissing` | apps/backend/src/middleware/auth.ts:15-17 | A one-word header (a token sent without a scheme) counts as a missing token. |
| `Gate.AuthenticateToken` | apps/backend/src/middleware/auth.ts:8-29 | Missing token: 401 with the access-token message. Token that fails verification: 403. Valid token: sets `req.user` to the verified claims, calls `next` once and sends nothing. |
| `Gate.Details` | apps/backend/src/middleware/validation.ts:12-15 | One detail per issue with the same message. The field is the dotted path: '' for the root, and it splits back to the path. |
| `Gate.Validate` | apps/backend/src/middleware/validation.ts:4-22 | Failure: 400 `Invalid <key>` with the details, `next` not called. Success: the part is replaced by the parsed data and `next` is called. Other parts are untouched. |
| `Gate.ValidateBody` | apps/backend/src/middleware/validation.ts:24 | Validation of `req.body`, with the same outcomes and not touching params or query. |
| `Gate.ValidateParams` | apps/backend/src/middleware/validation.ts:26 | Validation of `req.params`, not touching body or query. |
| `Gate.ValidateQuery` | apps/backend/src/middleware/validation.ts:28 | Validation of `req.query`, not touching body or params. |
| `Routes.MatchPath` | apps/backend/src/routes/carRoutes.ts:29 | A literal pattern matches only its own path. `/:id` yields a non-empty `id` parameter that rebuilds the path. |
| `Routes.FindRoute` | apps/backend/src/routes/carRoutes.ts:27-31 | Finds the first registered route whose method and pattern match, and no earlier one matches. Finds none exactly when no route matches. |
| `Routes.Dispatch` | apps/backend/src/routes/carRoutes.ts:24-31 | On an authenticated router, a missing token gives 401 and a bad one 403. A handler runs only on the first matching route, with verified claims, and with the parsed body when the route validates. Conversely, an admitted request to a matching route whose body the validator accepts (or that has none) reaches that handler; a refused body gets 400. |
| `Routes.CarRouteValidation` | apps/backend/src/routes/carRoutes.ts:27-31 | Exactly POST and PUT are validated: POST / with createCarSchema and PUT /:id with updateCarSchema. |
| `Routes.CarRouteLookup` | apps/backend/src/routes/carRoutes.ts:27-31 | GET /, GET /:id, PUT /:id and DELETE /:id reach routes 0, 2, 3 and 4, with `id` bound. |
| `Routes.UserRouteValidation` | apps/backend/src/routes/userRoutes.ts:50-52 | Exactly PUT requests are validated: /profile with updateProfileSchema and /password with changePasswordSchema. |
| `Routes.MaintenanceRoutesUnvalidated` | apps/backend/src/routes/maintenanceRoutes.ts:16-20 | No maintenance route has a body validator. |
| `Controllers.ProfileViewHidesPassword` | apps/backend/src/controllers/userController.ts:6-12 | The public profile does not depend on the password hash or the name, carries the stored email, and has '' for a missing picture. |
| `Controllers.AccountViewHidesPassword` | apps/backend/src/controllers/authController.ts:7-19 | The public account does not depend on the password hash. It agrees with the public profile on id, email and picture, and adds the name. |
| `Controllers.NewCarDoc` | apps/backend/src/controllers/carController.ts:27-37 | The new car is owned by the requester, and its model is the body's carModel. Brand, year and color are copied when present. Nothing outside the schema is included. |
| `Controllers.RenameCarModel` | apps/backend/src/controllers/carController.ts:88-92 | A truthy carModel moves to `model`. Otherwise the body passes through unchanged, and every other key always does. |
| `Controllers.NewRecordDoc` | apps/backend/src/controllers/maintenanceController.ts:75-87 | The new record is owned by the requester; cost is `?? 0`, date `?? now` and notes '' when missing. Nothing outside the schema is stored, so `attachments` is dropped. |
| `Controllers.NewRecordDocCopies` | apps/backend/src/controllers/maintenanceController.ts:75-87 | carId, type, description, mileage, nextDueDate and nextDueMileage are in the record exactly when they are in the body, with the body's values. |
| `Controllers.EmptyDateRefused` | apps/backend/src/models/Maintenance.ts:60-64 | A body whose date is '' gives a record the schema refuses, so createMaintenance answers 500. |
| `Controllers.GetUserId` | apps/backend/src/controllers/maintenanceController.ts:6-8 | The id is `id` when it is truthy, and otherwise `userId`. It is missing exactly when both are falsy. |
| `Controllers.IssuedTokenIdentifiesUser` | apps/backend/src/utils/jwt.ts:27-36 | The claims of a token that register or login signed make getUserId yield the signed id. |
| `Controllers.ResolvedNameIsTrimmed` | apps/backend/src/controllers/authController.ts:42 | A name taken from a non-blank fullName is non-empty and has no surrounding whitespace. |
| `Controllers.NameFromEmail` | apps/backend/src/controllers/authController.ts:42 | For `local@domain`, a missing or blank fullName gives `local`. |
| `Controllers.ResolveNameEmpty` | apps/backend/src/controllers/authController.ts:42-47 | The resolved name is empty exactly when fullName is missing or blank and the email is empty or starts with '@'. `Controllers.Store.Register` answers 400 "Validation failed" in that case. |
| `Controllers.ValidatedCarBodyIsStorable` | apps/backend/src/routes/carRoutes.ts:28 | A body that passed createCarSchema always gives a storable car, so createCar behind its route never answers 500 for validation. |
| `Controllers.ValidatedCarUpdateKeepsOwner` | apps/backend/src/routes/carRoutes.ts:30 | A body that passed updateCarSchema passes the update validators and never writes userId, so the car keeps its owner. |
| `Controllers.UpdateCarData` | apps/backend/src/routes/carRoutes.ts:16-22 | The data updateCarSchema passes on has non-empty brand and carModel strings, a year the server accepts, a string or no color, and no key outside the schema. |
| `Controllers.RenamedUpdateKeepsOwner` | apps/backend/src/controllers/carController.ts:88-97 | Such data, once carModel is renamed, passes the update validators, has no userId, and keeps the car owned by the requester. |
| `Controllers.UpdateMayReassignRecord` | apps/backend/src/controllers/maintenanceController.ts:146-149 | The unvalidated update body can move an owned, valid record to any car id and any user, and the record stays valid. |
| `Controllers.RegisteredUserLogsIn` | apps/backend/src/controllers/authController.ts:50-63 | With sound hashing, the user that register stores is the one user that its email and password log in as. |
| `Controllers.ChangedPasswordLogsIn` | apps/backend/src/controllers/userController.ts:87-89 | After a password change, the new password logs the same user in with the same email. |
| `Controllers.SoundHashIsStorable` | apps/backend/src/controllers/authController.ts:55-62 | With bcrypt's 60-character hashes, a registration with an email and a non-empty name gives a user the schema accepts, so register does not answer 500 for it. |
| `Controllers.Store.constructor` | apps/backend/src/models/User.ts:36 | The store starts empty, and emails are unique. |
| `Controllers.PutUserKeepsValid` | apps/backend/src/models/User.ts:15-36 | Storing a schema-valid user whose email no other user holds keeps every user valid and emails unique. |
| `Controllers.SameEmailKeepsUnique` | apps/backend/src/models/User.ts:36 | Rewriting a user without changing the email cannot clash with the unique email index. |
| `Controllers.Store.GetCars` | apps/backend/src/controllers/carController.ts:6-22 | Lists exactly the requester's cars, with a count equal to their number. |
| `Controllers.Store.CreateCar` | apps/backend/src/controllers/carController.ts:25-56 | An invalid document: 500 and nothing stored. A taken id: 400 "License plate already exists". Otherwise 201 and exactly the new owned car is added. Users and records are unchanged. |
| `Controllers.Store.GetCarById` | apps/backend/src/controllers/carController.ts:59-79 | Returns the car when it exists and is the requester's, and otherwise answers 404 "Car not found". |
| `Controllers.Store.UpdateCar` | apps/backend/src/controllers/carController.ts:82-115 | Invalid update: 500. No car owned by the requester: 404. Otherwise the car becomes the overlay of the renamed body. Other cars and the set of ids are unchanged. |
| `Controllers.Store.DeleteCar` | apps/backend/src/controllers/carController.ts:118-138 | Deletes exactly the requester's car with that id, and otherwise answers 404 with nothing removed. |
| `Controllers.Store.GetMaintenance` | apps/backend/src/controllers/maintenanceController.ts:11-36 | No user id: 401. Otherwise lists exactly the requester's records, also filtered on `carId` when the query's carId is truthy. |
| `Controllers.Store.CreateMaintenance` | apps/backend/src/controllers/maintenanceController.ts:39-100 | Answers 401, or 400 "Missing required fields", or 500 for a non-string carId, or 404 when the car is not the requester's. For an owned car it answers 201 with exactly the new record added when the record satisfies the schema and the id is free, and 500 otherwise. A failure stores nothing. |
| `Controllers.Store.GetMaintenanceById` | apps/backend/src/controllers/maintenanceController.ts:103-130 | 401 without a user id. Otherwise the requester's record, or 404 "Maintenance record not found". |
| `Controllers.Store.UpdateMaintenance` | apps/backend/src/controllers/maintenanceController.ts:133-167 | 401; an invalid update is 500 even when nothing matches; 404. Otherwise the record becomes the overlay of the body. |
| `Controllers.Store.DeleteMaintenance` | apps/backend/src/controllers/maintenanceController.ts:170-197 | 401 without a user id. Otherwise deletes exactly the requester's record, or answers 404 with nothing removed. |
| `Controllers.Store.GetProfile` | apps/backend/src/controllers/userController.ts:15-33 | The requester's public profile, or 404 "User not found". |
| `Controllers.Store.ProfileUpdate` | apps/backend/src/controllers/userController.ts:38-48 | Only email and profilePic change: a present email replaces the old one, and an absent picture keeps the old one. Name and password never change. |
| `Controllers.Store.UpdateProfile` | apps/backend/src/controllers/userController.ts:35-63 | A wrong-typed update: 500. An unknown user: 404. An email another user holds: 500. Otherwise exactly the profile fields change and the new public profile is returned. |
| `Controllers.Store.ChangePassword` | apps/backend/src/controllers/userController.ts:65-96 | Missing fields: 400. Unknown user: 404. Wrong current password: 400 "Current password is incorrect". A success stores the hash of the new password and nothing else. With sound hashing, correct input always succeeds. |
| `Controllers.Store.FindByEmail` | apps/backend/src/controllers/authController.ts:50 | Finds a user with that email, or none exactly when no user has it. |
| `Controllers.Store.Register` | apps/backend/src/controllers/authController.ts:33-84 | A schema failure, or a name that resolves to '': 400 "Validation failed". A taken email: 400 "User already exists". Otherwise 201 when the new user satisfies the schema and the id is free, else 500. A success adds exactly one user, with a fresh id, the hashed password and the resolved name, and returns the signed claims and the account. |
| `Controllers.Store.Login` | apps/backend/src/controllers/authController.ts:87-130 | A schema failure: 400. No user whose hash the password matches: 401 "Invalid credentials". Otherwise 200 with that user's claims and account. |
| `Forms.YearIssues` | apps/web/src/lib/schemas.ts:8-14 | The year is accepted iff it is a whole number from 1900 to the current year + 1. A number that is not whole reports only "Year must be a whole number", since that check ends the chain. For a whole year, too small and too large each report their own message. |
| `Forms.CarFormSpec` | apps/web/src/lib/schemas.ts:5-16 | The car form is accepted iff brand and carModel are non-empty, the year is as above and color is absent or a string. Only the four keys are kept. |
| `Forms.ClientYearWithinServerBound` | apps/web/src/lib/schemas.ts:13 | Every year the form accepts satisfies the server's 1886 bound. |
| `Forms.ClientCarAcceptedByServer` | apps/backend/src/routes/carRoutes.ts:9-14 | Whatever the client car form accepts, createCarSchema accepts too. |
| `Forms.ServerTakesYearsFormRefuses` | apps/web/src/lib/schemas.ts:13 | The converse fails: a car of 1890 passes the server and is refused by the form. |
| `Forms.PrefillSubmittable` | apps/web/src/components/EditCarDialog.tsx:40-49 | The form prefilled from a car (`Forms.Prefill`: brand, the model under carModel, year, color or '') submits exactly when brand and model are non-empty and the year is whole and from 1900 to the next year. It then sends the prefilled values unchanged. |
| `Forms.PrefillRefusesEarlyYears` | apps/web/src/components/EditCarDialog.tsx:40-49 | A car stored with a year from 1886 to before 1900, which the server admits, opens an edit form that never submits. The form reports "Year must be at least 1900" for a whole year, and "Year must be a whole number" otherwise. |
| `Forms.EditCarRequestRejected` | apps/web/src/components/EditCarDialog.tsx:52-57 | Every request the edit dialog sends (`Forms.EditCarRequest`: the form fields as the body, the car's id in the path) fails updateCarSchema, because the id is missing from the body. |
| `Forms.MaintenanceFormSpec` | apps/web/src/components/AddMaintenanceDialog.tsx:18-27 | The form is accepted iff type and description are non-empty, mileage is a number ≥ 0, cost and nextDueMileage are absent or ≥ 0, and the date and notes fields are absent or strings. |
| `Forms.TypeOptionsMatchModel` | apps/web/src/components/AddMaintenanceDialog.tsx:37-48 | The dialog offers exactly the model's ten types, in the same order. |
| `Forms.MaintenancePayload` | apps/web/src/components/AddMaintenanceDialog.tsx:68-72 | The payload is the data with the dialog's carId and cost `|| 0`. Every other field is unchanged. |
| `Forms.PayloadPassesRequiredCheck` | apps/backend/src/controllers/maintenanceController.ts:64 | Every payload from an accepted form passes createMaintenance's presence check, with a cost ≥ 0. |
| `Forms.MaintenanceFormData` | apps/web/src/components/AddMaintenanceDialog.tsx:18-27 | The data of an accepted maintenance form has non-empty type and description, a mileage, and a cost that is absent or not negative. |
| `Forms.LowNextDueMileageRejected` | apps/backend/src/models/Maintenance.ts:68-71 | The form lets a nextDueMileage below 1000 through, and the server's model then refuses the record. |
| `Forms.DefaultsNeedRequiredFields` | apps/web/src/components/AddMaintenanceDialog.tsx:61-63 | The form's defaults (`Forms.MaintenanceDefaults`: only the date, today) do not submit. Exactly type, description and mileage raise an issue. |
| `Forms.DefaultsFilledIn` | apps/web/src/components/AddMaintenanceDialog.tsx:61-63 | With type, description and mileage filled in over the defaults, the form submits exactly when type and description are non-empty and mileage is at least 0. |
| `Forms.PasswordFormSpec` | apps/web/src/pages/ChangePassword.tsx:8-17 | The form is accepted iff the three fields pass and the confirmation equals the new password. When only the match fails, the single issue is on confirmPassword. |
| `Forms.PasswordRequest` | apps/web/src/pages/ChangePassword.tsx:75 | The request carries currentPassword and newPassword, never the confirmation. |
| `Forms.PasswordRequestAccepted` | apps/backend/src/routes/userRoutes.ts:44-47 | Every request from an accepted password form passes changePasswordSchema. |
| `Forms.LoginFormMatchesServer` | apps/web/src/pages/Login.tsx:10-13 | The login form accepts exactly the bodies that the server's loginSchema accepts. |
| `Session.AuthSession.constructor` | apps/web/src/contexts/AuthProvider.tsx:7-8 | Token and user are restored from storage, and the state is persisted. |
| `Session.AuthSession.Login` | apps/web/src/contexts/AuthProvider.tsx:10-15 | Sets token and user and writes both keys. The state becomes persisted, and authenticated for a non-empty token. |
| `Session.AuthSession.Logout` | apps/web/src/contexts/AuthProvider.tsx:17-22 | Clears both values and removes exactly those two keys. The state becomes unauthenticated. |
| `Session.AuthSession.UpdateProfile` | apps/web/src/contexts/AuthProvider.tsx:24-31 | The user becomes `{...user, ...profile}` and only `user` is rewritten, so the token and authentication stay. |
| `Session.ProtectedRouteFollowsSession` | apps/web/src/contexts/AuthProvider.tsx:36-37 | With the provider's constant `isLoading`, ProtectedRoute (`Session.ProtectedRouteView`) shows its children exactly when the session is authenticated, and never the loader. |
| `Session.GuardsExclusive` | apps/web/src/components/AuthedRoute.tsx:12-14 | ProtectedRoute and AuthedRoute (`Session.AuthedRouteView`) never both render their children, and with only one of token and user both redirect. |
| `Session.From` | apps/web/src/pages/Login.tsx:22 | The page to return to is the remembered pathname when it is non-empty, and otherwise '/'. |
| `Session.RedirectRoundTrip` | apps/web/src/components/ProtectedRoute.tsx:18-20 | A page the guard redirected to /login from is the page login returns to. |
| `Session.VisibleLinks` | apps/web/src/components/Navbar.tsx:39-46 | A link shows exactly when it needs no authentication or the user is authenticated. |
| `Session.NavbarLinks` | apps/web/src/components/Navbar.tsx:7-12 | Signed out, only About shows. Signed in, all four links show in order. |
| `Session.HandleAuthClick` | apps/web/src/components/Navbar.tsx:19-27 | Signed in: log out and go home. Signed out: go to /login and change nothing. |
| `Session.AvatarSrc` | apps/web/src/components/Navbar.tsx:55 | The avatar source is always truthy: the user's picture when it is truthy, and the default avatar otherwise. |
| `Dialogs.AddMaintenanceDialog.constructor` | apps/web/src/components/AddMaintenanceDialog.tsx:50-64 | Starts with no error, the default values and no query invalidated. |
| `Dialogs.AddMaintenanceDialog.Submit` | apps/web/src/components/AddMaintenanceDialog.tsx:87-90 | Clears the error and sends the payload built from the data and the dialog's car. |
| `Dialogs.AddMaintenanceDialog.Settle` | apps/web/src/components/AddMaintenanceDialog.tsx:73-84 | An error shows its text and changes nothing else. A success invalidates `['maintenance', carId]`, resets the form, clears the error and closes. |
| `Dialogs.AddMaintenanceDialog.OnError` | apps/web/src/components/AddMaintenanceDialog.tsx:82-84 | Shows the message, or "Failed to add maintenance record" when it is empty, so an error is never blank. |
| `Dialogs.AddMaintenanceDialog.HandleClose` | apps/web/src/components/AddMaintenanceDialog.tsx:92-96 | Resets the form, clears the error and closes. |
| `Dialogs.EditCarDialog.constructor` | apps/web/src/components/EditCarDialog.tsx:26-37 | Starts with no error, empty values and nothing invalidated. |
| `Dialogs.EditCarDialog.Sync` | apps/web/src/components/EditCarDialog.tsx:40-49 | Prefills from the car only when a car is present and the dialog is open. |
| `Dialogs.EditCarDialog.Submit` | apps/web/src/components/EditCarDialog.tsx:52-54 | Without a car, fails with "No car selected". Otherwise sends the edit request. |
| `Dialogs.EditCarDialog.Settle` | apps/web/src/components/EditCarDialog.tsx:55-65 | An error shows its text. A success invalidates `['cars']` and closes. The form values are never reset. |
| `Dialogs.EditCarDialog.HandleClose` | apps/web/src/components/EditCarDialog.tsx:73-76 | Clears the error and closes, keeping the values. |
| `Dialogs.DetailErrorsKeys` | apps/web/src/pages/ChangePassword.tsx:52-58 | After the server details are applied, a field has an error exactly when it had one before or some detail names it. |
| `Dialogs.DetailErrorsKeep` | apps/web/src/pages/ChangePassword.tsx:53-57 | A field that no detail names keeps its error. |
| `Dialogs.DetailErrorsLastWins` | apps/web/src/pages/ChangePassword.tsx:53-57 | A field shows the message of the last detail that names it. |
| `Dialogs.ServerDetailNamesField` | apps/backend/src/middleware/validation.ts:12-15 | A detail the server sends for a named field is applied to that field with its message. |
| `Dialogs.ChangePasswordPage.constructor` | apps/web/src/pages/ChangePassword.tsx:30-34 | Starts with no success message, no errors and empty values. |
| `Dialogs.ChangePasswordPage.Submit` | apps/web/src/pages/ChangePassword.tsx:73-82 | A validated submit replaces the field errors with the resolver's empty result, so errors from an earlier attempt are gone. It then clears the success message and sends current and new password only. |
| `Dialogs.ChangePasswordPage.Settle` | apps/web/src/pages/ChangePassword.tsx:37-62 | An error or falsy data goes to the error handler. An array of details then sets the field errors from it. Otherwise the error text, or the fallback, goes on currentPassword. The success message and values are kept. Otherwise it shows the reply's message, or "Password changed", and resets the form. |
| `Dialogs.ChangePasswordPage.OnError` | apps/web/src/pages/ChangePassword.tsx:46-70 | Details that are an array are applied field by field. Otherwise the error text, or the fallback, is put on currentPassword. |
| `Dialogs.ChangePasswordPage.ApplyDetails` | apps/web/src/pages/ChangePassword.tsx:53-57 | The `forEach` leaves exactly the errors that `DetailErrors` specifies. |
| `Dialogs.LoginPage.constructor` | apps/web/src/pages/Login.tsx:20-22 | Starts with no error and remembers `from`. |
| `Dialogs.LoginPage.OnSubmit` | apps/web/src/pages/Login.tsx:32-54 | A thrown call shows "Login failed. Please try again.". An error shows its text. Neither changes the session. Data logs in, persists and navigates to `from`. A reply with neither leaves the error cleared, the session unchanged and no navigation. |
| `Chat.FirstMatch` | apps/web/src/components/ChatPanel.tsx:161-185 | A topic other than General comes from a rule whose keywords the input mentions. |
| `Chat.FirstMatchFrom` | apps/web/src/components/ChatPanel.tsx:161-185 | A topic other than General found from some rule onwards comes from a rule at or after it whose keywords the input mentions. |
| `Chat.TableOrder` | apps/web/src/components/ChatPanel.tsx:161-185 | The keyword table gives the topic of the first of oil, tire/rotation, brake, schedule, cost/price/expensive and thank whose keywords are mentioned, and General otherwise. |
| `Chat.MentionsOne` | apps/web/src/components/ChatPanel.tsx:169 | A one-keyword rule matches exactly when the text contains the keyword. |
| `Chat.MentionsTwo` | apps/web/src/components/ChatPanel.tsx:165 | A two-keyword rule matches exactly when the text contains either keyword. |
| `Chat.MentionsThree` | apps/web/src/components/ChatPanel.tsx:177 | A three-keyword rule matches exactly when the text contains one of the three. |
| `Chat.FirstMatchUnrolled` | apps/web/src/components/ChatPanel.tsx:161-185 | The keyword table is tried in the source's order: oil, tire/rotation, brake, schedule, cost/price/expensive, thank, then General. |
| `Chat.ClassifyIsFirstMatch` | apps/web/src/components/ChatPanel.tsx:159-185 | The literal tests, "oil change", "maintenance schedule" and "thanks" included, equal the keyword table on the lower-cased input. The longer tests are redundant. |
| `Chat.ClassifyIgnoresCase` | apps/web/src/components/ChatPanel.tsx:159 | Classification does not depend on ASCII letter case. |
| `Chat.ReplyInitial` | apps/web/src/components/ChatPanel.tsx:161-185 | Every reply is non-empty and starts with its topic's own letter. |
| `Chat.ReplyIdentifiesTopic` | apps/web/src/components/ChatPanel.tsx:161-185 | Different topics never give the same reply, whatever the car. |
| `Chat.OnlyOilAndGeneralMentionCar` | apps/web/src/components/ChatPanel.tsx:165-183 | The tire, brake, schedule, cost and thanks replies do not depend on the car. |
| `Chat.OilReplyNamesCar` | apps/web/src/components/ChatPanel.tsx:162 | The oil reply names the car as `year brand model`. |
| `Chat.GreetingNamesCar` | apps/web/src/components/ChatPanel.tsx:29-31 | The greeting for a known car names it. |
| `Chat.TrimmedIsTrimFixed` | apps/web/src/components/ChatPanel.tsx:53 | A message counts as trimmed exactly when it is non-empty and `trim` leaves it unchanged. |
| `Chat.TrimIsTrimmed` | apps/web/src/components/ChatPanel.tsx:48-53 | A non-empty `input.trim()` is a valid question: non-empty, with no whitespace at either end. |
| `Chat.AnswerIsGenerated` | apps/web/src/components/ChatPanel.tsx:66 | The answer to a question is `generateResponse` of it. |
| `Chat.ConversationSpec` | apps/web/src/components/ChatPanel.tsx:25-72 | A conversation starts with the greeting. Then user questions, trimmed and non-empty, alternate with assistant replies, each answering the question before it. |
| `Chat.ConversationAppend` | apps/web/src/components/ChatPanel.tsx:57 | Appending a well-placed message keeps the conversation well formed. |
| `Chat.AppendQuestion` | apps/web/src/components/ChatPanel.tsx:50-57 | After an assistant message, a trimmed question may be appended. |
| `Chat.AppendAnswer` | apps/web/src/components/ChatPanel.tsx:62-69 | After a question, its generated answer may be appended. |
| `Chat.SendKeepsInvariant` | apps/web/src/components/ChatPanel.tsx:47-59 | Sending a trimmed question when nothing is pending keeps the panel state consistent: the conversation is well formed, loading, and the question is pending. |
| `Chat.DeliverKeepsInvariant` | apps/web/src/components/ChatPanel.tsx:62-71 | Delivering the answer to the pending question keeps the conversation well formed and ends the loading. |
| `Chat.ChatPanel.constructor` | apps/web/src/components/ChatPanel.tsx:25-36 | Starts with just the greeting for its car, empty input and not loading. Its `respond` answers every question with generateResponse for that car. |
| `Chat.ChatPanel.SetInput` | apps/web/src/components/ChatPanel.tsx:35 | Changes the input only. |
| `Chat.ChatPanel.HandleSend` | apps/web/src/components/ChatPanel.tsx:47-59 | Sends exactly when the trimmed input is non-empty and no reply is pending. It then appends the trimmed question, clears the input and waits for a reply. Otherwise nothing changes. |
| `Chat.ChatPanel.DeliverReply` | apps/web/src/components/ChatPanel.tsx:62-71 | Appends the answer to the pending question, which is generateResponse of it for the panel's car, and stops loading, keeping the conversation well formed. |

## Left out

- Database failures other than a failed validation, a duplicate id and a taken email (connection loss, timeouts) are not modelled. The generic 500 branches they reach are therefore not modelled either.
- MongoDB casts ids to ObjectId, and a malformed id then gives 500 instead of 404. This is not modelled: ids are plain strings.
- Controllers.Store.GetCars: the `createdAt` descending sort is not modelled. The listing is a map from id to document.
- Controllers.Store.GetMaintenance: the `date` descending sort is not modelled, for the same reason.
- Timestamps (`createdAt`, `updatedAt`) are left out. They carry no behaviour the handlers depend on.
- Controllers.Store.GetCars: the case of a request without a user id (`userId: undefined` in the filter) is not modelled. Every car route runs behind `authenticateToken`, and `uid` stands for the verified id.
- Controllers.Store.Register: the `details` of the 400 answer (`error.flatten()`) are not carried in the reply. `Zod.Flatten` models them separately, and `Zod.FlattenSpec` is their contract.
- Controllers.Store.Login: for the same reason, the 400 answer does not carry its `details`.
- JWT signing, expiry and the secret are modelled as the `verify` parameter and the claims a token is signed with. Cryptography is not modelled.
- bcrypt's hashing and salt rounds are modelled as the `Crypto` parameter. `Sound` states bcrypt's guarantee instead of proving it.
- zod's email pattern and Node's base64 decoding are modelled as the `Oracles` parameter.
- zod's wording for type errors is modelled as one constant, "Invalid input".
- Zod.RuleIssues: NaN is not modelled. The number inputs of the maintenance form give NaN when empty, and NaN fails the `z.number()` type check. The model has no NaN value.
- `toLowerCase` is modelled on ASCII letters only. `trim` uses the ECMAScript whitespace set, but lengths are counted in code points, not UTF-16 units.
- Paths are matched as given: percent-decoding and trailing slashes are not modelled.
- Local storage is modelled as a map of JSON values, not as text. The JSON text round trip is not modelled.
- Timers, `Date.now` and message ids are not modelled. The chat's one-second delay is the separate `DeliverReply` step, and the clock and ids are parameters.
- Rendering is not modelled (markup, scrolling, the theme toggle and the 3D car view), nor the upload routes, the health check or the layout Navbar.
- Chat.ChatPanel: the open/close state and `handleKeyPress` are not modelled. They only forward to the parent and to `handleSend`. The car is fixed when the panel is constructed. In the component, later replies use the current `carInfo` prop, so a panel whose prop changes answers for the new car; the model does not capture that.
- Session.RestoredUser: a stored `user` that is not an object restores as no user. The source's `getItem` hands on whatever `JSON.parse` gives, or the raw string when parsing fails, so such a value would reach the context as the user.
- Dialogs.EditCarDialog: the `if (!car) return null` render guard is not modelled; rendering is out of scope.
- Chat.CarName: only a whole `year` is printed. A non-integral year would print with a fraction.
- Dialogs.ChangePasswordPage.OnError: details entries that are not objects with a string `field` are skipped. The source would read `d.field` from them and can fail on `null`.
- Models.MaintenanceFieldOk: Mongoose's casting is not modelled. A string such as "5000" where a number is declared, or a number such as 5 where a string is declared, is refused (500) instead of being cast and stored. This matters for Controllers.Store.CreateMaintenance and Controllers.Store.UpdateMaintenance, whose routes have no validator.
- Models.DateCastOk: every non-empty string is taken as a date. A string the Date cast cannot parse, such as "garbage", is stored (Controllers.Store.CreateMaintenance answers 201, Controllers.Store.UpdateMaintenance 200) instead of answered with 500; '', null, booleans, arrays and objects are refused as the cast refuses them.
- Controllers.Store.UpdateMaintenance: update operators are not modelled. A body such as `{"$set": {...}}` or `{"$unset": {...}}` is applied by `findOneAndUpdate` in the source. In the model, `Models.Overlay` ignores such keys because they are not schema paths, so the record is answered with 200 unchanged.
- Controllers.Store.GetMaintenance and Controllers.Store.CreateMaintenance: Mongoose's casting of query filters is not modelled. In the source, an array `carId` (`?carId=a&carId=b`) acts as `$in`, and an operator object acts as an operator. The model compares `carId` by value. So GetMaintenance lists nothing for such a query. CreateMaintenance answers 500 for any non-string carId, where the source's `Car.findOne` may match, or answers 404 when it matches no owned car.
- The `attachments` field createMaintenance copies is not part of the Maintenance schema, so the model drops it from the stored record, as strict mode does.
