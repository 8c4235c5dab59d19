/** The component state the web client changes in response to a request's
    outcome: AddMaintenanceDialog, EditCarDialog, the ChangePassword page and
    the Login page. A request's outcome is what the API helper resolves to:
    the reply's data on success, or its `error` text and, for a validation
    failure, its `details`. The request itself and the query cache are
    outside the model; a cache invalidation is recorded by its query key. */
module Dialogs {
  import opened Json
  import opened Forms
  import opened Session
  import Gate

  /** `{ data }` or `{ error, message, details }`; `None` for a key that is
      absent. */
  datatype ApiResult<T> = ApiResult(data: Option<T>, error: Option<string>, details: Option<Json>)

  /** `if (response.error)`. */
  predicate HasError<T>(res: ApiResult<T>)
  {
    res.error.Some? && res.error.value != ""
  }

  //---------------------------------------------------------------------------
  // AddMaintenanceDialog
  //---------------------------------------------------------------------------

  const AddMaintenanceFailed: string := "Failed to add maintenance record"

  class AddMaintenanceDialog {
    const carId: string
    const today: string
    var open: bool
    var error: string
    var values: Object
    var invalidated: seq<seq<string>>

    constructor (carId: string, today: string, open: bool)
      ensures this.carId == carId && this.today == today && this.open == open
      ensures error == "" && values == MaintenanceDefaults(today) && invalidated == []
    {
      this.carId := carId;
      this.today := today;
      this.open := open;
      error := "";
      values := MaintenanceDefaults(today);
      invalidated := [];
    }

    /** onSubmit with validated data: clears the error and yields the
        payload to send. */
    method Submit(data: Object) returns (payload: Object)
      modifies this
      ensures error == "" && payload == MaintenancePayload(data, carId)
      ensures open == old(open) && values == old(values) && invalidated == old(invalidated)
    {
      error := "";
      payload := MaintenancePayload(data, carId);
    }

    /** The mutation's end: an error reply is thrown as an Error carrying its
        text, which onError shows (the fallback text for an empty one); any
        other reply runs onSuccess, which invalidates this car's maintenance
        list, resets the form, clears the error and closes. */
    method Settle(res: ApiResult<Json>)
      modifies this
      ensures HasError(res) ==>
        error == res.error.value && open == old(open) && values == old(values) && invalidated == old(invalidated)
      ensures !HasError(res) ==>
        && invalidated == old(invalidated) + [["maintenance", carId]]
        && values == MaintenanceDefaults(today) && error == "" && !open
    {
      if HasError(res) {
        OnError(res.error.value);
        return;
      }
      invalidated := invalidated + [["maintenance", carId]];
      values := MaintenanceDefaults(today);
      error := "";
      open := false;
    }

    /** onError: the error's message, or the fallback when it is empty. */
    method OnError(message: string)
      modifies this
      ensures error == (if message != "" then message else AddMaintenanceFailed)
      ensures error != ""
      ensures open == old(open) && values == old(values) && invalidated == old(invalidated)
    {
      error := if message != "" then message else AddMaintenanceFailed;
    }

    /** handleClose: resets the form and the error and closes. */
    method HandleClose()
      modifies this
      ensures values == MaintenanceDefaults(today) && error == "" && !open
      ensures invalidated == old(invalidated)
    {
      values := MaintenanceDefaults(today);
      error := "";
      open := false;
    }
  }

  //---------------------------------------------------------------------------
  // EditCarDialog
  //---------------------------------------------------------------------------

  const NoCarSelected: string := "No car selected"
  const UpdateCarFailed: string := "Failed to update car"

  class EditCarDialog {
    var open: bool
    var car: Option<CarView>
    var error: string
    var values: Object
    var invalidated: seq<seq<string>>

    constructor (open: bool, car: Option<CarView>)
      ensures this.open == open && this.car == car
      ensures error == "" && values == map[] && invalidated == []
    {
      this.open := open;
      this.car := car;
      error := "";
      values := map[];
      invalidated := [];
    }

    /** The effect run when car or open changes: with a car and open, the
        form is reset to the car's values; otherwise nothing changes. */
    method Sync()
      modifies this
      ensures car.Some? && open ==> values == Prefill(car.value)
      ensures !(car.Some? && open) ==> values == old(values)
      ensures open == old(open) && car == old(car) && error == old(error) && invalidated == old(invalidated)
    {
      if car.Some? && open {
        values := Prefill(car.value);
      }
    }

    /** onSubmit with validated data: clears the error, then yields the
        request for the selected car; without a car the mutation throws and
        onError shows `No car selected`. */
    method Submit(data: Object) returns (q: Option<Request>)
      modifies this
      ensures car.Some? ==> q == Some(EditCarRequest(car.value, data)) && error == ""
      ensures car.None? ==> q.None? && error == NoCarSelected
      ensures open == old(open) && car == old(car) && values == old(values) && invalidated == old(invalidated)
    {
      error := "";
      if car.None? {
        error := NoCarSelected;
        return None;
      }
      q := Some(EditCarRequest(car.value, data));
    }

    /** The mutation's end: an error reply shows its text (the fallback for an
        empty one); otherwise the car list is invalidated, the error cleared
        and the dialog closed. The form is not reset. */
    method Settle(res: ApiResult<Json>)
      modifies this
      ensures HasError(res) ==> error == res.error.value && open == old(open) && invalidated == old(invalidated)
      ensures !HasError(res) ==> invalidated == old(invalidated) + [["cars"]] && error == "" && !open
      ensures car == old(car) && values == old(values)
    {
      if HasError(res) {
        error := if res.error.value != "" then res.error.value else UpdateCarFailed;
        return;
      }
      invalidated := invalidated + [["cars"]];
      error := "";
      open := false;
    }

    /** handleClose: clears the error and closes, keeping the form values. */
    method HandleClose()
      modifies this
      ensures error == "" && !open
      ensures car == old(car) && values == old(values) && invalidated == old(invalidated)
    {
      error := "";
      open := false;
    }
  }

  //---------------------------------------------------------------------------
  // ChangePassword
  //---------------------------------------------------------------------------

  const PasswordChanged: string := "Password changed"
  const ChangePasswordFailed: string := "Failed to change password"

  /** The form field a server detail names, when its `field` is truthy. */
  function DetailField(d: Json): Option<string>
  {
    if d.JObj? && "field" in d.fields && d.fields["field"].JStr? && d.fields["field"].s != ""
    then Some(d.fields["field"].s) else None
  }

  /** `setError(d.field, { message: d.message })` for one detail. */
  function ApplyDetail(errors: map<string, Option<Json>>, d: Json): map<string, Option<Json>>
  {
    var f := DetailField(d);
    if f.Some? then errors[f.value := Get(d.fields, "message")] else errors
  }

  /** The field errors after `details.forEach(...)`. */
  function DetailErrors(errors: map<string, Option<Json>>, items: seq<Json>): map<string, Option<Json>>
    decreases |items|
  {
    if items == [] then errors
    else ApplyDetail(DetailErrors(errors, items[..|items| - 1]), items[|items| - 1])
  }

  /** A field has an error after the details exactly when it had one before
      or some detail names it. */
  lemma {:induction false} DetailErrorsKeys(errors: map<string, Option<Json>>, items: seq<Json>, k: string)
    ensures k in DetailErrors(errors, items) <==>
      k in errors || exists i :: 0 <= i < |items| && DetailField(items[i]) == Some(k)
    decreases |items|
  {
    if items != [] {
      var init := items[..|items| - 1];
      DetailErrorsKeys(errors, init, k);
      if exists i :: 0 <= i < |init| && DetailField(init[i]) == Some(k) {
        var i :| 0 <= i < |init| && DetailField(init[i]) == Some(k);
        assert items[i] == init[i];
      }
      if exists i :: 0 <= i < |items| && DetailField(items[i]) == Some(k) {
        var i :| 0 <= i < |items| && DetailField(items[i]) == Some(k);
        if i < |init| {
          assert init[i] == items[i];
        }
      }
    }
  }

  /** A field no detail names keeps its error. */
  lemma {:induction false} DetailErrorsKeep(errors: map<string, Option<Json>>, items: seq<Json>, k: string)
    requires k in errors
    requires forall i :: 0 <= i < |items| ==> DetailField(items[i]) != Some(k)
    ensures k in DetailErrors(errors, items) && DetailErrors(errors, items)[k] == errors[k]
    decreases |items|
  {
    if items != [] {
      var init := items[..|items| - 1];
      assert forall i :: 0 <= i < |init| ==> init[i] == items[i];
      DetailErrorsKeep(errors, init, k);
      assert DetailField(items[|items| - 1]) != Some(k);
    }
  }

  /** The last detail naming a field decides its error: that detail's
      message. */
  lemma {:induction false} DetailErrorsLastWins(errors: map<string, Option<Json>>, items: seq<Json>, i: nat)
    requires i < |items| && DetailField(items[i]).Some?
    requires forall j :: i < j < |items| ==> DetailField(items[j]) != DetailField(items[i])
    ensures DetailField(items[i]).value in DetailErrors(errors, items)
    ensures DetailErrors(errors, items)[DetailField(items[i]).value] == Get(items[i].fields, "message")
    decreases |items|
  {
    var init := items[..|items| - 1];
    if i < |init| {
      assert init[i] == items[i];
      assert forall j :: i < j < |init| ==> init[j] == items[j];
      DetailErrorsLastWins(errors, init, i);
      assert DetailField(items[|items| - 1]) != DetailField(items[i]);
    }
  }

  /** A server validation detail for a path lands on the field the path's
      joined name denotes, with the issue's message. */
  lemma ServerDetailNamesField(d: Gate.Detail)
    requires d.field != ""
    ensures DetailField(Gate.DetailJson(d)) == Some(d.field)
    ensures Get(Gate.DetailJson(d).fields, "message") == Some(JStr(d.message))
  {
  }

  class ChangePasswordPage {
    var successMessage: Option<Json>
    var errors: map<string, Option<Json>>
    var values: Object

    constructor ()
      ensures successMessage.None? && errors == map[] && values == map[]
    {
      successMessage := None;
      errors := map[];
      values := map[];
    }

    /** `handleSubmit(onSubmit)` with validated values: the resolver's empty
        result replaces the field errors, then onSubmit clears the success
        message and yields the request body, which leaves the confirmation
        out. */
    method Submit(currentPassword: string, newPassword: string) returns (body: Object)
      modifies this
      ensures successMessage.None? && body == PasswordRequest(currentPassword, newPassword)
      ensures errors == map[] && values == old(values)
    {
      errors := map[];
      successMessage := None;
      body := PasswordRequest(currentPassword, newPassword);
    }

    /** The mutation's end: a reply with an error or without data is thrown
        and handled by onError; otherwise onSuccess shows the reply's message,
        or `Password changed`, and resets the form. */
    method Settle(res: ApiResult<Json>)
      modifies this
      ensures !HasError(res) && Truthy(res.data) ==>
        && var message := if res.data.value.JObj? then Get(res.data.value.fields, "message") else None;
        && successMessage == Some(Coalesce(message, JStr(PasswordChanged)))
        && errors == map[] && values == map[]
      ensures HasError(res) || !Truthy(res.data) ==> successMessage == old(successMessage) && values == old(values)
      ensures (HasError(res) || !Truthy(res.data)) && res.details.Some? && res.details.value.JArr? ==>
        errors == DetailErrors(old(errors), res.details.value.items)
      ensures (HasError(res) || !Truthy(res.data)) && !(res.details.Some? && res.details.value.JArr?) && res.error.Some? ==>
        errors == old(errors)["currentPassword" := Some(JStr(res.error.value))]
      ensures (HasError(res) || !Truthy(res.data)) && !(res.details.Some? && res.details.value.JArr?) && res.error.None? ==>
        errors == old(errors)["currentPassword" := Some(JStr(ChangePasswordFailed))]
    {
      if HasError(res) || !Truthy(res.data) {
        OnError(res);
        return;
      }
      var message := if res.data.value.JObj? then Get(res.data.value.fields, "message") else None;
      successMessage := Some(Coalesce(message, JStr(PasswordChanged)));
      errors := map[];
      values := map[];
    }

    /** onError: an array of details sets the field errors and nothing else;
        otherwise a string error goes on currentPassword; otherwise the
        fallback text does. */
    method OnError(res: ApiResult<Json>)
      modifies this
      ensures res.details.Some? && res.details.value.JArr? ==> errors == DetailErrors(old(errors), res.details.value.items)
      ensures !(res.details.Some? && res.details.value.JArr?) && res.error.Some? ==>
        errors == old(errors)["currentPassword" := Some(JStr(res.error.value))]
      ensures !(res.details.Some? && res.details.value.JArr?) && res.error.None? ==>
        errors == old(errors)["currentPassword" := Some(JStr(ChangePasswordFailed))]
      ensures successMessage == old(successMessage) && values == old(values)
    {
      if res.details.Some? && res.details.value.JArr? {
        ApplyDetails(res.details.value.items);
        return;
      }
      if res.error.Some? {
        errors := errors["currentPassword" := Some(JStr(res.error.value))];
        return;
      }
      errors := errors["currentPassword" := Some(JStr(ChangePasswordFailed))];
    }

    /** The forEach over the details. */
    method ApplyDetails(items: seq<Json>)
      modifies this
      ensures errors == DetailErrors(old(errors), items)
      ensures successMessage == old(successMessage) && values == old(values)
    {
      var i := 0;
      while i < |items|
        invariant 0 <= i <= |items|
        invariant errors == DetailErrors(old(errors), items[..i])
        invariant successMessage == old(successMessage) && values == old(values)
      {
        assert items[..i + 1][..i] == items[..i];
        errors := ApplyDetail(errors, items[i]);
        i := i + 1;
      }
      assert items[..i] == items;
    }
  }

  //---------------------------------------------------------------------------
  // Login
  //---------------------------------------------------------------------------

  const LoginFailed: string := "Login failed. Please try again."

  /** The data of a successful login reply. */
  datatype AuthData = AuthData(token: string, user: Object)

  class LoginPage {
    const from: string
    var error: string
    var navigatedTo: Option<string>

    constructor (location: Location)
      ensures from == From(location) && error == "" && navigatedTo.None?
    {
      from := From(location);
      error := "";
      navigatedTo := None;
    }

    /** onSubmit's outcome for a call that threw (`None`) or resolved: a throw
        shows the fallback text; an error reply shows its text and neither
        logs in nor navigates; a reply with data logs in with its token and
        user and then navigates to `from`, replacing the entry. */
    method OnSubmit(res: Option<ApiResult<AuthData>>, auth: AuthSession)
      modifies this, auth
      ensures res.None? ==> error == LoginFailed && navigatedTo == old(navigatedTo)
      ensures res.Some? && HasError(res.value) ==> error == res.value.error.value && navigatedTo == old(navigatedTo)
      ensures res.None? || HasError(res.value) || res.value.data.None? ==>
        auth.token == old(auth.token) && auth.user == old(auth.user) && auth.storage == old(auth.storage)
      ensures res.Some? && !HasError(res.value) && res.value.data.Some? ==>
        && error == "" && navigatedTo == Some(from)
        && auth.token == Some(res.value.data.value.token) && auth.user == Some(res.value.data.value.user)
        && auth.Persisted()
      ensures res.Some? && !HasError(res.value) && res.value.data.None? ==> error == "" && navigatedTo == old(navigatedTo)
    {
      error := "";
      if res.None? {
        error := LoginFailed;
        return;
      }
      if HasError(res.value) {
        error := res.value.error.value;
        return;
      }
      if res.value.data.Some? {
        auth.Login(res.value.data.value.token, res.value.data.value.user);
        navigatedTo := Some(from);
      }
    }
  }
}
