/** The response validators (frontend/src/lib/api-validator.ts): `typeof` checks on the fields of a
    response, and `Array.every` over its list. Two of them read a property of each list element
    after only `typeof item === 'object'`, which a null element passes; reading its property throws,
    so those two return a `Completion`. */
module ApiValidator {
  import opened JsonValues
  import Records

  datatype Completion = Returns(value: bool) | Throws

  /** `typeof data === 'object' && data !== null`, the guard every validator starts with. */
  predicate IsObject(v: Json)
  {
    TypeOf(v) == "object" && !v.JNull?
  }

  predicate HasType(v: Json, key: string, t: string)
    requires IsObject(v)
  {
    TypeOf(Get(v, key)) == t
  }

  predicate ValidateUserResponse(data: Json)
  {
    IsObject(data) && HasType(data, "id", "string") && HasType(data, "name", "string")
    && HasType(data, "email", "string")
  }

  predicate ValidateMealResponse(data: Json)
  {
    IsObject(data) && HasType(data, "id", "string") && HasType(data, "name", "string")
    && HasType(data, "calories", "number") && HasType(data, "protein", "number")
    && HasType(data, "carbs", "number") && HasType(data, "fat", "number")
  }

  predicate ValidateMealsResponse(data: Json)
  {
    IsObject(data) && Get(data, "meals").JArray?
    && (HasType(data, "total", "number") || HasType(data, "total", "undefined"))
  }

  predicate ValidateMealPlanResponse(data: Json)
  {
    IsObject(data) && HasType(data, "id", "string") && HasType(data, "name", "string")
    && HasType(data, "target_calories", "number") && HasType(data, "meals_per_day", "number")
  }

  predicate ValidateWorkoutResponse(data: Json)
  {
    IsObject(data) && HasType(data, "id", "string") && HasType(data, "name", "string")
    && HasType(data, "duration", "number") && HasType(data, "calories_burned", "number")
    && HasType(data, "type", "string")
  }

  predicate ValidateWorkoutsResponse(data: Json)
  {
    IsObject(data) && Get(data, "workouts").JArray?
  }

  predicate ValidateWorkoutPlanResponse(data: Json)
  {
    IsObject(data) && HasType(data, "id", "string") && HasType(data, "name", "string")
    && HasType(data, "duration_weeks", "number") && HasType(data, "sessions_per_week", "number")
  }

  /** `Array.every`: stops at the first element whose check is false or throws. */
  function Every(items: seq<Json>, check: Json -> Completion): Completion
  {
    if |items| == 0 then Returns(true)
    else match check(items[0])
      case Throws => Throws
      case Returns(ok) => if ok then Every(items[1..], check) else Returns(false)
  }

  /** `every` returns true exactly when every element's check returns true. */
  lemma {:induction false} EveryTrueIff(items: seq<Json>, check: Json -> Completion)
    ensures Every(items, check) == Returns(true) <==> forall i :: 0 <= i < |items| ==> check(items[i]) == Returns(true)
  {
    if |items| > 0 {
      EveryTrueIff(items[1..], check);
      assert forall i :: 1 <= i < |items| ==> items[1..][i - 1] == items[i];
    }
  }

  /** `every` throws when an element throws after only passing elements. */
  lemma {:induction false} EveryThrowsAt(items: seq<Json>, check: Json -> Completion, k: nat)
    requires k < |items| && check(items[k]) == Throws
    requires forall j :: 0 <= j < k ==> check(items[j]) == Returns(true)
    ensures Every(items, check) == Throws
  {
    if k > 0 {
      EveryThrowsAt(items[1..], check, k - 1);
    }
  }

  /** `every` never throws when no element's check does. */
  lemma {:induction false} EveryNeverThrows(items: seq<Json>, check: Json -> Completion)
    requires forall i :: 0 <= i < |items| ==> check(items[i]) != Throws
    ensures Every(items, check) != Throws
  {
    if |items| > 0 {
      EveryNeverThrows(items[1..], check);
    }
  }

  /** The per-element check of the weight progress validator. */
  function WeightEntryCheck(item: Json): Completion
  {
    if TypeOf(item) != "object" then Returns(false)
    else if item.JNull? then Throws
    else Returns(HasType(item, "date", "string") && HasType(item, "weight", "number"))
  }

  /** The per-element check of the measurements validator: only the date. */
  function MeasurementEntryCheck(item: Json): Completion
  {
    if TypeOf(item) != "object" then Returns(false)
    else if item.JNull? then Throws
    else Returns(HasType(item, "date", "string"))
  }

  function ValidateWeightProgressResponse(data: Json): Completion
  {
    if IsObject(data) && Get(data, "progress").JArray? then Every(Get(data, "progress").items, WeightEntryCheck)
    else Returns(false)
  }

  function ValidateMeasurementsResponse(data: Json): Completion
  {
    if IsObject(data) && Get(data, "measurements").JArray? then Every(Get(data, "measurements").items, MeasurementEntryCheck)
    else Returns(false)
  }

  predicate ValidateLoginResponse(data: Json)
  {
    IsObject(data) && HasType(data, "token", "string") && HasType(data, "user", "object")
  }

  /** Null and every value that is not an object fail every validator, without throwing. */
  lemma RejectsNullAndNonObjects(v: Json)
    requires v.JNull? || TypeOf(v) != "object"
    ensures !ValidateUserResponse(v) && !ValidateMealResponse(v) && !ValidateMealsResponse(v)
    ensures !ValidateMealPlanResponse(v) && !ValidateWorkoutResponse(v) && !ValidateWorkoutsResponse(v)
    ensures !ValidateWorkoutPlanResponse(v) && !ValidateLoginResponse(v)
    ensures ValidateWeightProgressResponse(v) == Returns(false)
    ensures ValidateMeasurementsResponse(v) == Returns(false)
  {
  }

  /** The record validators accept exactly the plain objects that carry each named field with the
      named type. */
  lemma RecordValidatorsIff(v: Json)
    ensures ValidateUserResponse(v) <==>
      StringField(v, "id") && StringField(v, "name") && StringField(v, "email")
    ensures ValidateMealResponse(v) <==>
      StringField(v, "id") && StringField(v, "name") && NumberField(v, "calories")
      && NumberField(v, "protein") && NumberField(v, "carbs") && NumberField(v, "fat")
    ensures ValidateMealPlanResponse(v) <==>
      StringField(v, "id") && StringField(v, "name") && NumberField(v, "target_calories")
      && NumberField(v, "meals_per_day")
    ensures ValidateWorkoutResponse(v) <==>
      StringField(v, "id") && StringField(v, "name") && NumberField(v, "duration")
      && NumberField(v, "calories_burned") && StringField(v, "type")
    ensures ValidateWorkoutPlanResponse(v) <==>
      StringField(v, "id") && StringField(v, "name") && NumberField(v, "duration_weeks")
      && NumberField(v, "sessions_per_week")
  {
  }

  /** A meal whose `id` is a number is rejected. */
  lemma NumericMealIdRejected(v: Json)
    requires NumberField(v, "id")
    ensures !ValidateMealResponse(v)
  {
  }

  /** The backend's JSON form of a meal (the json tags of backend/internal/data/models.go). */
  function MealToJson(m: Records.Meal): Json
  {
    JObject(map[
      "id" := JNumber(m.id as real), "name" := JString(m.name), "calories" := JNumber(m.calories as real),
      "protein" := JNumber(m.protein as real), "carbs" := JNumber(m.carbs as real), "fat" := JNumber(m.fat as real)])
  }

  /** Consequently no meal as the Go backend encodes it passes `validateMealResponse`. */
  lemma BackendMealRejected(m: Records.Meal)
    ensures !ValidateMealResponse(MealToJson(m))
  {
    NumericMealIdRejected(MealToJson(m));
  }

  /** The list validators look at the list being an array and, for meals, at `total` being a number
      or absent; the elements are never looked at. */
  lemma ListValidatorsIff(v: Json)
    ensures ValidateMealsResponse(v) <==>
      v.JObject? && "meals" in v.fields && v.fields["meals"].JArray?
      && ("total" in v.fields ==> v.fields["total"].JNumber? || v.fields["total"].JUndefined?)
    ensures ValidateWorkoutsResponse(v) <==>
      v.JObject? && "workouts" in v.fields && v.fields["workouts"].JArray?
  {
  }

  lemma MealsElementsUnchecked(fields: map<string, Json>, a: seq<Json>, b: seq<Json>)
    ensures ValidateMealsResponse(JObject(fields["meals" := JArray(a)]))
         == ValidateMealsResponse(JObject(fields["meals" := JArray(b)]))
    ensures ValidateWorkoutsResponse(JObject(fields["workouts" := JArray(a)]))
         == ValidateWorkoutsResponse(JObject(fields["workouts" := JArray(b)]))
  {
  }

  /** A weight progress entry that passes: an object with a string date and a numeric weight. */
  predicate WeightEntry(item: Json)
  {
    StringField(item, "date") && NumberField(item, "weight")
  }

  /** `validateWeightProgressResponse` returns true exactly when `progress` is an array whose every
      element has a string date and a numeric weight. */
  lemma WeightProgressAcceptsIff(v: Json)
    ensures ValidateWeightProgressResponse(v) == Returns(true) <==>
      v.JObject? && "progress" in v.fields && v.fields["progress"].JArray?
      && forall i :: 0 <= i < |v.fields["progress"].items| ==> WeightEntry(v.fields["progress"].items[i])
  {
    if IsObject(v) && Get(v, "progress").JArray? {
      var items := Get(v, "progress").items;
      EveryTrueIff(items, WeightEntryCheck);
      assert forall i :: 0 <= i < |items| ==> (WeightEntryCheck(items[i]) == Returns(true) <==> WeightEntry(items[i]));
    }
  }

  /** An empty list is valid. */
  lemma EmptyProgressValid(fields: map<string, Json>)
    ensures ValidateWeightProgressResponse(JObject(fields["progress" := JArray([])])) == Returns(true)
    ensures ValidateMeasurementsResponse(JObject(fields["measurements" := JArray([])])) == Returns(true)
  {
  }

  /** A null entry reached by `every` throws instead of returning false; without null entries the
      validator never throws. */
  lemma NullProgressEntryThrows(fields: map<string, Json>, items: seq<Json>, k: nat)
    requires k < |items| && items[k].JNull?
    requires forall j :: 0 <= j < k ==> WeightEntry(items[j])
    ensures ValidateWeightProgressResponse(JObject(fields["progress" := JArray(items)])) == Throws
  {
    EveryThrowsAt(items, WeightEntryCheck, k);
  }

  lemma NoNullEntryNeverThrows(v: Json)
    requires v.JObject? && "progress" in v.fields && v.fields["progress"].JArray?
    requires JNull !in v.fields["progress"].items
    ensures ValidateWeightProgressResponse(v) != Throws
  {
    EveryNeverThrows(v.fields["progress"].items, WeightEntryCheck);
  }

  /** `validateMeasurementsResponse` checks the date of each entry and nothing else. */
  lemma MeasurementsAcceptsIff(v: Json)
    ensures ValidateMeasurementsResponse(v) == Returns(true) <==>
      v.JObject? && "measurements" in v.fields && v.fields["measurements"].JArray?
      && forall i :: 0 <= i < |v.fields["measurements"].items| ==> StringField(v.fields["measurements"].items[i], "date")
  {
    if IsObject(v) && Get(v, "measurements").JArray? {
      var items := Get(v, "measurements").items;
      EveryTrueIff(items, MeasurementEntryCheck);
      assert forall i :: 0 <= i < |items| ==>
        (MeasurementEntryCheck(items[i]) == Returns(true) <==> StringField(items[i], "date"));
    }
  }

  /** The login validator needs a string token and a `user` whose typeof is "object": null, an
      array or an object. A null user is therefore accepted, a missing one is not. */
  lemma LoginResponseIff(v: Json)
    ensures ValidateLoginResponse(v) <==>
      StringField(v, "token") && "user" in v.fields
      && (v.fields["user"].JNull? || v.fields["user"].JArray? || v.fields["user"].JObject?)
  {
  }

  lemma LoginAcceptsNullUser(token: string)
    ensures ValidateLoginResponse(JObject(map["token" := JString(token), "user" := JNull]))
    ensures !ValidateLoginResponse(JObject(map["token" := JString(token)]))
  {
  }
}
