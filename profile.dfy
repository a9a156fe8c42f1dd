/** The profile update: overwrite the fields the client sent, normalise the
    session snapshot, mark the profile filled and recompute the BMI. */
module Profile {
  import opened Wrappers
  import opened JsonValues
  import opened Models

  /** The body of a profile update. For each field, `None` means the key is
      absent; `Some(None)` means the client sent `null`. `sessionInfo` is
      `JNull` when the key is absent. */
  datatype ProfileUpdate = ProfileUpdate(
    name: Option<Option<string>>,
    age: Option<Option<int>>,
    gender: Option<Option<string>>,
    weight: Option<Option<real>>,
    height: Option<Option<real>>,
    goal: Option<Option<string>>,
    sessionInfo: Json)

  /** What the session part of an update does to the stored snapshot. */
  datatype SessionStep =
    | KeepSession                 // falsy `sessionInfo`: the stored value stays
    | StoreSession(info: SessionInfo)
    | SessionCrash                // `.get` on something that is not a dict

  /** The value the snapshot is read from: a string is first parsed as JSON
      (`parse` returns `None` on a decode error, which counts as `{}`); any
      other value is used as it is. */
  function SessionSource(raw: Json, parse: string -> Option<Json>): Json
  {
    if raw.JStr? then parse(raw.s).GetOr(JObj(map[])) else raw
  }

  /** `d.get('macros', {})`. */
  function MacrosOf(fields: map<string, Json>): Json
  {
    Get(fields, "macros", JObj(map[]))
  }

  /** `session_info.get(...)` rebuilt into the canonical snapshot. Each entry is
      the value sent under its key, or null when the key is missing; the source
      value and its `macros` entry must be objects, otherwise the attribute
      lookup fails. */
  function NormalizeSession(raw: Json, parse: string -> Option<Json>): (r: SessionStep)
    ensures !Truthy(raw) <==> r.KeepSession?
    ensures r.SessionCrash? <==>
              Truthy(raw) && (!SessionSource(raw, parse).JObj? || !MacrosOf(SessionSource(raw, parse).fields).JObj?)
    ensures r.StoreSession? ==>
              var v := SessionSource(raw, parse).fields;
              var m := MacrosOf(v).fields;
              && (if "dailyCalories" in v then r.info.dailyCalories == v["dailyCalories"] else r.info.dailyCalories == JNull)
              && (if "protein" in m then r.info.protein == m["protein"] else r.info.protein == JNull)
              && (if "carbs" in m then r.info.carbs == m["carbs"] else r.info.carbs == JNull)
              && (if "fats" in m then r.info.fats == m["fats"] else r.info.fats == JNull)
    ensures raw.JObj? && raw.fields != map[] && "macros" !in raw.fields ==>
              r == StoreSession(SessionInfo(Get(raw.fields, "dailyCalories", JNull), JNull, JNull, JNull))
    ensures raw.JStr? && raw.s != "" && parse(raw.s).None? ==> r == StoreSession(SessionInfo(JNull, JNull, JNull, JNull))
    ensures Truthy(raw) && !raw.JStr? && !raw.JObj? ==> r.SessionCrash?
  {
    if !Truthy(raw) then KeepSession
    else
      var v := SessionSource(raw, parse);
      if !v.JObj? then SessionCrash
      else
        var macros := MacrosOf(v.fields);
        if !macros.JObj? then SessionCrash
        else
          StoreSession(SessionInfo(
            Get(v.fields, "dailyCalories", JNull),
            Get(macros.fields, "protein", JNull),
            Get(macros.fields, "carbs", JNull),
            Get(macros.fields, "fats", JNull)))
  }

  /** The stored snapshot as the JSON object `json.dumps` writes. */
  function SessionToJson(si: SessionInfo): Json
  {
    JObj(map[
      "dailyCalories" := si.dailyCalories,
      "macros" := JObj(map["protein" := si.protein, "carbs" := si.carbs, "fats" := si.fats])])
  }

  /** Sending a stored snapshot back, as an object or as its JSON text, stores
      the same snapshot again: normalisation is idempotent. */
  lemma SessionRoundTrip(si: SessionInfo, parse: string -> Option<Json>, text: string)
    ensures NormalizeSession(SessionToJson(si), parse) == StoreSession(si)
    ensures text != "" && parse(text) == Some(SessionToJson(si)) ==>
              NormalizeSession(JStr(text), parse) == StoreSession(si)
  {
    var fields := SessionToJson(si).fields;
    assert "dailyCalories" in fields;
  }

  /** Python's `round(x)` on an exact number: the nearest integer, halves to
      the even neighbour. */
  function RoundHalfEven(x: real): (n: int)
    ensures n as real - 0.5 <= x <= n as real + 0.5
    ensures x - x.Floor as real == 0.5 ==> n % 2 == 0
  {
    var f := x.Floor;
    var frac := x - f as real;
    if frac < 0.5 then f
    else if frac > 0.5 then f + 1
    else if f % 2 == 0 then f
    else f + 1
  }

  /** `round(x, 1)`: the nearest multiple of 0.1. */
  function Round1(x: real): (r: real)
    ensures -0.05 <= r - x <= 0.05
    ensures (r * 10.0).Floor as real == r * 10.0
  {
    RoundHalfEven(x * 10.0) as real / 10.0
  }

  /** `user.weight and user.height and user.height > 0`: weight non-null and
      non-zero, height non-null and positive. */
  predicate BmiGuard(weight: Option<real>, height: Option<real>)
  {
    weight.Some? && weight.value != 0.0 && height.Some? && height.value > 0.0
  }

  /** Body-mass index from kilograms and centimetres, to one decimal. */
  function Bmi(weight: real, height: real): real
    requires height > 0.0
  {
    var meters := height / 100.0;
    Round1(weight / (meters * meters))
  }

  /** 70 kg at 175 cm: 70 / 1.75² = 22.857…, stored as 22.9. */
  lemma BmiExample()
    ensures Bmi(70.0, 175.0) == 22.9
  {
    var x := 70.0 / (1.75 * 1.75) * 10.0;
    assert 228.0 <= x < 229.0;
    assert x.Floor == 228;
    assert x - 228.0 > 0.5;
  }

  /** A user whose BMI agrees with their weight and height whenever the guard holds. */
  predicate BmiConsistent(u: User)
  {
    BmiGuard(u.weight, u.height) ==> u.bmi == Some(Bmi(u.weight.value, u.height.value))
  }

  /** The BMI step: recomputed when the guard holds, kept otherwise. */
  function WithBmi(u: User): User
  {
    if BmiGuard(u.weight, u.height) then u.(bmi := Some(Bmi(u.weight.value, u.height.value))) else u
  }

  /** A null `name` leaves the first name null, which the NOT NULL column
      refuses when the user is saved. */
  predicate NullName(upd: ProfileUpdate)
  {
    upd.name == Some(None)
  }

  /** What the update does to a user, or that it fails (and nothing is saved). */
  datatype UpdateOutcome = Updated(user: User) | UpdateCrashed

  /** The whole update of one user. */
  function ApplyUpdate(u: User, upd: ProfileUpdate, parse: string -> Option<Json>): (r: UpdateOutcome)
    ensures r.UpdateCrashed? <==> NormalizeSession(upd.sessionInfo, parse).SessionCrash? || NullName(upd)
    ensures r.Updated? ==>
              var v := r.user;
              && v.id == u.id && v.googleId == u.googleId && v.username == u.username && v.email == u.email
              && (upd.name.None? ==> v.firstName == u.firstName)
              && (upd.name.Some? ==> upd.name.value == Some(v.firstName))
              && v.age == upd.age.GetOr(u.age)
              && v.gender == upd.gender.GetOr(u.gender)
              && v.weight == upd.weight.GetOr(u.weight)
              && v.height == upd.height.GetOr(u.height)
              && v.goal == upd.goal.GetOr(u.goal)
              && v.profileFilled
              && (NormalizeSession(upd.sessionInfo, parse).KeepSession? ==> v.sessionInfo == u.sessionInfo)
              && (NormalizeSession(upd.sessionInfo, parse).StoreSession? ==>
                    v.sessionInfo == Some(NormalizeSession(upd.sessionInfo, parse).info))
              && (BmiGuard(v.weight, v.height) ==> v.bmi == Some(Bmi(v.weight.value, v.height.value)))
              && (!BmiGuard(v.weight, v.height) ==> v.bmi == u.bmi)
  {
    var u1 := u.(
      firstName := upd.name.GetOr(Some(u.firstName)).GetOr(u.firstName),
      age := upd.age.GetOr(u.age),
      gender := upd.gender.GetOr(u.gender),
      weight := upd.weight.GetOr(u.weight),
      height := upd.height.GetOr(u.height),
      goal := upd.goal.GetOr(u.goal),
      profileFilled := true);
    match NormalizeSession(upd.sessionInfo, parse)
    case SessionCrash => UpdateCrashed
    case KeepSession => if NullName(upd) then UpdateCrashed else Updated(WithBmi(u1))
    case StoreSession(info) =>
      if NullName(upd) then UpdateCrashed else Updated(WithBmi(u1.(sessionInfo := Some(info))))
  }

  /** Every saved profile is filled and has a BMI that agrees with its weight and height. */
  lemma UpdateMakesBmiConsistent(u: User, upd: ProfileUpdate, parse: string -> Option<Json>)
    requires ApplyUpdate(u, upd, parse).Updated?
    ensures BmiConsistent(ApplyUpdate(u, upd, parse).user)
    ensures ApplyUpdate(u, upd, parse).user.profileFilled
  {
  }

  /** Sending the same update twice leaves the user as the first time. */
  lemma UpdateIdempotent(u: User, upd: ProfileUpdate, parse: string -> Option<Json>)
    requires ApplyUpdate(u, upd, parse).Updated?
    ensures ApplyUpdate(ApplyUpdate(u, upd, parse).user, upd, parse) == ApplyUpdate(u, upd, parse)
  {
  }

  /** An update touching neither weight nor height keeps a consistent BMI as it was. */
  lemma UpdateWithoutBodyKeepsBmi(u: User, upd: ProfileUpdate, parse: string -> Option<Json>)
    requires BmiConsistent(u)
    requires upd.weight.None? && upd.height.None?
    requires ApplyUpdate(u, upd, parse).Updated?
    ensures ApplyUpdate(u, upd, parse).user.bmi == u.bmi
  {
  }
}
