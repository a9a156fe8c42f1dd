/** The API views that read and change the database: login with the find-or-create
    of the account, adding and deleting meals, the profile update and the daily
    and monthly queries. */
module Views {
  import opened Wrappers
  import opened Strings
  import opened JsonValues
  import opened Models
  import opened Keys
  import opened Catalog
  import opened MealTotals
  import opened Rollup
  import opened Profile
  import opened Auth
  import opened Seqs

  // ---------------------------------------------------------------------------
  // Login

  /** The claims of a verified Google ID token that the login reads. `email`
      is `None` when the claim is absent or null (`payload.get('email')` reads
      both as `None`); `name` is `None` when the claim is absent and `Some(None)`
      when it is null. */
  datatype GoogleClaims = GoogleClaims(sub: Option<string>, email: Option<string>, name: Option<Option<string>>)

  /** What verifying the Google ID token gave: the claims, or the text of the
      exception raised. */
  datatype VerifyOutcome = VerifyFailed(message: string) | Verified(claims: GoogleClaims)

  /** The claims of the session token the login issues. */
  datatype SessionToken = SessionToken(googleId: Option<string>, exp: real)

  datatype LoginOutcome =
    | TokenMissing
    | LoginError(message: string)
    | LoggedIn(user: User, session: SessionToken, profileIncomplete: bool)

  /** `str(KeyError('sub'))`. */
  const MissingSubMessage: string := "'sub'"
  /** The database's message when the new account's username is already taken. */
  const UsernameTakenMessage: string := "UNIQUE constraint failed: api_user.username"
  /** The database's messages when the new account would have a null first
      name or email; both columns are NOT NULL, and the first name is checked
      first, being the earlier column. */
  const FirstNameNullMessage: string := "NOT NULL constraint failed: api_user.first_name"
  const EmailNullMessage: string := "NOT NULL constraint failed: api_user.email"
  /** 24 hours, in seconds. */
  const SessionLifetime: real := 86400.0

  /** The claims leave neither NOT NULL column of a new account empty. */
  predicate InsertableClaims(claims: GoogleClaims)
  {
    claims.name != Some(None) && claims.email.Some?
  }

  /** The account `get_or_create` makes: the `sub` claim as googleId and username,
      the email claim, the name claim or "User", and an unfilled profile. */
  function NewUser(id: nat, sub: string, claims: GoogleClaims): User
    requires InsertableClaims(claims)
  {
    User(id, Some(sub), sub, claims.email, claims.name.GetOr(Some("User")).value,
         None, None, None, None, None, None, false, None)
  }

  /** The unique `googleId` index: each entry points at the user with that
      googleId, and every user with a googleId has its entry. */
  predicate IndexValid(users: map<nat, User>, index: map<string, nat>)
  {
    && (forall g :: g in index ==> index[g] in users && users[index[g]].googleId == Some(g))
    && (forall id :: id in users && users[id].googleId.Some? ==>
          users[id].googleId.value in index && index[users[id].googleId.value] == id)
  }

  predicate UsernamesUnique(users: map<nat, User>)
  {
    forall a, b :: a in users && b in users && a != b ==> users[a].username != users[b].username
  }

  predicate UsernameTaken(users: map<nat, User>, name: string)
  {
    exists id :: id in users && users[id].username == name
  }

  /** `User.objects.get(googleId=g)` through the index. */
  function IndexLookup(users: map<nat, User>, index: map<string, nat>): string -> Option<User>
  {
    g => if g in index && index[g] in users then Some(users[index[g]]) else None
  }

  /** A token whose `googleId` claim is an indexed user's authenticates that user. */
  lemma IndexedUserAuthenticates(users: map<nat, User>, index: map<string, nat>, g: string,
                                 token: string, decode: string -> DecodeOutcome)
    requires IndexValid(users, index) && g in index && g != ""
    requires forall j :: 0 <= j < |token| ==> token[j] != ' '
    requires decode(token) == Decoded(Some(g))
    ensures Authenticate(Some(BearerPrefix + token), None, decode, IndexLookup(users, index))
            == Authenticated(users[index[g]], token)
    ensures users[index[g]].googleId == Some(g)
  {
    BearerTokenOfHeader(token);
    assert (BearerPrefix + token)[..7] == BearerPrefix;
  }

  /** A token for a googleId nobody has is refused with "User not found". */
  lemma UnknownUserRefused(users: map<nat, User>, index: map<string, nat>, g: string,
                           token: string, decode: string -> DecodeOutcome)
    requires IndexValid(users, index) && g !in index && g != ""
    requires forall j :: 0 <= j < |token| ==> token[j] != ' '
    requires decode(token) == Decoded(Some(g))
    ensures Authenticate(Some(BearerPrefix + token), None, decode, IndexLookup(users, index))
            == AuthFailed(MsgUserNotFound)
  {
    BearerTokenOfHeader(token);
    assert (BearerPrefix + token)[..7] == BearerPrefix;
  }

  // ---------------------------------------------------------------------------
  // Meals

  datatype AddMealOutcome =
    | ImageRequired
    | NoFoodDetected
    | MealSaved(meal: Meal, items: seq<string>, totals: Nutrition)

  datatype DeleteOutcome = MealDeleted | MealNotFound

  /** The meal row the meal view creates. */
  function NewMeal(id: nat, owner: nat, imageName: string, labels: seq<string>,
                   mealType: Option<string>, createdAt: Date, totals: Nutrition): Meal
  {
    Meal(id, owner, Some(mealType.GetOr("Unknown")),
         Some(totals.calories), Some(totals.protein), Some(totals.carbs), Some(totals.fats),
         ItemsColumn(labels), Some("meals/" + imageName), createdAt,
         Some(Macros(totals.protein, totals.carbs, totals.fats)))
  }

  /** The date condition of a query: `createdAt__date=d` or `createdAt__date__gte=d`. */
  datatype DateFilter = OnDate(date: Date) | FromDate(start: Date)

  predicate MatchesDate(d: Date, f: DateFilter)
  {
    match f
    case OnDate(x) => d == x
    case FromDate(x) => OnOrAfter(d, x)
  }

  /** A meal the query for `owner` with filter `f` returns. */
  predicate Wanted(m: Meal, owner: nat, f: DateFilter)
  {
    m.owner == owner && MatchesDate(m.createdAt, f)
  }

  /** The meals listed in ascending id order. */
  predicate IdsIncreasing(ms: seq<Meal>)
  {
    forall i, j :: 0 <= i < j < |ms| ==> ms[i].id < ms[j].id
  }

  datatype DailyReport = DailyReport(date: Date, summary: Summary)
  datatype MonthlyReport = MonthlyReport(month: string, year: int, days: seq<DayEntry>)

  const MonthNames: seq<string> := [
    "January", "February", "March", "April", "May", "June",
    "July", "August", "September", "October", "November", "December"]

  /** The wanted meals among those stored under `ids`, in the order of `ids`. */
  function Listed(meals: map<nat, Meal>, ids: seq<nat>, owner: nat, f: DateFilter): seq<Meal>
    requires forall j :: 0 <= j < |ids| ==> ids[j] in meals
    decreases |ids|
  {
    if ids == [] then []
    else
      var last := meals[ids[|ids| - 1]];
      Listed(meals, ids[..|ids| - 1], owner, f) + (if Wanted(last, owner, f) then [last] else [])
  }

  /** The listed meals are exactly the wanted meals stored under `ids`. */
  lemma {:induction false} ListedMembers(meals: map<nat, Meal>, ids: seq<nat>, owner: nat, f: DateFilter)
    requires forall j :: 0 <= j < |ids| ==> ids[j] in meals
    ensures forall m :: m in Listed(meals, ids, owner, f) ==> m in meals.Values && Wanted(m, owner, f)
    ensures forall j :: 0 <= j < |ids| && Wanted(meals[ids[j]], owner, f) ==>
              meals[ids[j]] in Listed(meals, ids, owner, f)
    decreases |ids|
  {
    if ids != [] {
      var init := ids[..|ids| - 1];
      ListedMembers(meals, init, owner, f);
      assert forall j :: 0 <= j < |init| ==> init[j] == ids[j];
    }
  }

  /** Listing in ascending key order lists in ascending id order. */
  lemma {:induction false} ListedInIdOrder(meals: map<nat, Meal>, ids: seq<nat>, owner: nat, f: DateFilter)
    requires forall j :: 0 <= j < |ids| ==> ids[j] in meals && meals[ids[j]].id == ids[j]
    requires forall i, j :: 0 <= i < j < |ids| ==> ids[i] < ids[j]
    ensures IdsIncreasing(Listed(meals, ids, owner, f))
    ensures ids != [] ==> forall k :: 0 <= k < |Listed(meals, ids, owner, f)| ==>
              Listed(meals, ids, owner, f)[k].id <= ids[|ids| - 1]
    decreases |ids|
  {
    if ids != [] {
      var init := ids[..|ids| - 1];
      ListedInIdOrder(meals, init, owner, f);
      assert forall j :: 0 <= j < |init| ==> init[j] == ids[j];
    }
  }

  /** Listing all the keys in ascending order answers the query: exactly the
      wanted stored meals, in ascending id order. */
  lemma ListedIsQuery(meals: map<nat, Meal>, ids: seq<nat>, owner: nat, f: DateFilter)
    requires forall id :: id in meals ==> meals[id].id == id
    requires forall x :: x in ids <==> x in meals
    requires forall i, j :: 0 <= i < j < |ids| ==> ids[i] < ids[j]
    ensures forall m :: m in Listed(meals, ids, owner, f) <==> m in meals.Values && Wanted(m, owner, f)
    ensures IdsIncreasing(Listed(meals, ids, owner, f))
  {
    ListedMembers(meals, ids, owner, f);
    ListedInIdOrder(meals, ids, owner, f);
    forall m | m in meals.Values && Wanted(m, owner, f)
      ensures m in Listed(meals, ids, owner, f)
    {
      var id :| id in meals && meals[id] == m;
      var j :| 0 <= j < |ids| && ids[j] == id;
    }
  }

  /** `Meal.objects.filter(user=owner, <date condition>)`, listed in ascending id order. */
  method SelectMeals(meals: map<nat, Meal>, owner: nat, f: DateFilter) returns (selected: seq<Meal>)
    requires forall id :: id in meals ==> meals[id].id == id
    ensures forall m :: m in selected <==> m in meals.Values && Wanted(m, owner, f)
    ensures IdsIncreasing(selected)
  {
    var order := Ascending(meals.Keys);
    forall k | 0 <= k < |order|
      ensures order[k] in meals.Keys
    {
      assert order[k] in order;
    }
    var ids: seq<nat> := order;
    selected := [];
    for i := 0 to |ids|
      invariant selected == Listed(meals, ids[..i], owner, f)
    {
      var meal := meals[ids[i]];
      if Wanted(meal, owner, f) {
        selected := selected + [meal];
      }
      PrefixSnoc(ids, i);
    }
    assert ids[..|ids|] == ids;
    ListedIsQuery(meals, ids, owner, f);
  }

  // ---------------------------------------------------------------------------
  // The database

  class Database {
    var users: map<nat, User>
    /** The unique database index on `googleId`. */
    var googleIndex: map<string, nat>
    var meals: map<nat, Meal>
    var nextUserId: nat
    var nextMealId: nat

    /** Every row carries its own key, ids come from the counters, every meal
        belongs to a user, googleIds and usernames are unique, and every BMI
        agrees with its weight and height. */
    predicate Valid()
      reads this
    {
      && (forall id :: id in users ==> id < nextUserId && users[id].id == id && BmiConsistent(users[id]))
      && IndexValid(users, googleIndex)
      && UsernamesUnique(users)
      && (forall id :: id in meals ==> id < nextMealId && meals[id].id == id && meals[id].owner in users)
    }

    /** The user a `googleId` claim names. */
    function UserByGoogleId(g: string): Option<User>
      reads this
    {
      IndexLookup(users, googleIndex)(g)
    }

    constructor ()
      ensures Valid()
      ensures users == map[] && googleIndex == map[] && meals == map[]
      ensures nextUserId == 0 && nextMealId == 0
    {
      users, googleIndex, meals := map[], map[], map[];
      nextUserId, nextMealId := 0, 0;
    }

    /** `google_auth_view`: verify the ID token, find the account by googleId or
        create it, and issue a session token valid for 24 hours. */
    method Login(token: Option<string>, verify: string -> VerifyOutcome, now: real)
      returns (outcome: LoginOutcome)
      requires Valid()
      modifies this
      ensures Valid()
      ensures outcome.TokenMissing? <==> token.None? || token.value == ""
      ensures !outcome.LoggedIn? ==> unchanged(this)
      ensures token.Some? && token.value != "" && verify(token.value).VerifyFailed? ==>
                outcome == LoginError(verify(token.value).message)
      ensures token.Some? && token.value != "" && verify(token.value).Verified? ==>
                var claims := verify(token.value).claims;
                && (claims.sub.None? ==> outcome == LoginError(MissingSubMessage))
                && (claims.sub.Some? && claims.sub.value in old(googleIndex) ==>
                      var u := old(users)[old(googleIndex)[claims.sub.value]];
                      && outcome == LoggedIn(u, SessionToken(Some(claims.sub.value), now + SessionLifetime), !u.profileFilled)
                      && unchanged(this))
                && (claims.sub.Some? && claims.sub.value !in old(googleIndex) && claims.name == Some(None) ==>
                      outcome == LoginError(FirstNameNullMessage))
                && (claims.sub.Some? && claims.sub.value !in old(googleIndex) && claims.name != Some(None)
                    && claims.email.None? ==>
                      outcome == LoginError(EmailNullMessage))
                && (claims.sub.Some? && claims.sub.value !in old(googleIndex) && InsertableClaims(claims)
                    && UsernameTaken(old(users), claims.sub.value) ==>
                      outcome == LoginError(UsernameTakenMessage))
                && (claims.sub.Some? && claims.sub.value !in old(googleIndex) && InsertableClaims(claims)
                    && !UsernameTaken(old(users), claims.sub.value) ==>
                      var u := NewUser(old(nextUserId), claims.sub.value, claims);
                      && outcome == LoggedIn(u, SessionToken(Some(claims.sub.value), now + SessionLifetime), true)
                      && users == old(users)[old(nextUserId) := u]
                      && googleIndex == old(googleIndex)[claims.sub.value := old(nextUserId)]
                      && nextUserId == old(nextUserId) + 1
                      && meals == old(meals) && nextMealId == old(nextMealId))
      ensures outcome.LoggedIn? ==>
                outcome.user.googleId.Some? && outcome.session.googleId == outcome.user.googleId
                && UserByGoogleId(outcome.user.googleId.value) == Some(outcome.user)
    {
      if token.None? || token.value == "" {
        return TokenMissing;
      }
      match verify(token.value)
      case VerifyFailed(message) =>
        return LoginError(message);
      case Verified(claims) =>
        if claims.sub.None? {
          return LoginError(MissingSubMessage);
        }
        var sub := claims.sub.value;
        var user: User;
        if sub in googleIndex {
          user := users[googleIndex[sub]];
        } else if claims.name == Some(None) {
          return LoginError(FirstNameNullMessage);
        } else if claims.email.None? {
          return LoginError(EmailNullMessage);
        } else if UsernameTaken(users, sub) {
          return LoginError(UsernameTakenMessage);
        } else {
          user := NewUser(nextUserId, sub, claims);
          users := users[nextUserId := user];
          googleIndex := googleIndex[sub := nextUserId];
          nextUserId := nextUserId + 1;
        }
        var session := SessionToken(user.googleId, now + SessionLifetime);
        outcome := LoggedIn(user, session, !user.profileFilled);
    }

    /** `add_meal`: with an uploaded image and at least one detected label, store
        a meal holding the label totals from `table`. `imageName` is the name the
        upload is saved under, `None` when the request carries no image. */
    method AddMeal(owner: nat, imageName: Option<string>, labels: seq<string>,
                   mealType: Option<string>, createdAt: Date, table: seq<NutritionRecord>)
      returns (outcome: AddMealOutcome)
      requires Valid() && owner in users
      modifies this
      ensures Valid()
      ensures imageName.None? ==> outcome == ImageRequired
      ensures imageName.Some? && labels == [] ==> outcome == NoFoodDetected
      ensures !outcome.MealSaved? ==> unchanged(this)
      ensures imageName.Some? && labels != [] ==>
                var totals := MealNutrition(table, labels);
                var m := NewMeal(old(nextMealId), owner, imageName.value, labels, mealType, createdAt, totals);
                && outcome == MealSaved(m, labels, totals)
                && meals == old(meals)[old(nextMealId) := m]
                && nextMealId == old(nextMealId) + 1
                && users == old(users) && googleIndex == old(googleIndex) && nextUserId == old(nextUserId)
    {
      if imageName.None? {
        return ImageRequired;
      }
      if labels == [] {
        return NoFoodDetected;
      }
      var totals := SumDetectedItems(table, labels);
      var meal := NewMeal(nextMealId, owner, imageName.value, labels, mealType, createdAt, totals);
      meals := meals[nextMealId := meal];
      nextMealId := nextMealId + 1;
      outcome := MealSaved(meal, labels, totals);
    }

    /** `delete_meal`: only the owner can delete a meal; anything else reads as
        "Meal not found" and changes nothing. */
    method DeleteMeal(requester: nat, mealId: nat) returns (outcome: DeleteOutcome)
      requires Valid()
      modifies this
      ensures Valid()
      ensures outcome.MealDeleted? <==> mealId in old(meals) && old(meals)[mealId].owner == requester
      ensures outcome.MealDeleted? ==>
                && meals == old(meals) - {mealId}
                && users == old(users) && googleIndex == old(googleIndex)
                && nextUserId == old(nextUserId) && nextMealId == old(nextMealId)
      ensures outcome.MealNotFound? ==> unchanged(this)
    {
      if mealId in meals && meals[mealId].owner == requester {
        meals := meals - {mealId};
        outcome := MealDeleted;
      } else {
        outcome := MealNotFound;
      }
    }

    /** `update_profile_view` for the authenticated user `uid`: the updated
        account is saved, or nothing is when the session part fails or `name` is sent as null. */
    method UpdateProfile(uid: nat, upd: ProfileUpdate, parse: string -> Option<Json>)
      returns (outcome: UpdateOutcome)
      requires Valid() && uid in users
      modifies this
      ensures Valid()
      ensures outcome == ApplyUpdate(old(users)[uid], upd, parse)
      ensures outcome.Updated? ==>
                && users == old(users)[uid := outcome.user]
                && googleIndex == old(googleIndex) && meals == old(meals)
                && nextUserId == old(nextUserId) && nextMealId == old(nextMealId)
      ensures outcome.UpdateCrashed? ==> unchanged(this)
    {
      outcome := ApplyUpdate(users[uid], upd, parse);
      if outcome.Updated? {
        UpdateMakesBmiConsistent(users[uid], upd, parse);
        users := users[uid := outcome.user];
      }
    }

    /** `get_daily_meals`: the owner's meals of `today` and their rollup. */
    method DailyMeals(owner: nat, today: Date) returns (selected: seq<Meal>, report: DailyReport)
      requires Valid()
      ensures forall m :: m in selected <==> m in meals.Values && m.owner == owner && m.createdAt == today
      ensures IdsIncreasing(selected)
      ensures report.date == today
      ensures report.summary == DaySummary(selected)
    {
      selected := SelectMeals(meals, owner, OnDate(today));
      var summary := DailyRollup(selected);
      report := DailyReport(today, summary);
    }

    /** `get_monthly_meals`: the owner's meals from the first of the current
        month on, rolled up per day-of-month in ascending day order. */
    method MonthlyMeals(owner: nat, today: Date) returns (selected: seq<Meal>, report: MonthlyReport)
      requires Valid() && 1 <= today.month <= 12
      ensures forall m :: m in selected <==>
                m in meals.Values && m.owner == owner && OnOrAfter(m.createdAt, Date(today.year, today.month, 1))
      ensures report.month == MonthNames[today.month - 1] && report.year == today.year
      ensures StrictlyIncreasing(DayNumbers(report.days))
      ensures forall d :: d in DaysOf(selected) <==> d in DayNumbers(report.days)
      ensures forall i :: 0 <= i < |report.days| ==>
                report.days[i].summary == DaySummary(OnDay(selected, report.days[i].day))
      ensures SumEntries(report.days) == DaySummary(selected)
      ensures multiset(ConcatDays(selected, DayNumbers(report.days))) == multiset(selected)
    {
      var start := today.(day := 1);
      selected := SelectMeals(meals, owner, FromDate(start));
      var days := MonthlyRollup(selected);
      report := MonthlyReport(MonthNames[today.month - 1], today.year, days);
    }
  }
}
