/** The stored records: the `User` and `Meal` models. */
module Models {
  import opened Wrappers
  import opened JsonValues

  /** A calendar date, already converted to the server's time zone. */
  datatype Date = Date(year: int, month: int, day: int)

  /** `a >= b` on dates. */
  predicate OnOrAfter(a: Date, b: Date)
  {
    a.year > b.year
    || (a.year == b.year && a.month > b.month)
    || (a.year == b.year && a.month == b.month && a.day >= b.day)
  }

  /** The canonical session snapshot `{dailyCalories, macros: {protein, carbs, fats}}`;
      each entry is whatever JSON value the client sent, `null` when it sent none. */
  datatype SessionInfo = SessionInfo(dailyCalories: Json, protein: Json, carbs: Json, fats: Json)

  /** The `macros` object stored with a meal. */
  datatype Macros = Macros(protein: real, carbs: real, fats: real)

  /** A user account; `None` stands for a null column. */
  datatype User = User(
    id: nat,
    googleId: Option<string>,
    username: string,
    email: Option<string>,
    firstName: string,
    age: Option<int>,
    gender: Option<string>,
    weight: Option<real>,
    height: Option<real>,
    goal: Option<string>,
    bmi: Option<real>,
    profileFilled: bool,
    sessionInfo: Option<SessionInfo>)

  /** A stored meal. The numeric columns are nullable in the schema. */
  datatype Meal = Meal(
    id: nat,
    owner: nat,
    mealType: Option<string>,
    calories: Option<real>,
    protein: Option<real>,
    carbs: Option<real>,
    fats: Option<real>,
    items: string,
    image: Option<string>,
    createdAt: Date,
    macros: Option<Macros>)
}
