# food_backend in Dafny

A model of the core of the food_backend API, a Django service. Users sign
in with a Google ID token and get a 24-hour session token (a JWT). A user
uploads a meal photo. A detector labels the food, each label is looked up
in a nutrition table, and the meal is stored with its calorie and macro
totals. The daily and monthly views roll the stored meals up into totals
with a breakdown per meal type (breakfast, lunch, dinner, snacks, other).
The profile update overwrites the fields the client sent, normalises a
session snapshot and recomputes the BMI.

Layout, one module per file:

- `wrappers.dfy`, `seqs.dfy`, `strings.dfy`, `json.dfy`, `keys.dfy`:
  building blocks. These are Option, sequence prefixes, the string
  operations the code uses (`lower`, `split`, `join`, `strip`,
  `replace(p, '')`), JSON values with Python truthiness and `dict.get`,
  and the sorted listing of a set of integer keys.
- `models.dfy`: the `User` and `Meal` rows and the date type.
- `catalog.dfy`: the lower-cased nutrition dict built from the dataset, and
  the first-match search of the ordered table the meal view uses.
- `meals.dfy`: the meal totals, the accumulation loop and the stored
  `items` column.
- `rollup.dfy`: the daily fold over meals and the monthly per-day grouping,
  both as loops proved against recursive specification functions.
- `profile.dfy`: session normalisation, rounding, the BMI and the whole
  profile update as a function.
- `auth.dfy`: the bearer-token authenticator.
- `gemini.dfy`: the local part of the AI helper. This is the generation
  config, the cleaning of the reply and the error object.
- `views.dfy`: the views that touch the database. The `Database` class holds
  the users, the unique googleId index and the meals; its methods are the
  login, add meal, delete meal, profile update and the two queries.

The BMI guard `user.weight and user.height and user.height > 0` recomputes
the BMI for any non-zero weight, negative included; `Profile.BmiGuard`
follows it.

## Model

| member | source | states |
|---|---|---|
| Catalog.CatalogOf | api/utils.py:14 | the map's keys are exactly the lower-cased record names; a key holds its last record (later records overwrite earlier ones) |
| Catalog.LoadCatalog | api/utils.py:11-17 | a missing dataset file gives the empty catalog; an unopenable file, non-JSON text or a record without a string `name` fails the import (`None`), and only those do; otherwise the catalog of the file's records |
| Catalog.FirstMatch | api/views.py:721 | the index of the first table entry whose lower-cased name equals the lower-cased label; `None` exactly when no entry matches |
| Catalog.TableAgreesWithCatalog | api/views.py:721 | with distinct lower-cased names, the table search succeeds iff the dict has the key, and both give the same record |
| Catalog.RepeatedNameDiverges | api/utils.py:14 | with two records differing only in case, the search finds the first and the dict keeps the last |
| MealTotals.LabelNutrition | api/views.py:721-728 | a matched label contributes that entry's calories, protein, carbs and fats; an unmatched one contributes 100 calories and no macros |
| MealTotals.SumDetectedItems | api/views.py:719-728 | the loop's totals equal the per-label contributions summed in detection order |
| MealTotals.MealNutritionAppend | api/views.py:719-728 | totals are additive over any split of the label list |
| MealTotals.AllUnmatched | api/views.py:727-728 | when no label matches, the meal is 100 calories per label and zero macros |
| MealTotals.TotalsNonNegative | api/views.py:719-728 | a table of non-negative values gives non-negative totals |
| MealTotals.ItemsColumnRoundTrip | api/views.py:745 | splitting the stored `items` text on ", " gives back the labels, in order and with repeats, when no label contains ", " |
| MealTotals.VegBriyaniMeal | api/views.py:375-380 | a meal of one "veg briyani" is 130 calories, 3.16 protein, 23.33 carbs, 2.53 fats |
| MealTotals.UnknownDishMeal | api/views.py:727-728 | a label missing from the table gives exactly the default estimate |
| Rollup.BucketOf | api/views.py:796-800 | the bucket is always one of the five; it is the lower-cased meal type when that is a bucket name; any bucket but "other" means the type named it |
| Rollup.StepChangesOneBucket | api/views.py:790-800 | one meal adds its calories to the total and to its own bucket only, and its macros to the macro totals; missing values count as 0 |
| Rollup.BucketsAddUpToTotal | api/views.py:788-800 | the five buckets always sum to the total calories |
| Rollup.TotalIsCalorieSum | api/views.py:791 | the total is the sum of the meals' calories, a missing value counting as 0 |
| Rollup.DailyRollup | api/views.py:787-800 | the loop's totals, breakdown and macros equal the fold of all meals |
| Rollup.DaysOfMeals | api/views.py:843-845 | a day number appears exactly when some meal was created on that day of the month |
| Rollup.DaysPartitionMeals | api/views.py:843-866 | the per-day groups together hold exactly the selected meals, as a multiset: none lost, none counted twice |
| Rollup.DaySummariesAddUp | api/views.py:843-866 | the day summaries of a set of days covering every meal add up to the summary of all meals |
| Rollup.MonthlyStepKeepsByDay | api/views.py:843-860 | adding one meal to its day's entry keeps every entry equal to the fold of that day's meals, and the keys equal to the days seen |
| Rollup.MonthlyRollup | api/views.py:826-866 | days come in strictly ascending order; they are exactly the days that have meals; each entry is the fold of that day's meals; the groups partition the meals; the entries sum to the fold of all meals |
| Profile.NormalizeSession | api/views.py:106-123 | a falsy value keeps the stored snapshot; the update fails exactly when the value (a string parsed first, `{}` when it does not parse) or its `macros` entry is not an object; otherwise each of dailyCalories, protein, carbs and fats is the value sent under its key, or null when the key is missing |
| Profile.SessionRoundTrip | api/views.py:106-123 | sending a stored snapshot back, as an object or as its JSON text, stores the same snapshot |
| Profile.RoundHalfEven | api/views.py:127 | the result is within 0.5 of the input; ties go to the even neighbour |
| Profile.Round1 | api/views.py:127 | the result is within 0.05 of the input and a multiple of 0.1 |
| Profile.BmiExample | api/views.py:125-127 | 70 kg at 175 cm gives a BMI of 22.9 |
| Profile.ApplyUpdate | api/views.py:98-129 | fails iff the session step fails or `name` is sent as null (the NOT NULL first-name column refuses the save); identity fields are unchanged; each sent field is overwritten and the rest kept; the profile is marked filled; the session is kept or replaced; the BMI is recomputed under the guard and kept otherwise |
| Profile.UpdateMakesBmiConsistent | api/views.py:125-127 | every saved profile is filled and its BMI agrees with its weight and height whenever the guard holds |
| Profile.UpdateIdempotent | api/views.py:98-127 | applying the same update twice gives the same user as applying it once |
| Profile.UpdateWithoutBodyKeepsBmi | api/views.py:125-127 | an update with neither weight nor height keeps a consistent BMI as it was |
| Auth.AuthHeader | api/authentication.py:28-38 | the `Authorization` header when present and non-empty, otherwise the `HTTP_AUTHORIZATION` value |
| Auth.BearerTokenIsNextWord | api/authentication.py:49 | the token is the text after `Bearer ` up to the next space or the end, and contains no space |
| Auth.BearerTokenOfHeader | api/authentication.py:49 | the header `Bearer t`, with no space in `t`, yields exactly `t` |
| Auth.Authenticate | api/authentication.py:40-70 | no credentials iff there is no `Bearer ` header; every failure reads "Token has expired", "Invalid token" or "User not found"; success iff the token decodes to a non-empty googleId that has a user, and a success returns that user and the token; expired and user-not-found occur exactly in their cases |
| Views.IndexedUserAuthenticates | api/authentication.py:55-61 | a token decoding to an indexed googleId authenticates the user the index names, whose googleId is that claim |
| Views.UnknownUserRefused | api/authentication.py:60-68 | a token decoding to a googleId with no user is refused with "User not found" |
| Gemini.BuildGenerationConfig | api/utils.py:90-94 | a truthy schema gives exactly the JSON mime type and the schema; otherwise the config is empty |
| Gemini.CleanResponseText | api/utils.py:100 | the cleaned text contains no code fence and starts and ends with non-whitespace |
| Gemini.StripIdempotent | api/utils.py:100 | stripping twice is stripping once |
| Gemini.PlainReplyIsStripped | api/utils.py:100 | a reply without backticks is only stripped |
| Gemini.JsonFencedReplyIsPayload | api/utils.py:100 | a payload without backticks fenced as ```json … ``` comes out as the stripped payload |
| Gemini.PlainFencedReplyIsPayload | api/utils.py:100 | a payload without backticks, not starting with "json", fenced as ``` … ``` comes out as the stripped payload |
| Gemini.ParseFailureObject | api/utils.py:102-104 | the error object has exactly the keys error, detail and raw_text, with the fixed message, the parser's detail and the reply text before cleaning |
| Gemini.HandleReply | api/utils.py:98-104 | a reply whose cleaned text parses gives the parsed value; otherwise the error object for the raw reply |
| Views.ListedIsQuery | api/views.py:785 | listing the stored meals in ascending key order keeps exactly the wanted meals, in ascending id order |
| Views.SelectMeals | api/views.py:824 | the selection holds exactly the stored meals of the owner that pass the date filter, in ascending id order |
| Views.Database.Login | api/views.py:37-79 | a missing token gets "Token missing"; a verification failure returns its message; a missing `sub` returns "'sub'"; a known googleId logs that user in and changes nothing; an unknown one fails with the database's NOT NULL message when the name claim is null or the email claim is missing or null, fails when its username is taken, and otherwise creates the account; only a creation changes the database; the session token names the user's googleId and expires 24 hours on; the index finds the logged-in user |
| Views.Database.AddMeal | api/views.py:684-763 | no image or no detected label stores nothing; otherwise exactly one new meal is stored, with the label totals, mealType defaulting to "Unknown", the joined items and the `meals/` image path; the users are untouched |
| Views.Database.DeleteMeal | api/views.py:767-774 | deletes iff the meal exists and belongs to the requester, removing just that meal; otherwise nothing changes |
| Views.Database.UpdateProfile | api/views.py:94-131 | the outcome is the profile update of the stored user; on success only that user's row changes; a failure changes nothing |
| Views.Database.DailyMeals | api/views.py:781-811 | selects exactly today's meals of the owner, and the report is today's date with their fold |
| Views.Database.MonthlyMeals | api/views.py:819-874 | selects exactly the owner's meals from the first of the month on; reports the month name and year, with the per-day entries of the monthly rollup: ascending days, exactly the days with meals, each the fold of its day, together partitioning the selection and summing to its fold |

The empty selection gives the all-zero summary by the definition of
`Rollup.DaySummary`: every total and every bucket is 0.

## Left out

- Image upload and storage, the detector run and `build_absolute_uri`: the labels and the saved file name are parameters of `Views.Database.AddMeal`.
- The non-POST branch of the meal view: `@api_view(['POST'])` answers every other method with 405 before the body runs.
- The calls to the AI model and the prompts: only the local config, cleaning and error object are modelled.
- `json.loads` and `json.dumps`: parsing of request values and replies is a function parameter, and the dataset file's read and parse are summarised by `Catalog.DatasetFile`; storage keeps structured values, not their JSON text.
- Google ID token verification and JWT signing or decoding: these are function parameters (`verify`, `decode`), and the session token is its claims.
- Clocks and time zones: "today" and "now" are parameters, and meal dates are calendar dates.
- The report date is returned as a `Date`, not as `strftime` text.
- Floating point: all numbers are exact reals, and `round` is round-half-even on exact values.
- The `float()` conversion of the dataset strings: records hold the converted numbers.
- Database transactions, concurrency and ORM errors other than the unique username and the NOT NULL first name and email; the error texts are SQLite's.
- The `print` calls (the missing-dataset warning, the login error log, the token log and the other debug output): console output only, with no effect on results.
- `str.lower` is modelled on ASCII letters only.
- Profile fields of the wrong JSON type, and validation at save time other than the NOT NULL first name: an update carries typed values or null.
- A non-string `googleId` claim is not modelled.
- The full static nutrition table: three of its entries are the sample table.
- The models, serializers, admin and URL files beyond the shapes of the rows.
- Query result order: Django gives no ordering here, and the model lists meals by ascending id.
- Views.Database.AddMeal: requires the owner to exist, as the authenticated request guarantees.
- Views.Database.MonthlyMeals: requires a month from 1 to 12, which every real date has.
