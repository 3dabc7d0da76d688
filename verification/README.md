# SmartDiet core in Dafny

A model of the logic inside SmartDiet's `main.py`, a small diet-tracking web backend, with proofs about it.
The backend keeps user profiles and per-user food logs in memory.
It computes daily calorie needs with the Mifflin-St Jeor formula and an activity factor.
It recommends one of two fixed meal plans.
It turns an image classifier's top-1 label into a food-log record by looking up static nutrition facts.

Modules, one per component of the program:

- `Text` (`text.dfy`): Python's `str.lower`, `replace(" ", "_")`, `startswith` and substring `in`. The substring scan is proved equal to its declarative meaning.
- `Nutrition` (`nutrition.dfy`): the ordered nutrition table, name normalisation and the first-match lookup with its default.
- `Calories` (`calories.dfy`): BMR, activity factors, truncation toward zero, daily needs and the meal plan.
- `Classifier` (`classifier.dfy`): the record assembled from a label and a confidence.
- `Stores` (`stores.dfy`): id assignment, the profile map and the food-log map, with each handler's effect as a pure state transition.
- `Api` (`api.dfy`): the four endpoints as one `Handle(state, request)` transition that returns the next state and the response payload.
- `Wrappers` (`wrappers.dfy`): `Option`, which stands for Python's `None` and `dict.get`.

Arithmetic is exact over `real`. Python's `int(x)` is modelled as an explicit truncation toward zero (`Calories.Trunc`).

The nutrition table is a Python dict, so it is iterated in insertion order. The model therefore treats it as an ordered sequence, and the first matching key in that order wins.

## Model

| member | source | states |
|---|---|---|
| `Stores.NextId` | main.py:27-28 | the new id is not a key of the store and exceeds every key; it is 1 for an empty store, and otherwise id-1 is a key, i.e. id is the largest key plus one |
| `Stores.CreateProfile` | main.py:102-107 | the new profile carries the submitted fields and the id `next_id` gives (1 for an empty store, else the largest key plus one), which is fresh; exactly one entry is added to the profile map; every existing profile and all food logs are unchanged |
| `Stores.CreateProfileSequential` | main.py:27-28 | when ids 1..n are in use, the next profile gets id n+1 and the ids in use become 1..n+1 |
| `Stores.ThreeProfilesExample` | main.py:27-28 | three profiles created from the empty store get ids 1, 2 and 3 |
| `Stores.GetProfile` | main.py:111-111 | the lookup finds a profile exactly when the id is a key, and then returns the stored profile |
| `Stores.CreateThenGetProfile` | main.py:102-111 | a profile just created is found under its id; every other id finds what it found before |
| `Stores.Logs` | main.py:133-133 | reading the log of an id with no log gives the empty sequence; otherwise it gives the stored log |
| `Stores.AppendLog` | main.py:126-128 | after the append, the user's log is the old log (empty if none) with the entry at its end; the user becomes a key; every other user's log and all profiles are unchanged |
| `Stores.AppendAllThenLogs` | main.py:126-128 | after a series of appends for one user, reading that user's log gives the old log followed by the new entries in append order; other users' logs and the profiles are unchanged |
| `Stores.FreshLogRoundTrip` | main.py:126-133 | starting from empty stores, reading a user's log returns exactly the entries appended for that user |
| `Text.LowerChar` | main.py:39-39 | an ASCII capital becomes its small letter, U+0130 becomes "i" plus U+0307, U+212A KELVIN SIGN becomes "k", and every other character is kept; the result is never empty and holds no ASCII capital (the Unicode coverage is under "Left out") |
| `Text.Lower` | main.py:39-39 | no contract of its own; `LowerCons` fixes its value on every string, each character's lower case in order, and `LowerLength`, `LowerPointwise`, `LowerIsLowered` and `LowerIdempotent` show it is never shorter, acts character by character when nothing expands, leaves no ASCII capital and is a fixed point of itself |
| `Text.LowerCons` | main.py:39-39 | lower-casing a string is lower-casing its first character, whatever it expands to, followed by lower-casing the rest |
| `Text.ReplaceSpaces` | main.py:39-39 | the result has the input's length, each space becomes '_' and every other character stays in place; `ReplaceSpacesOfSpaceless` shows it leaves a spaceless string alone |
| `Text.StartsWith` | main.py:53-53 | no contract of its own; `IsMaleIff` and `RecommendDailyPlan` state what the `startswith('m')` and `startswith("veg")` tests decide |
| `Text.Contains` | main.py:41-41 | no contract of its own; `ContainsIff` proves the scan true exactly when the key occurs as a contiguous block of the name |
| `Text.ContainsIff` | main.py:41-41 | the left-to-right substring scan is true exactly when the key occurs as a contiguous block somewhere in the name |
| `Text.LowerIdempotent` | main.py:39-39 | lower-casing an already lower-cased string changes nothing |
| `Nutrition.Normalize` | main.py:39-39 | the normalised name is lower case throughout, has no spaces, is empty for the empty name and is at least as long as the dish name; when no character lowers to more than one, it has the dish name's length and each character is the lowered character, with a space turned into '_' |
| `Nutrition.NormalizeCons` | main.py:39-39 | the normal form of a name is its first character's lower case with spaces turned into '_', followed by the normal form of the rest; with the empty case this fixes the normal form of every name, including one with a character that lowers to two |
| `Nutrition.NormalizeIdempotent` | main.py:39-39 | normalising a normalised name gives the same name |
| `Nutrition.FirstMatch` | main.py:40-42 | the scan returns the index of a row whose key occurs in the name, and no earlier key occurs there; it returns nothing exactly when no key of the table occurs |
| `Nutrition.GetNutrition` | main.py:38-43 | the result is the facts of the first key, in table order, occurring in the lower-cased, underscored name; if no key occurs, it is the default {200, 5, 30, 5} |
| `Nutrition.GetNutritionInRange` | main.py:30-43 | every lookup answers with a row of the table or the default |
| `Nutrition.GetNutritionNormalized` | main.py:39-42 | a dish name and its normal form get the same entry |
| `Nutrition.ButterChickenExample` | main.py:32-42 | "Butter Chicken" gets the butter_chicken entry |
| `Nutrition.UnknownDishExample` | main.py:38-43 | "unknown_dish_xyz" gets the default |
| `Nutrition.FirstKeyWinsExample` | main.py:30-42 | "Jaljeera Aloo Tikki" gets the aloo_tikki entry: table order decides, not position in the name |
| `Nutrition.DottedCapitalIExample` | main.py:38-43 | U+0130 normalises to "i" plus U+0307, which holds no key, so the lookup returns the default |
| `Calories.IsMale` | main.py:53-53 | no contract of its own; `IsMaleIff` proves it true exactly when the gender's first character is 'm' or 'M' |
| `Calories.CalcBmr` | main.py:52-56 | no contract of its own; `BmrLinear`, `MaleBmrExceedsBy166` and `ReferenceExample` fix its value |
| `Calories.IsMaleIff` | main.py:53-53 | the male branch is taken exactly when the gender's first character is 'm' or 'M' |
| `Calories.MaleBmrExceedsBy166` | main.py:52-56 | for equal age, weight and height, a gender starting with 'm' or 'M' gets a BMR exactly 166 above any other gender |
| `Calories.BmrLinear` | main.py:52-56 | BMR changes by +10 per kg, +6.25 per cm and -5 per year, for either gender |
| `Calories.Trunc` | main.py:60-60 | `int()` drops the fractional part toward zero: the result is within 1 of x, on the side of zero |
| `Calories.TruncOdd` | main.py:60-60 | truncating -x gives minus the truncation of x |
| `Calories.ActivityFactor` | main.py:45-50 | the factor is 1.375 for "light", 1.55 for "moderate", 1.725 for "active", and 1.2 exactly for "sedentary" or a level not in the table |
| `Calories.DailyCalorieNeeds` | main.py:58-60 | the result is the truncation toward zero of the BMR times the level's activity factor |
| `Calories.UnknownLevelIsSedentary` | main.py:58-60 | a level outside the table gives the same needs as "sedentary" |
| `Calories.ReferenceExample` | main.py:52-60 | age 25, 70 kg, 175 cm, "male": BMR 1673.75 and sedentary needs 2008 |
| `Calories.RecommendDailyPlan` | main.py:62-66 | the plan has four items and is one of the two fixed plans; it is the vegetarian plan exactly when the preference starts with "veg" |
| `Calories.PlanIgnoresCalories` | main.py:62-66 | the plan does not depend on the calorie figure |
| `Classifier.PredictionRecord` | main.py:82-92 | the record carries the label and confidence unchanged, and its four nutrition fields are the lookup's result for the label, so a table row or the default |
| `Classifier.SameNormalFormSameFacts` | main.py:84-91 | labels with the same normal form give records with the same nutrition facts |
| `Api.ToItems` | main.py:119-119 | each (name, calories) pair becomes one plan item, in the same order |
| `Api.Recommend` | main.py:110-120 | the error payload is returned exactly when the id has no profile; otherwise the response holds that profile's daily needs and its four-item plan, in order |
| `Api.Handle` | main.py:96-133 | recommend and log reads leave the stores unchanged; a recommend answers as `Recommend`; a log read returns the stored log or []; an upload returns the record and appends it; a profile request stores and returns the profile built from the form's fields under the next id, with preference "veg" when the form omits it |
| `Api.UploadThenLogs` | main.py:122-133 | an upload followed by a log read for the same user returns the earlier log with the new record at its end |
| `Api.UploadLeavesOthers` | main.py:126-133 | an upload leaves other users' log reads and all profiles unchanged |
| `Api.RecommendUnknownUser` | main.py:111-113 | recommending for an id without a profile gives the error payload and leaves the stores as they were |

## Left out

- Image decoding, resizing and normalisation (main.py:68-74) are left out. They are calls into PIL and numpy.
- MobileNetV2 inference and `decode_predictions` (main.py:77-80) are left out. These are foreign library calls; an upload request carries the top-1 label and confidence instead.
- Failures of decoding or inference are left out. They raise out of the handler before the log is touched, so the model covers successful uploads only.
- FastAPI routing, form parsing and type validation, the CORS middleware and static file mounting (main.py:12-21, main.py:96-137) are left out as framework plumbing. A request arrives already typed.
- Races between concurrent requests on the two global dicts are left out. The handlers are modelled one transition at a time.
- IEEE-754 double rounding in `calc_bmr`, in the activity factors (1.2, 1.55 and 1.725 are not exact binary fractions) and before `int()` is left out. Exact reals are used, so the model can differ from Python where a product lies within rounding error of an integer. Infinite and NaN inputs are also outside the model.
- The int/float distinction of the nutrition values is dropped: the table and the default hold Python ints except jaljeera's fat (0.1), but `Facts` and `Entry` hold every value as a `real`, so a payload's `150` appears as `150.0`.
- Nutrition table rows elided in the source at main.py:33 are not part of this model; only the three rows shown are.
- Text.LowerChar: Python's full Unicode lower-casing is modelled only for the characters whose lower case contains an ASCII letter. These are the ASCII capitals, U+0130 (which becomes "i" plus U+0307) and U+212A KELVIN SIGN (which becomes "k"). Every other character is kept as it is. All table keys and the "m" and "veg" prefixes are ASCII, so every lookup and branch agrees with Python; only the normalised string itself may differ on other letters.
