/** The calorie engine: Mifflin-St Jeor basal metabolic rate, daily needs
    scaled by an activity factor and truncated to an integer, and the fixed
    two-way meal plan. Arithmetic is exact over `real`. */
module Calories {
  import opened Text

  /** Python's `int(x)` on a float: truncation toward zero. */
  function Trunc(x: real): (r: int)
    ensures TruncatesTo(x, r)
  {
    if x >= 0.0 then x.Floor else -((-x).Floor)
  }

  /** `r` is `x` with its fractional part dropped, rounding toward zero. */
  ghost predicate TruncatesTo(x: real, r: int)
  {
    if x >= 0.0 then r as real <= x < r as real + 1.0
    else r as real - 1.0 < x <= r as real
  }

  /** At most one integer is the truncation of a given real. */
  lemma TruncatesToUnique(x: real, r1: int, r2: int)
    requires TruncatesTo(x, r1) && TruncatesTo(x, r2)
    ensures r1 == r2
  {
  }

  /** Truncation is symmetric about zero: `int(-x) == -int(x)`. */
  lemma TruncOdd(x: real)
    ensures Trunc(-x) == -Trunc(x)
  {
  }

  /** `gender.lower().startswith('m')`. */
  predicate IsMale(gender: string)
  {
    StartsWith(Lower(gender), "m")
  }

  /** The male branch is taken exactly when the first character is `m` or
      `M`: no other character lowers to a string starting with `m`. */
  lemma IsMaleIff(gender: string)
    ensures IsMale(gender) <==> |gender| > 0 && (gender[0] == 'm' || gender[0] == 'M')
  {
    if gender != [] {
      var h := LowerChar(gender[0]);
      assert Lower(gender) == h + Lower(gender[1..]);
      assert Lower(gender)[0] == h[0];
    }
  }

  /** `calc_bmr`: Mifflin-St Jeor with the male constant +5 and the
      other constant -161. */
  function CalcBmr(age: int, weight: real, height: real, gender: string): real
  {
    if IsMale(gender) then 10.0 * weight + 6.25 * height - 5.0 * age as real + 5.0
    else 10.0 * weight + 6.25 * height - 5.0 * age as real - 161.0
  }

  /** For the same age, weight and height, a gender starting with `m` or
      `M` gets a BMR exactly 166 kcal above any other gender. */
  lemma MaleBmrExceedsBy166(age: int, weight: real, height: real, male: string, other: string)
    requires |male| > 0 && (male[0] == 'm' || male[0] == 'M')
    requires !(|other| > 0 && (other[0] == 'm' || other[0] == 'M'))
    ensures CalcBmr(age, weight, height, male) == CalcBmr(age, weight, height, other) + 166.0
  {
    IsMaleIff(male);
    IsMaleIff(other);
  }

  /** The BMR is linear: each kilogram adds 10, each centimetre 6.25 and each
      year takes 5, whatever the gender. */
  lemma BmrLinear(age: int, weight: real, height: real, gender: string, dAge: int, dWeight: real, dHeight: real)
    ensures CalcBmr(age + dAge, weight + dWeight, height + dHeight, gender)
            == CalcBmr(age, weight, height, gender) + 10.0 * dWeight + 6.25 * dHeight - 5.0 * dAge as real
  {
  }

  /** `ACTIVITY_FACTORS`. */
  const ActivityFactors: map<string, real> :=
    map["sedentary" := 1.2, "light" := 1.375, "moderate" := 1.55, "active" := 1.725]

  /** `ACTIVITY_FACTORS.get(level, 1.2)`. */
  function ActivityFactor(level: string): (f: real)
    ensures 1.2 <= f <= 1.725
    ensures f == 1.2 <==> level !in ActivityFactors || level == "sedentary"
    ensures level == "light" ==> f == 1.375
    ensures level == "moderate" ==> f == 1.55
    ensures level == "active" ==> f == 1.725
  {
    if level in ActivityFactors then ActivityFactors[level] else 1.2
  }

  /** `daily_calorie_needs`: the BMR times the activity factor, truncated
      toward zero. */
  function DailyCalorieNeeds(age: int, weight: real, height: real, gender: string, level: string): (r: int)
    ensures TruncatesTo(CalcBmr(age, weight, height, gender) * ActivityFactor(level), r)
  {
    Trunc(CalcBmr(age, weight, height, gender) * ActivityFactor(level))
  }

  /** An activity level outside the table is treated as "sedentary". */
  lemma UnknownLevelIsSedentary(age: int, weight: real, height: real, gender: string, level: string)
    requires level !in ActivityFactors
    ensures DailyCalorieNeeds(age, weight, height, gender, level)
            == DailyCalorieNeeds(age, weight, height, gender, "sedentary")
  {
  }

  /** Age 25, 70 kg, 175 cm, "male": BMR 1673.75, and sedentary needs
      int(1673.75 * 1.2) = int(2008.5) = 2008. */
  lemma ReferenceExample(gender: string)
    requires gender == "male"
    ensures CalcBmr(25, 70.0, 175.0, gender) == 1673.75
    ensures DailyCalorieNeeds(25, 70.0, 175.0, gender, "sedentary") == 2008
  {
  }

  /** The vegetarian plan: (dish, kcal) pairs. */
  const VegPlan: seq<(string, int)> :=
    [("idli", 70), ("dal_makhani", 350), ("roti with sabzi", 300), ("fruit snack", 150)]

  /** The non-vegetarian plan. */
  const NonVegPlan: seq<(string, int)> :=
    [("butter_chicken", 400), ("naan", 180), ("biryani", 450), ("gulab_jamun", 300)]

  /** `recommend_daily_plan`: one of two fixed four-item plans, chosen by
      whether the preference starts with "veg"; the calorie figure is not
      consulted. */
  function RecommendDailyPlan(calories: int, preference: string): (plan: seq<(string, int)>)
    ensures |plan| == 4
    ensures plan == VegPlan || plan == NonVegPlan
    ensures plan == VegPlan <==> StartsWith(preference, "veg")
  {
    if StartsWith(preference, "veg") then VegPlan else NonVegPlan
  }

  /** The plan does not depend on the calorie figure. */
  lemma PlanIgnoresCalories(c1: int, c2: int, preference: string)
    ensures RecommendDailyPlan(c1, preference) == RecommendDailyPlan(c2, preference)
  {
  }
}
