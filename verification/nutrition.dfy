/** Static nutrition facts looked up by dish name: the name is normalised
    and the first table key occurring in it, in table order, wins; with no
    matching key a fixed default is returned. */
module Nutrition {
  import opened Wrappers
  import opened Text

  /** Macro-nutrient facts of one dish. */
  datatype Facts = Facts(calories: real, protein: real, carbs: real, fat: real)

  /** The nutrition table in its insertion (iteration) order. */
  const Table: seq<(string, Facts)> := [
    ("aloo_tikki", Facts(150.0, 3.0, 25.0, 5.0)),
    ("butter_chicken", Facts(400.0, 30.0, 10.0, 25.0)),
    ("jaljeera", Facts(50.0, 1.0, 12.0, 0.1))
  ]

  /** The facts returned when no table key matches. */
  const Default: Facts := Facts(200.0, 5.0, 30.0, 5.0)

  /** The dish name as the lookup sees it: lower case, spaces turned into
      underscores. */
  function Normalize(dish: string): (n: string)
    ensures dish == [] ==> n == []
    ensures |n| >= |dish|
    ensures forall i :: 0 <= i < |n| ==> n[i] != ' '
    ensures IsLowered(n)
    ensures (forall i :: 0 <= i < |dish| ==> |LowerChar(dish[i])| == 1) ==>
              && |n| == |dish|
              && forall i :: 0 <= i < |dish| ==> n[i] == (if dish[i] == ' ' then '_' else LowerChar(dish[i])[0])
  {
    NormalizeFacts(dish);
    ReplaceSpaces(Lower(dish))
  }

  /** What lower-casing contributes to the normal form: the length bound,
      lower case throughout, and a character-by-character mapping when no
      character lowers to more than one. */
  lemma NormalizeFacts(dish: string)
    ensures |Lower(dish)| >= |dish|
    ensures IsLowered(ReplaceSpaces(Lower(dish)))
    ensures (forall i :: 0 <= i < |dish| ==> |LowerChar(dish[i])| == 1) ==>
              && |Lower(dish)| == |dish|
              && forall i :: 0 <= i < |dish| ==> Lower(dish)[i] == LowerChar(dish[i])[0]
  {
    LowerLength(dish);
    LowerIsLowered(dish);
    ReplaceSpacesKeepsLowered(Lower(dish));
    if forall i :: 0 <= i < |dish| ==> |LowerChar(dish[i])| == 1 {
      LowerPointwise(dish);
    }
  }

  /** Turning spaces into underscores keeps a lower-case string lower
      case. */
  lemma ReplaceSpacesKeepsLowered(t: string)
    requires IsLowered(t)
    ensures IsLowered(ReplaceSpaces(t))
  {
    var u := ReplaceSpaces(t);
    forall i | 0 <= i < |u|
      ensures LowerChar(u[i]) == [u[i]]
    {
      if t[i] == ' ' {
        assert u[i] == '_';
      } else {
        assert u[i] == t[i];
      }
    }
  }

  /** Normalising an already-normalised name changes nothing. */
  lemma NormalizeIdempotent(dish: string)
    ensures Normalize(Normalize(dish)) == Normalize(dish)
  {
    var u := Normalize(dish);
    LowerOfLowered(u);
    ReplaceSpacesOfSpaceless(u);
  }

  /** Normalisation works character by character: the normal form of a name
      is the first character's lower case, with a space turned into '_',
      followed by the normal form of the rest. This fixes the normal form of
      every name, including one whose characters lower to several. */
  lemma NormalizeCons(c: char, t: string)
    ensures Normalize([c] + t) == ReplaceSpaces(LowerChar(c)) + Normalize(t)
  {
    LowerCons(c, t);
    ReplaceSpacesAppend(LowerChar(c), Lower(t));
  }

  /** `key` is the key of row `i`, the first row whose key occurs in
      `name`. */
  ghost predicate IsFirstMatch(table: seq<(string, Facts)>, name: string, i: int)
  {
    && 0 <= i < |table|
    && OccursIn(name, table[i].0)
    && forall j :: 0 <= j < i ==> !OccursIn(name, table[j].0)
  }

  /** No key of `table` occurs in `name`. */
  ghost predicate NoMatch(table: seq<(string, Facts)>, name: string)
  {
    forall j :: 0 <= j < |table| ==> !OccursIn(name, table[j].0)
  }

  /** The position of the first row, in table order, whose key is a
      substring of `name`. */
  function FirstMatch(table: seq<(string, Facts)>, name: string): (r: Option<nat>)
    ensures r.Some? ==> IsFirstMatch(table, name, r.value)
    ensures r.None? ==> NoMatch(table, name)
  {
    ContainsIffAll(name);
    if table == [] then None
    else if Contains(name, table[0].0) then Some(0)
    else
      match FirstMatch(table[1..], name)
      case None => None
      case Some(i) => Some(i + 1)
  }

  /** `get_nutrition(dish)`: the facts of the first table key contained in
      the normalised dish name, or `Default` when there is none. */
  function GetNutrition(dish: string): (r: Facts)
    ensures (exists i :: IsFirstMatch(Table, Normalize(dish), i) && r == Table[i].1)
            || (NoMatch(Table, Normalize(dish)) && r == Default)
  {
    match FirstMatch(Table, Normalize(dish))
    case Some(i) => Table[i].1
    case None => Default
  }

  /** Whatever the dish, the lookup answers with a row of the table or the
      default. */
  lemma GetNutritionInRange(dish: string)
    ensures GetNutrition(dish) == Default
            || exists i :: 0 <= i < |Table| && GetNutrition(dish) == Table[i].1
  {
  }

  /** The lookup is invariant under its own normalisation, so a name and
      its normal form find the same entry. */
  lemma GetNutritionNormalized(dish: string)
    ensures GetNutrition(Normalize(dish)) == GetNutrition(dish)
  {
    NormalizeIdempotent(dish);
  }

  /** A key with a character the name lacks cannot occur in the name. */
  lemma MissingCharNoMatch(name: string, key: string, c: char)
    requires c in key && c !in name
    ensures !OccursIn(name, key)
  {
  }

  // The examples below take their string literals as parameters: applied
  // directly to a literal, `Lower` would be unrolled without bound.

  /** "Butter Chicken" normalises to the key "butter_chicken". */
  lemma ButterChickenNormalized(dish: string, n: string)
    requires dish == "Butter Chicken"
    requires n == "butter_chicken"
    ensures Normalize(dish) == n
  {
    assert forall i :: 0 <= i < |dish| ==> |LowerChar(dish[i])| == 1;
  }

  /** In "butter_chicken" the first key does not occur and the second
      does. */
  lemma ButterChickenFirstMatch(n: string)
    requires n == "butter_chicken"
    ensures IsFirstMatch(Table, n, 1)
  {
    MissingCharNoMatch(n, Table[0].0, 'a');
    assert OccursAt(n, Table[1].0, 0);
  }

  /** "Butter Chicken" normalises to the key "butter_chicken" and gets its
      entry. */
  lemma ButterChickenExample(dish: string, n: string)
    requires dish == "Butter Chicken"
    requires n == "butter_chicken"
    ensures Normalize(dish) == n
    ensures GetNutrition(dish) == Facts(400.0, 30.0, 10.0, 25.0)
  {
    ButterChickenNormalized(dish, n);
    ButterChickenFirstMatch(n);
  }

  /** The name "unknown_dish_xyz" is its own normal form. */
  lemma UnknownDishNormalized(dish: string)
    requires dish == "unknown_dish_xyz"
    ensures Normalize(dish) == dish
  {
    assert forall i :: 0 <= i < |dish| ==> |LowerChar(dish[i])| == 1;
  }

  /** No key occurs in "unknown_dish_xyz": each has a letter the name
      lacks. */
  lemma UnknownDishNoMatch(dish: string)
    requires dish == "unknown_dish_xyz"
    ensures NoMatch(Table, dish)
  {
    MissingCharNoMatch(dish, Table[0].0, 'a');
    MissingCharNoMatch(dish, Table[1].0, 'b');
    MissingCharNoMatch(dish, Table[2].0, 'j');
  }

  /** A name containing no key falls back to the default. */
  lemma UnknownDishExample(dish: string)
    requires dish == "unknown_dish_xyz"
    ensures GetNutrition(dish) == Default
  {
    UnknownDishNormalized(dish);
    UnknownDishNoMatch(dish);
  }

  /** "Jaljeera Aloo Tikki" normalises letter by letter. */
  lemma TwoKeysNormalized(dish: string, n: string)
    requires dish == "Jaljeera Aloo Tikki"
    requires n == "jaljeera_aloo_tikki"
    ensures Normalize(dish) == n
  {
    assert forall i :: 0 <= i < |dish| ==> |LowerChar(dish[i])| == 1;
  }

  /** Both the first and the third key occur in "jaljeera_aloo_tikki". */
  lemma TwoKeysOccur(n: string)
    requires n == "jaljeera_aloo_tikki"
    ensures OccursAt(n, Table[0].0, 9) && OccursAt(n, Table[2].0, 0)
  {
  }

  /** When two keys occur in the name, the one earlier in the table wins,
      wherever it stands in the name. */
  lemma FirstKeyWinsExample(dish: string, n: string)
    requires dish == "Jaljeera Aloo Tikki"
    requires n == "jaljeera_aloo_tikki"
    ensures Normalize(dish) == n
    ensures GetNutrition(dish) == Facts(150.0, 3.0, 25.0, 5.0)
  {
    TwoKeysNormalized(dish, n);
    TwoKeysOccur(n);
    assert IsFirstMatch(Table, n, 0);
  }

  /** A name whose one character lowers to two: U+0130 normalises to "i"
      followed by COMBINING DOT ABOVE, which holds no key, so the lookup
      falls back to the default. */
  lemma DottedCapitalIExample(dish: string, n: string)
    requires dish == "\U{0130}"
    requires n == "i\U{0307}"
    ensures Normalize(dish) == n
    ensures GetNutrition(dish) == Default
  {
    assert dish == [dish[0]] + [];
    NormalizeCons(dish[0], []);
    MissingCharNoMatch(n, Table[0].0, 'a');
    MissingCharNoMatch(n, Table[1].0, 'b');
    MissingCharNoMatch(n, Table[2].0, 'j');
  }
}
