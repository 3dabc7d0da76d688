/** The record built from one classification: the dish label and
    confidence reported by the image classifier, joined with the nutrition
    facts of that label. The classifier itself is not modelled; its top-1
    label and confidence are inputs. */
module Classifier {
  import opened Nutrition

  /** One classification result, as returned by the upload endpoint and
      stored in a food log. */
  datatype Entry = Entry(dish: string, confidence: real, calories: real, protein: real, carbs: real, fat: real)
  {
    /** The nutrition part of the record. */
    function Nutrients(): Facts
    {
      Facts(calories, protein, carbs, fat)
    }
  }

  /** The record `predict_dish_from_image` assembles from a top-1 label (the dish) and
      its confidence. */
  function PredictionRecord(dish: string, confidence: real): (e: Entry)
    ensures e.dish == dish && e.confidence == confidence
    ensures e.Nutrients() == GetNutrition(dish)
    ensures e.Nutrients() == Default || exists i :: 0 <= i < |Table| && e.Nutrients() == Table[i].1
  {
    GetNutritionInRange(dish);
    var n := GetNutrition(dish);
    Entry(dish, confidence, n.calories, n.protein, n.carbs, n.fat)
  }

  /** Two labels with the same normal form give records with the same
      nutrition facts. */
  lemma SameNormalFormSameFacts(dish1: string, dish2: string, c1: real, c2: real)
    requires Normalize(dish1) == Normalize(dish2)
    ensures PredictionRecord(dish1, c1).Nutrients() == PredictionRecord(dish2, c2).Nutrients()
  {
  }
}
