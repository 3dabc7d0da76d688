/** The four endpoints as transitions of the store state: each request
    yields the next state and the response payload. Form parsing, routing
    and the image classifier are outside the model; an upload request
    carries the classifier's top-1 label and confidence directly. */
module Api {
  import opened Wrappers
  import opened Calories
  import opened Classifier
  import opened Stores

  /** A request, with the form fields the handler reads. For a profile,
      `preference` and `name` are the optional form fields. */
  datatype Request =
    | ProfileRequest(age: int, weight: real, height: real, gender: string, activityLevel: string,
                     preference: Option<string>, name: Option<string>)
    | RecommendRequest(userId: int)
    | UploadFoodRequest(userId: int, dish: string, confidence: real)
    | LogsRequest(userId: int)

  /** One meal of a recommended plan. */
  datatype PlanItem = PlanItem(name: string, calories: int)

  /** A response payload. */
  datatype Response =
    | ProfileCreated(profile: Profile)
    | Recommendation(calorieNeeds: int, plan: seq<PlanItem>)
    | Error(message: string)
    | FoodRecord(entry: Entry)
    | LogList(entries: seq<Entry>)

  /** The message of the soft error for an unknown user. */
  const UserNotFound: string := "User not found"

  /** The preference stored when the form leaves it out. */
  const DefaultPreference: string := "veg"

  /** The plan's (name, calories) pairs as response objects, in order. */
  function ToItems(plan: seq<(string, int)>): (items: seq<PlanItem>)
    ensures |items| == |plan|
    ensures forall i :: 0 <= i < |plan| ==> items[i].name == plan[i].0 && items[i].calories == plan[i].1
  {
    seq(|plan|, i requires 0 <= i < |plan| => PlanItem(plan[i].0, plan[i].1))
  }

  /** The `recommend` handler: the error payload for an unknown id,
      otherwise the stored profile's daily needs and its plan. */
  function Recommend(s: State, userId: int): (r: Response)
    ensures userId !in s.users <==> r == Error(UserNotFound)
    ensures userId in s.users ==>
      var p := s.users[userId];
      var needs := DailyCalorieNeeds(p.age, p.weight, p.height, p.gender, p.activityLevel);
      var plan := RecommendDailyPlan(needs, p.preference);
      && r.Recommendation?
      && r.calorieNeeds == needs
      && |r.plan| == 4
      && (forall i :: 0 <= i < 4 ==> r.plan[i] == PlanItem(plan[i].0, plan[i].1))
  {
    match GetProfile(s, userId)
    case None => Error(UserNotFound)
    case Some(p) =>
      var calories := DailyCalorieNeeds(p.age, p.weight, p.height, p.gender, p.activityLevel);
      Recommendation(calories, ToItems(RecommendDailyPlan(calories, p.preference)))
  }

  /** One request applied to the state. */
  function Handle(s: State, req: Request): (res: (State, Response))
    ensures (req.RecommendRequest? || req.LogsRequest?) ==> res.0 == s
    ensures req.RecommendRequest? ==> res.1 == Recommend(s, req.userId)
    ensures req.LogsRequest? ==> res.1 == LogList(Logs(s, req.userId))
    ensures req.UploadFoodRequest? ==>
      var e := PredictionRecord(req.dish, req.confidence);
      res.1 == FoodRecord(e) && res.0 == AppendLog(s, req.userId, e)
    ensures req.ProfileRequest? ==>
      && res.1.ProfileCreated?
      && res.1.profile == Profile(NextId(s.users), req.name, req.age, req.weight, req.height, req.gender,
                                  req.activityLevel, req.preference.GetOr(DefaultPreference))
      && res.1.profile.id !in s.users
      && res.0.users == s.users[res.1.profile.id := res.1.profile]
      && res.0.foodLogs == s.foodLogs
      && res.1.profile.preference == req.preference.GetOr(DefaultPreference)
  {
    match req
    case ProfileRequest(age, weight, height, gender, level, preference, name) =>
      var (s', p) := CreateProfile(s, name, age, weight, height, gender, level, preference.GetOr(DefaultPreference));
      (s', ProfileCreated(p))
    case RecommendRequest(userId) =>
      (s, Recommend(s, userId))
    case UploadFoodRequest(userId, dish, confidence) =>
      var e := PredictionRecord(dish, confidence);
      (AppendLog(s, userId, e), FoodRecord(e))
    case LogsRequest(userId) =>
      (s, LogList(Logs(s, userId)))
  }

  /** An upload followed by a log read for the same user returns the
      user's earlier log with the new record at its end. */
  lemma UploadThenLogs(s: State, userId: int, dish: string, confidence: real)
    ensures var s1 := Handle(s, UploadFoodRequest(userId, dish, confidence)).0;
            Handle(s1, LogsRequest(userId)).1 == LogList(Logs(s, userId) + [PredictionRecord(dish, confidence)])
  {
  }

  /** An upload for one user does not change what another user's log read
      returns, nor any profile. */
  lemma UploadLeavesOthers(s: State, userId: int, other: int, dish: string, confidence: real)
    requires other != userId
    ensures var s1 := Handle(s, UploadFoodRequest(userId, dish, confidence)).0;
            Handle(s1, LogsRequest(other)).1 == Handle(s, LogsRequest(other)).1
            && s1.users == s.users
  {
  }

  /** Recommending for an id that has no profile yields the error payload
      and leaves both stores as they were. */
  lemma RecommendUnknownUser(s: State, userId: int)
    requires userId !in s.users
    ensures Handle(s, RecommendRequest(userId)) == (s, Error(UserNotFound))
  {
  }
}
