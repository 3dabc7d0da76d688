/** The two in-memory stores: user profiles keyed by an assigned id, and
    per-user food logs. Every handler is modelled as a transition from one
    store state to the next. */
module Stores {
  import opened Wrappers
  import opened Classifier

  /** A stored user profile. */
  datatype Profile = Profile(
    id: int,
    name: Option<string>,
    age: int,
    weight: real,
    height: real,
    gender: string,
    activityLevel: string,
    preference: string)

  /** Both stores together. Logs may exist for ids that have no profile. */
  datatype State = State(users: map<int, Profile>, foodLogs: map<int, seq<Entry>>)

  /** The state at process start: both stores empty. */
  const Initial: State := State(map[], map[])

  /** `m` is the largest element of `s`. */
  predicate IsMaxOf(s: set<int>, m: int)
  {
    m in s && forall k :: k in s ==> k <= m
  }

  /** Adding one element to a set with a largest element keeps one. */
  lemma MaxOfInsert(rest: set<int>, x: int, m: int)
    requires IsMaxOf(rest, m)
    ensures IsMaxOf(rest + {x}, if x <= m then m else x)
  {
  }

  /** Every finite non-empty set of integers has a largest element. */
  lemma {:induction false} MaxExists(s: set<int>)
    requires s != {}
    ensures exists m :: IsMaxOf(s, m)
    decreases |s|
  {
    // A non-empty set has an element: this gives `x :| x in s` its witness.
    if forall y :: y !in s {
      assert false;
    }
    var x :| x in s;
    var rest := s - {x};
    assert s == rest + {x};
    if rest == {} {
      assert s == {x};
      assert IsMaxOf(s, x);
    } else {
      MaxExists(rest);
      var m :| IsMaxOf(rest, m);
      MaxOfInsert(rest, x, m);
    }
  }

  /** The largest element of a non-empty set. */
  function Max(s: set<int>): (m: int)
    requires s != {}
    ensures m in s
    ensures forall k :: k in s ==> k <= m
  {
    MaxExists(s);
    var m :| IsMaxOf(s, m);
    m
  }

  /** `next_id`: one more than the largest key, or 1 for an empty store. */
  function NextId<V>(store: map<int, V>): (id: int)
    ensures id !in store
    ensures forall k :: k in store ==> k < id
    ensures store == map[] ==> id == 1
    ensures store != map[] ==> id - 1 in store
  {
    if store.Keys == {} then 1 else Max(store.Keys) + 1
  }

  /** The `profile` handler: stores a new profile under a fresh id and
      returns it. The food logs are not touched. */
  function CreateProfile(s: State, name: Option<string>, age: int, weight: real, height: real,
                         gender: string, activityLevel: string, preference: string): (res: (State, Profile))
    ensures var (s', p) := res;
      && p == Profile(p.id, name, age, weight, height, gender, activityLevel, preference)
      && p.id == NextId(s.users)
      && p.id !in s.users
      && (forall k :: k in s.users ==> k < p.id)
      && s'.users.Keys == s.users.Keys + {p.id}
      && |s'.users| == |s.users| + 1
      && s'.users[p.id] == p
      && (forall k :: k in s.users ==> s'.users[k] == s.users[k])
      && s'.foodLogs == s.foodLogs
  {
    var id := NextId(s.users);
    var p := Profile(id, name, age, weight, height, gender, activityLevel, preference);
    (s.(users := s.users[id := p]), p)
  }

  /** `USERS.get(user_id)`. */
  function GetProfile(s: State, id: int): (r: Option<Profile>)
    ensures r.Some? <==> id in s.users
    ensures r.Some? ==> r.value == s.users[id]
  {
    if id in s.users then Some(s.users[id]) else None
  }

  /** A profile just created is found under its id, and every other id
      finds what it found before. */
  lemma CreateThenGetProfile(s: State, name: Option<string>, age: int, weight: real, height: real,
                             gender: string, activityLevel: string, preference: string, other: int)
    ensures var (s', p) := CreateProfile(s, name, age, weight, height, gender, activityLevel, preference);
            && GetProfile(s', p.id) == Some(p)
            && (other != p.id ==> GetProfile(s', other) == GetProfile(s, other))
  {
  }

  /** The ids of a store that has only ever assigned ids through
      `CreateProfile`, starting empty: exactly 1 through n. */
  ghost predicate DenseIds(users: map<int, Profile>, n: nat)
  {
    forall k :: k in users <==> 1 <= k <= n
  }

  /** With ids 1..n in use, the next profile gets id n + 1 and the ids
      become 1..n+1. */
  lemma CreateProfileSequential(s: State, n: nat, name: Option<string>, age: int, weight: real,
                                height: real, gender: string, activityLevel: string, preference: string)
    requires DenseIds(s.users, n)
    ensures CreateProfile(s, name, age, weight, height, gender, activityLevel, preference).1.id == n + 1
    ensures DenseIds(CreateProfile(s, name, age, weight, height, gender, activityLevel, preference).0.users, n + 1)
  {
  }

  /** Three profiles created from the empty store receive ids 1, 2, 3. */
  lemma ThreeProfilesExample(p: Profile)
    ensures var (s1, p1) := CreateProfile(Initial, p.name, p.age, p.weight, p.height, p.gender, p.activityLevel, p.preference);
            var (s2, p2) := CreateProfile(s1, p.name, p.age, p.weight, p.height, p.gender, p.activityLevel, p.preference);
            var (s3, p3) := CreateProfile(s2, p.name, p.age, p.weight, p.height, p.gender, p.activityLevel, p.preference);
            p1.id == 1 && p2.id == 2 && p3.id == 3
  {
  }

  /** `FOOD_LOGS.get(user_id, [])`. */
  function Logs(s: State, user: int): (log: seq<Entry>)
    ensures user !in s.foodLogs ==> log == []
    ensures user in s.foodLogs ==> log == s.foodLogs[user]
  {
    if user in s.foodLogs then s.foodLogs[user] else []
  }

  /** The append step of `upload_food`: start an empty log for an unseen
      user, then append the entry at its end. */
  function AppendLog(s: State, user: int, e: Entry): (s': State)
    ensures s'.users == s.users
    ensures s'.foodLogs.Keys == s.foodLogs.Keys + {user}
    ensures Logs(s', user) == Logs(s, user) + [e]
    ensures forall u :: u != user ==> Logs(s', u) == Logs(s, u)
  {
    var log := if user !in s.foodLogs then [] else s.foodLogs[user];
    s.(foodLogs := s.foodLogs[user := log + [e]])
  }

  /** Appending several entries one after another, in order. */
  function AppendAll(s: State, user: int, es: seq<Entry>): State
    decreases |es|
  {
    if es == [] then s else AppendAll(AppendLog(s, user, es[0]), user, es[1..])
  }

  /** Appends followed by a read give back the old log followed by the new
      entries in the order they were appended; other users' logs and the
      profiles stay as they were. */
  lemma {:induction false} AppendAllThenLogs(s: State, user: int, es: seq<Entry>)
    ensures Logs(AppendAll(s, user, es), user) == Logs(s, user) + es
    ensures forall u :: u != user ==> Logs(AppendAll(s, user, es), u) == Logs(s, u)
    ensures AppendAll(s, user, es).users == s.users
    decreases |es|
  {
    if es != [] {
      var s1 := AppendLog(s, user, es[0]);
      AppendAllThenLogs(s1, user, es[1..]);
      assert Logs(s, user) + [es[0]] + es[1..] == Logs(s, user) + es;
    }
  }

  /** From the empty store, a user's log is exactly the entries appended
      for that user. */
  lemma FreshLogRoundTrip(user: int, es: seq<Entry>)
    ensures Logs(AppendAll(Initial, user, es), user) == es
  {
    AppendAllThenLogs(Initial, user, es);
  }
}
