/**
 * Registration, login by username and the per-user statistics
 * (server/src/controllers/userController.ts).
 */
module UserController {
  import opened Common
  import opened Types
  import opened ErrorHandler
  import Store

  const LoginUnknownUser := "User not found. Please check your username or create a new account."

  // ---------------------------------------------------------------------
  // createUser / loginUser

  /** The user row `prisma.user.create({ data: { username } })` inserts, with the schema's defaults. */
  function NewUser(id: Id, username: string, now: int): (u: User)
    ensures u.id == id && u.username == username && u.role == QuizTaker && u.tokenVersion == 0
  {
    User(id, username, QuizTaker, 0, now)
  }

  /** `createUser`: `newId` is the identifier the store generates, `now` the current time. */
  method CreateUser(db: Store.Database, username: string, newId: Id, now: int) returns (r: Result<User, AppError>)
    requires db.Valid() && newId !in db.users
    modifies db`users, db`usernameIndex
    ensures db.Valid()
    ensures username in old(db.usernameIndex) ==>
      r == Err(Fail(400, UsernameAlreadyExists)) && db.users == old(db.users) && db.usernameIndex == old(db.usernameIndex)
    ensures username !in old(db.usernameIndex) ==>
      r == Ok(NewUser(newId, username, now)) &&
      db.users == old(db.users)[newId := r.value] && db.usernameIndex == old(db.usernameIndex)[username := newId]
  {
    if username in db.usernameIndex {
      return Err(Fail(400, "Username already exists"));
    }
    var user := NewUser(newId, username, now);
    Store.IndexedAfterInsert(db.users, db.usernameIndex, user);
    db.users := db.users[newId := user];
    db.usernameIndex := db.usernameIndex[username := newId];
    r := Ok(user);
  }

  /** After a successful `createUser` the table holds exactly one user with that name more than before. */
  lemma CreatedUserIsTheOnlyOne(users: map<Id, User>, index: map<string, Id>, username: string, newId: Id, now: int)
    requires Store.UsernameIndexed(users, index) && newId !in users && username !in index
    ensures var users' := users[newId := NewUser(newId, username, now)];
      |users'| == |users| + 1 &&
      forall id :: id in users' && users'[id].username == username ==> id == newId
  {
    var u := NewUser(newId, username, now);
    Store.IndexedAfterInsert(users, index, u);
    var users' := users[newId := u];
    forall id | id in users' && users'[id].username == username ensures id == newId {
      Store.IndexedNamesAreUnique(users', index[username := newId], id, newId);
    }
  }

  /** `loginUser`: look the name up in the unique index; no password is checked. */
  function LoginUser(users: map<Id, User>, index: map<string, Id>, username: string): (r: Result<User, AppError>)
    requires Store.UsernameIndexed(users, index)
    ensures r.Err? <==> forall id :: id in users ==> users[id].username != username
    ensures r.Err? ==> r.error == Fail(404, LoginUnknownUser)
    ensures r.Ok? ==> r.value.username == username && exists id :: id in users && users[id] == r.value
  {
    if username in index then Ok(users[index[username]])
    else Err(Fail(404, LoginUnknownUser))
  }

  /** A user that was just created can log in and gets the created row back. */
  lemma LoginAfterCreate(users: map<Id, User>, index: map<string, Id>, username: string, newId: Id, now: int)
    requires Store.UsernameIndexed(users, index) && newId !in users && username !in index
    ensures var u := NewUser(newId, username, now);
      Store.UsernameIndexed(users[newId := u], index[username := newId]) &&
      LoginUser(users[newId := u], index[username := newId], username) == Ok(u)
  {
    Store.IndexedAfterInsert(users, index, NewUser(newId, username, now));
  }

  // ---------------------------------------------------------------------
  // getUserStats: the attempts it aggregates

  /**
   * The query `findMany({ where: { userId, completedAt: { not: null } } })`
   * applied to the attempt table, which is given in `completedAt`-descending order.
   */
  function CompletedBy(table: seq<AttemptWithCategory>, userId: Id): (s: seq<AttemptWithCategory>)
    ensures |s| <= |table|
    ensures forall i :: 0 <= i < |s| ==> s[i] in table && s[i].attempt.userId == userId && s[i].attempt.completedAt.Some?
    ensures forall x :: x in table && x.attempt.userId == userId && x.attempt.completedAt.Some? ==> x in s
  {
    if table == [] then []
    else
      var init, last := table[..|table| - 1], table[|table| - 1];
      assert table == init + [last];
      CompletedBy(init, userId) +
        (if last.attempt.userId == userId && last.attempt.completedAt.Some? then [last] else [])
  }

  /** `completedAt` never increases along the sequence (among completed attempts). */
  predicate NewestFirst(s: seq<AttemptWithCategory>) {
    forall i, j :: 0 <= i < j < |s| && s[i].attempt.completedAt.Some? && s[j].attempt.completedAt.Some? ==>
      s[i].attempt.completedAt.value >= s[j].attempt.completedAt.value
  }

  /** Filtering keeps the table's order. */
  lemma {:induction false} CompletedByStaysNewestFirst(table: seq<AttemptWithCategory>, userId: Id)
    requires NewestFirst(table)
    ensures NewestFirst(CompletedBy(table, userId))
  {
    if table != [] {
      var init, last := table[..|table| - 1], table[|table| - 1];
      assert NewestFirst(init) by {
        forall i, j | 0 <= i < j < |init| ensures init[i] == table[i] && init[j] == table[j] { }
      }
      CompletedByStaysNewestFirst(init, userId);
      var s0 := CompletedBy(init, userId);
      if last.attempt.userId == userId && last.attempt.completedAt.Some? {
        forall i | 0 <= i < |s0|
          ensures s0[i].attempt.completedAt.Some? && s0[i].attempt.completedAt.value >= last.attempt.completedAt.value
        {
          var k :| 0 <= k < |init| && init[k] == s0[i];
          assert table[k] == init[k];
        }
        NewestFirstSnoc(s0, last);
        assert CompletedBy(table, userId) == s0 + [last];
      } else {
        assert CompletedBy(table, userId) == s0;
      }
    }
  }

  /** An attempt no newer than every earlier one can be appended keeping the order. */
  lemma NewestFirstSnoc(s: seq<AttemptWithCategory>, x: AttemptWithCategory)
    requires NewestFirst(s) && x.attempt.completedAt.Some?
    requires forall i :: 0 <= i < |s| ==>
      s[i].attempt.completedAt.Some? && s[i].attempt.completedAt.value >= x.attempt.completedAt.value
    ensures NewestFirst(s + [x])
  {
    var t := s + [x];
    forall i, j | 0 <= i < j < |t| && t[i].attempt.completedAt.Some? && t[j].attempt.completedAt.Some?
      ensures t[i].attempt.completedAt.value >= t[j].attempt.completedAt.value
    {
      assert t[i] == s[i];
      if j < |s| { assert t[j] == s[j]; }
    }
  }

  function SumPct(s: seq<AttemptWithCategory>): real {
    if s == [] then 0.0 else SumPct(s[..|s| - 1]) + s[|s| - 1].attempt.percentage
  }

  /**
   * A sum of percentages none above `bound` is at most `bound` per attempt;
   * with `bound` the best score, the average never exceeds the best.
   */
  lemma {:induction false} SumPctAtMost(s: seq<AttemptWithCategory>, bound: real)
    requires forall i :: 0 <= i < |s| ==> s[i].attempt.percentage <= bound
    ensures SumPct(s) <= |s| as real * bound
  {
    if s != [] {
      var init := s[..|s| - 1];
      assert forall i :: 0 <= i < |init| ==> init[i] == s[i];
      SumPctAtMost(init, bound);
      assert |s| as real * bound == |init| as real * bound + bound;
    }
  }

  /** `Math.max(...percentages)` of a non-empty sequence. */
  function MaxPct(s: seq<AttemptWithCategory>): (m: real)
    requires |s| > 0
    ensures forall i :: 0 <= i < |s| ==> s[i].attempt.percentage <= m
    ensures exists i :: 0 <= i < |s| && s[i].attempt.percentage == m
  {
    var last := s[|s| - 1].attempt.percentage;
    if |s| == 1 then last
    else
      var init := s[..|s| - 1];
      var m0 := MaxPct(init);
      assert forall i :: 0 <= i < |init| ==> init[i] == s[i];
      if m0 >= last then m0 else last
  }

  function QuizIdsOf(s: seq<AttemptWithCategory>): (q: seq<Id>)
    ensures |q| == |s| && forall i :: 0 <= i < |s| ==> q[i] == s[i].attempt.quizId
  {
    seq(|s|, i requires 0 <= i < |s| => s[i].attempt.quizId)
  }

  // ---------------------------------------------------------------------
  // getUserStats: grouping by category

  /** `data` of one `categoryMap` entry. */
  datatype CategoryData = CategoryData(category: Category, attempts: nat, totalScore: real)

  datatype CategoryPerformance = CategoryPerformance(category: Category, attempts: nat, averageScore: real)

  datatype UserStats = UserStats(
    totalAttempts: nat, totalQuizzes: nat, averageScore: real, bestScore: real,
    recentAttempts: seq<AttemptWithCategory>, categoryPerformance: seq<CategoryPerformance>)

  /** The category ids of the attempts, each once, in order of first appearance (the Map's key order). */
  function CategoryIds(s: seq<AttemptWithCategory>): (ids: seq<Id>)
    ensures Distinct(ids)
    ensures forall c :: c in ids <==> exists i :: 0 <= i < |s| && s[i].category.id == c
  {
    if s == [] then []
    else
      var init := s[..|s| - 1];
      var ids0 := CategoryIds(init);
      var c := s[|s| - 1].category.id;
      assert forall i :: 0 <= i < |init| ==> init[i] == s[i];
      if c in ids0 then ids0 else ids0 + [c]
  }

  /** The number of attempts in category `c`. */
  function CountIn(s: seq<AttemptWithCategory>, c: Id): (n: nat)
    ensures n <= |s|
    ensures n > 0 <==> exists i :: 0 <= i < |s| && s[i].category.id == c
  {
    if s == [] then 0
    else
      var init := s[..|s| - 1];
      assert forall i :: 0 <= i < |init| ==> init[i] == s[i];
      CountIn(init, c) + (if s[|s| - 1].category.id == c then 1 else 0)
  }

  /** The sum of the percentages of the attempts in category `c`. */
  function SumIn(s: seq<AttemptWithCategory>, c: Id): real {
    if s == [] then 0.0
    else SumIn(s[..|s| - 1], c) + (if s[|s| - 1].category.id == c then s[|s| - 1].attempt.percentage else 0.0)
  }

  /** The category object stored for `c`: that of the first attempt in category `c`. */
  function FirstCategoryIn(s: seq<AttemptWithCategory>, c: Id): (cat: Category)
    requires c in CategoryIds(s)
    ensures cat.id == c
  {
    var init := s[..|s| - 1];
    if c in CategoryIds(init) then FirstCategoryIn(init, c) else s[|s| - 1].category
  }

  /** `categoryPerformance`: one entry per category id, in order of first appearance. */
  function Performance(s: seq<AttemptWithCategory>): (p: seq<CategoryPerformance>)
    ensures |p| == |CategoryIds(s)|
  {
    var ids := CategoryIds(s);
    seq(|ids|, k requires 0 <= k < |ids| =>
      CategoryPerformance(FirstCategoryIn(s, ids[k]), CountIn(s, ids[k]), SumIn(s, ids[k]) / CountIn(s, ids[k]) as real))
  }

  /** The entries of `categoryPerformance`: one per category that occurs, each with its count and mean. */
  lemma PerformanceEntries(s: seq<AttemptWithCategory>)
    ensures var p, ids := Performance(s), CategoryIds(s);
      forall k :: 0 <= k < |p| ==>
        p[k].category.id == ids[k] && p[k].attempts > 0 &&
        p[k].averageScore == SumIn(s, ids[k]) / p[k].attempts as real
  {
  }

  function SumCounts(s: seq<AttemptWithCategory>, ids: seq<Id>): nat {
    if ids == [] then 0 else SumCounts(s, ids[..|ids| - 1]) + CountIn(s, ids[|ids| - 1])
  }

  function TotalAttempts(p: seq<CategoryPerformance>): nat {
    if p == [] then 0 else TotalAttempts(p[..|p| - 1]) + p[|p| - 1].attempts
  }

  /** How many times `c` occurs in `ids`. */
  function Occurrences(ids: seq<Id>, c: Id): nat {
    if ids == [] then 0 else Occurrences(ids[..|ids| - 1], c) + (if ids[|ids| - 1] == c then 1 else 0)
  }

  lemma {:induction false} OccurrencesOfDistinct(ids: seq<Id>, c: Id)
    requires Distinct(ids)
    ensures Occurrences(ids, c) == if c in ids then 1 else 0
  {
    if ids != [] {
      var init := ids[..|ids| - 1];
      assert ids == init + [ids[|ids| - 1]];
      assert Distinct(init);
      OccurrencesOfDistinct(init, c);
      if ids[|ids| - 1] == c {
        forall i | 0 <= i < |init| ensures init[i] != c { assert init[i] == ids[i]; }
      }
    }
  }

  lemma {:induction false} SumCountsSnoc(s: seq<AttemptWithCategory>, x: AttemptWithCategory, ids: seq<Id>)
    ensures SumCounts(s + [x], ids) == SumCounts(s, ids) + Occurrences(ids, x.category.id)
  {
    if ids != [] {
      SumCountsSnoc(s, x, ids[..|ids| - 1]);
      assert (s + [x])[..|s + [x]| - 1] == s;
    }
  }

  lemma {:induction false} CountsCoverAll(s: seq<AttemptWithCategory>)
    ensures SumCounts(s, CategoryIds(s)) == |s|
  {
    if s != [] {
      var init, x := s[..|s| - 1], s[|s| - 1];
      assert s == init + [x];
      var ids0 := CategoryIds(init);
      CountsCoverAll(init);
      SumCountsSnoc(init, x, ids0);
      OccurrencesOfDistinct(ids0, x.category.id);
      if x.category.id !in ids0 {
        assert (ids0 + [x.category.id])[..|ids0|] == ids0;
        assert CountIn(init, x.category.id) == 0;
      }
    }
  }

  lemma {:induction false} TotalOfPrefix(s: seq<AttemptWithCategory>, n: nat)
    requires n <= |CategoryIds(s)|
    ensures TotalAttempts(Performance(s)[..n]) == SumCounts(s, CategoryIds(s)[..n])
  {
    if n > 0 {
      TotalOfPrefix(s, n - 1);
      assert Performance(s)[..n][..n - 1] == Performance(s)[..n - 1];
      assert CategoryIds(s)[..n][..n - 1] == CategoryIds(s)[..n - 1];
    }
  }

  /** The per-category attempt counts add up to `totalAttempts`. */
  lemma CategoryCountsSumToTotal(s: seq<AttemptWithCategory>)
    ensures TotalAttempts(Performance(s)) == |s|
  {
    var n := |CategoryIds(s)|;
    TotalOfPrefix(s, n);
    assert Performance(s)[..n] == Performance(s);
    assert CategoryIds(s)[..n] == CategoryIds(s);
    CountsCoverAll(s);
  }

  // ---------------------------------------------------------------------
  // getUserStats

  /** The `categoryMap` entry for category `c` after the attempts `s`. */
  function Entry(s: seq<AttemptWithCategory>, c: Id): CategoryData
    requires c in CategoryIds(s)
  {
    CategoryData(FirstCategoryIn(s, c), CountIn(s, c), SumIn(s, c))
  }

  /** `categoryMap`, with `keyOrder` its insertion order, holds the grouping of the attempts `s`. */
  ghost predicate Tracks(categoryMap: map<Id, CategoryData>, keyOrder: seq<Id>, s: seq<AttemptWithCategory>) {
    keyOrder == CategoryIds(s) &&
    (forall c :: c in categoryMap <==> c in keyOrder) &&
    (forall c :: c in categoryMap ==> categoryMap[c] == Entry(s, c))
  }

  lemma GroupingSnocAt(s: seq<AttemptWithCategory>, x: AttemptWithCategory, c: Id)
    requires c in CategoryIds(s + [x])
    ensures c != x.category.id ==> c in CategoryIds(s) && Entry(s + [x], c) == Entry(s, c)
    ensures c == x.category.id && c in CategoryIds(s) ==>
      Entry(s + [x], c) == Entry(s, c).(attempts := Entry(s, c).attempts + 1, totalScore := Entry(s, c).totalScore + x.attempt.percentage)
    ensures c == x.category.id && c !in CategoryIds(s) ==>
      Entry(s + [x], c) == CategoryData(x.category, 1, 0.0 + x.attempt.percentage)
  {
    assert (s + [x])[..|s|] == s;
    if c !in CategoryIds(s) {
      assert CountIn(s, c) == 0;
      assert SumIn(s, c) == 0.0 by { SumInAbsent(s, c); }
    }
  }

  lemma {:induction false} SumInAbsent(s: seq<AttemptWithCategory>, c: Id)
    requires c !in CategoryIds(s)
    ensures SumIn(s, c) == 0.0
  {
    if s != [] {
      var init := s[..|s| - 1];
      assert forall i :: 0 <= i < |init| ==> init[i] == s[i];
      SumInAbsent(init, c);
    }
  }

  /** The map after one iteration of the `forEach`: create the entry if absent, then count the attempt in it. */
  function Bump(categoryMap: map<Id, CategoryData>, x: AttemptWithCategory): map<Id, CategoryData> {
    var c := x.category.id;
    var m1 := if c in categoryMap then categoryMap else categoryMap[c := CategoryData(x.category, 0, 0.0)];
    var d := m1[c];
    m1[c := d.(attempts := d.attempts + 1, totalScore := d.totalScore + x.attempt.percentage)]
  }

  /** The map's insertion order after one iteration: a new key goes last. */
  function Extend(categoryMap: map<Id, CategoryData>, keyOrder: seq<Id>, x: AttemptWithCategory): seq<Id> {
    if x.category.id in categoryMap then keyOrder else keyOrder + [x.category.id]
  }

  /** One iteration keeps the map in step with the attempts seen so far. */
  lemma TracksStep(categoryMap: map<Id, CategoryData>, keyOrder: seq<Id>, s: seq<AttemptWithCategory>, x: AttemptWithCategory)
    requires Tracks(categoryMap, keyOrder, s)
    ensures Tracks(Bump(categoryMap, x), Extend(categoryMap, keyOrder, x), s + [x])
  {
    assert (s + [x])[..|s|] == s;
    var m2 := Bump(categoryMap, x);
    forall k | k in m2 ensures m2[k] == Entry(s + [x], k) {
      GroupingSnocAt(s, x, k);
    }
  }

  /** `Array.from(categoryMap.values()).map(...)`: the entries in insertion order, each with its mean. */
  function ReadOut(categoryMap: map<Id, CategoryData>, keyOrder: seq<Id>): (p: seq<CategoryPerformance>)
    requires forall c :: c in keyOrder ==> c in categoryMap && categoryMap[c].attempts > 0
    ensures |p| == |keyOrder|
  {
    seq(|keyOrder|, k requires 0 <= k < |keyOrder| =>
      var data := categoryMap[keyOrder[k]];
      CategoryPerformance(data.category, data.attempts, data.totalScore / data.attempts as real))
  }

  /** Reading out a map that tracks the attempts `s` gives their performance list. */
  lemma TracksGivesPerformance(categoryMap: map<Id, CategoryData>, keyOrder: seq<Id>, s: seq<AttemptWithCategory>)
    requires Tracks(categoryMap, keyOrder, s)
    ensures forall c :: c in keyOrder ==> c in categoryMap && categoryMap[c].attempts > 0
    ensures ReadOut(categoryMap, keyOrder) == Performance(s)
  {
    forall c | c in keyOrder ensures c in categoryMap && categoryMap[c].attempts > 0 {
      assert c in CategoryIds(s);
    }
    var p, q := ReadOut(categoryMap, keyOrder), Performance(s);
    forall k | 0 <= k < |p| ensures p[k] == q[k] {
      assert keyOrder[k] in CategoryIds(s);
    }
  }

  /** The body of the `forEach`: create the entry if absent, then count the attempt in it. */
  method CountAttempt(categoryMap: map<Id, CategoryData>, keyOrder: seq<Id>, attempt: AttemptWithCategory)
    returns (categoryMap': map<Id, CategoryData>, keyOrder': seq<Id>)
    ensures categoryMap' == Bump(categoryMap, attempt) && keyOrder' == Extend(categoryMap, keyOrder, attempt)
  {
    categoryMap', keyOrder' := categoryMap, keyOrder;
    var categoryId := attempt.category.id;
    if categoryId !in categoryMap' {
      categoryMap' := categoryMap'[categoryId := CategoryData(attempt.category, 0, 0.0)];
      keyOrder' := keyOrder' + [categoryId];
    }
    var data := categoryMap'[categoryId];
    categoryMap' := categoryMap'[categoryId := data.(attempts := data.attempts + 1, totalScore := data.totalScore + attempt.attempt.percentage)];
  }

  /**
   * The `forEach` that fills `categoryMap`; `keyOrder` is the map's
   * insertion order, which a JavaScript `Map` keeps.
   */
  method FillCategoryMap(attempts: seq<AttemptWithCategory>) returns (categoryMap: map<Id, CategoryData>, keyOrder: seq<Id>)
    ensures Tracks(categoryMap, keyOrder, attempts)
  {
    categoryMap := map[];
    keyOrder := [];
    var i := 0;
    while i < |attempts|
      invariant 0 <= i <= |attempts|
      invariant Tracks(categoryMap, keyOrder, attempts[..i])
    {
      var attempt := attempts[i];
      assert attempts[..i + 1] == attempts[..i] + [attempt];
      TracksStep(categoryMap, keyOrder, attempts[..i], attempt);
      categoryMap, keyOrder := CountAttempt(categoryMap, keyOrder, attempt);
      i := i + 1;
    }
    assert attempts[..|attempts|] == attempts;
  }

  /** The grouping of `getUserStats`: fill `categoryMap`, then `Array.from(categoryMap.values()).map(...)`. */
  method GroupByCategory(attempts: seq<AttemptWithCategory>) returns (categoryPerformance: seq<CategoryPerformance>)
    ensures categoryPerformance == Performance(attempts)
  {
    var categoryMap, keyOrder := FillCategoryMap(attempts);
    TracksGivesPerformance(categoryMap, keyOrder, attempts);
    categoryPerformance := ReadOut(categoryMap, keyOrder);
  }

  /** `getUserStats` over the attempt table (given in `completedAt`-descending order). */
  method GetUserStats(users: map<Id, User>, table: seq<AttemptWithCategory>, userId: Id) returns (r: Result<UserStats, AppError>)
    ensures userId !in users ==> r == Err(Fail(404, UserNotFound))
    ensures userId in users ==> (r.Ok? &&
      var s, st := CompletedBy(table, userId), r.value;
      st.totalAttempts == |s| &&
      st.totalQuizzes == |set q | q in QuizIdsOf(s)| && st.totalQuizzes <= st.totalAttempts &&
      st.averageScore == (if |s| > 0 then SumPct(s) / |s| as real else 0.0) &&
      st.bestScore == (if |s| > 0 then MaxPct(s) else 0.0) &&
      (forall i :: 0 <= i < |s| ==> s[i].attempt.percentage <= st.bestScore) &&
      st.recentAttempts == s[..Min(10, |s|)] &&
      st.categoryPerformance == Performance(s))
  {
    if userId !in users {
      return Err(Fail(404, UserNotFound));
    }
    var attempts := CompletedBy(table, userId);

    var totalAttempts := |attempts|;
    var quizIds := set q | q in QuizIdsOf(attempts);
    SetOfSeqSize(QuizIdsOf(attempts));
    var totalQuizzes := |quizIds|;
    var averageScore := if totalAttempts > 0 then SumPct(attempts) / totalAttempts as real else 0.0;
    var bestScore := if totalAttempts > 0 then MaxPct(attempts) else 0.0;
    var categoryPerformance := GroupByCategory(attempts);

    r := Ok(UserStats(totalAttempts, totalQuizzes, averageScore, bestScore,
                      attempts[..Min(10, |attempts|)], categoryPerformance));
  }

  /** `recentAttempts` are the newest completed attempts: none left out is newer than one kept. */
  lemma RecentAttemptsAreNewest(table: seq<AttemptWithCategory>, userId: Id)
    requires NewestFirst(table)
    ensures var s := CompletedBy(table, userId);
      var recent := s[..Min(10, |s|)];
      |recent| == Min(10, |s|) &&
      forall i, j :: 0 <= i < |recent| <= j < |s| ==> recent[i].attempt.completedAt.value >= s[j].attempt.completedAt.value
  {
    CompletedByStaysNewestFirst(table, userId);
  }

  /** With no completed attempts every figure is 0 and both lists are empty. */
  lemma {:induction false} NoAttemptsGivesZeros(table: seq<AttemptWithCategory>, userId: Id)
    requires forall i :: 0 <= i < |table| ==> table[i].attempt.userId != userId || table[i].attempt.completedAt.None?
    ensures CompletedBy(table, userId) == []
    ensures Performance(CompletedBy(table, userId)) == []
  {
    if table != [] {
      NoAttemptsGivesZeros(table[..|table| - 1], userId);
    }
  }
}
