/**
 * The relational store the controllers read and write, as in-memory tables:
 * one map per table keyed by primary key, a unique index on usernames, and
 * the answer rows in insertion order.
 */
module Store {
  import opened Common
  import opened Types

  /** The unique index on `User.username` names exactly the users, each under its own name. */
  predicate UsernameIndexed(users: map<Id, User>, index: map<string, Id>) {
    (forall id :: id in users ==> users[id].username in index && index[users[id].username] == id) &&
    (forall name :: name in index ==> index[name] in users && users[index[name]].username == name)
  }

  /** With the index in place, no two users share a username. */
  lemma IndexedNamesAreUnique(users: map<Id, User>, index: map<string, Id>, a: Id, b: Id)
    requires UsernameIndexed(users, index)
    requires a in users && b in users && users[a].username == users[b].username
    ensures a == b
  {
    assert index[users[a].username] == a;
  }

  /** Adding a user under a fresh id and a fresh name keeps the index in step. */
  lemma IndexedAfterInsert(users: map<Id, User>, index: map<string, Id>, u: User)
    requires UsernameIndexed(users, index)
    requires u.id !in users && u.username !in index
    ensures UsernameIndexed(users[u.id := u], index[u.username := u.id])
  {
  }

  class Database {
    var users: map<Id, User>
    /** The unique index on `User.username`. */
    var usernameIndex: map<string, Id>
    var categories: map<Id, Category>
    var quizzes: map<Id, Quiz>
    var questions: map<Id, Question>
    var attempts: map<Id, Attempt>
    var answers: seq<AnswerRow>

    /** Every row is stored under its own id, and the username index matches the user table. */
    ghost predicate Valid()
      reads this
    {
      (forall id :: id in users ==> users[id].id == id) &&
      UsernameIndexed(users, usernameIndex) &&
      (forall id :: id in categories ==> categories[id].id == id) &&
      (forall id :: id in quizzes ==> quizzes[id].id == id) &&
      (forall id :: id in questions ==> questions[id].id == id) &&
      (forall id :: id in attempts ==> attempts[id].id == id)
    }

    constructor ()
      ensures Valid()
      ensures users == map[] && usernameIndex == map[] && categories == map[] && quizzes == map[]
      ensures questions == map[] && attempts == map[] && answers == []
    {
      users, usernameIndex, categories, quizzes := map[], map[], map[], map[];
      questions, attempts, answers := map[], map[], [];
    }
  }
}
