/** The manager's quiz list (client/src/components/QuizList.tsx). */
module QuizList {
  import opened Common
  import opened Types

  /** `getDifficultyColor`: an exact, case-sensitive match on the three known levels. */
  function DifficultyColor(difficulty: string): (b: BadgeVariant)
    ensures difficulty == "beginner" ==> b == Success
    ensures difficulty == "intermediate" ==> b == Warning
    ensures difficulty == "advanced" ==> b == Danger
    ensures b == Default <==> difficulty !in {"beginner", "intermediate", "advanced"}
  {
    match difficulty
    case "beginner" => Success
    case "intermediate" => Warning
    case "advanced" => Danger
    case _ => Default
  }

  /** No level is shown with the info variant. */
  lemma DifficultyNeverInfo(difficulty: string)
    ensures DifficultyColor(difficulty) != Info
    ensures DifficultyColor("Beginner") == Default
  {
  }

  /** `categories.find(cat => cat.id === categoryId)`: the first category with that id. */
  function FindCategory(categories: seq<Category>, id: Id): (r: Option<Category>)
    ensures r.None? <==> forall i :: 0 <= i < |categories| ==> categories[i].id != id
  {
    if categories == [] then None
    else if categories[0].id == id then Some(categories[0])
    else FindCategory(categories[1..], id)
  }

  /** `find` returns the category at the first index whose id matches. */
  lemma {:induction false} FindCategoryIsFirst(categories: seq<Category>, id: Id, k: nat)
    requires k < |categories| && categories[k].id == id
    requires forall i :: 0 <= i < k ==> categories[i].id != id
    ensures FindCategory(categories, id) == Some(categories[k])
  {
    if k > 0 {
      FindCategoryIsFirst(categories[1..], id, k - 1);
    }
  }

  /** `getCategoryName`: icon and name of the category, or `Unknown Category`. */
  function CategoryName(categories: seq<Category>, id: Id): (name: string)
    ensures FindCategory(categories, id).None? ==> name == "Unknown Category"
    ensures FindCategory(categories, id).Some? ==>
      var c := FindCategory(categories, id).value;
      name == c.icon + " " + c.name
  {
    match FindCategory(categories, id)
    case Some(c) => c.icon + " " + c.name
    case None => "Unknown Category"
  }

  /** `filteredQuizzes`: the quizzes of the filter category, or all of them without a filter. */
  function FilteredQuizzes(quizzes: seq<Quiz>, categoryFilter: Option<string>): (r: seq<Quiz>)
    ensures !SomeTruthy(categoryFilter) ==> r == quizzes
    ensures SomeTruthy(categoryFilter) ==> r == InCategory(quizzes, categoryFilter.value)
  {
    ByCategoryFilter(quizzes, categoryFilter)
  }

  /** The filter keeps the original order: filtering a concatenation filters each part. */
  lemma FilterKeepsOrder(a: seq<Quiz>, b: seq<Quiz>, categoryFilter: Option<string>)
    ensures FilteredQuizzes(a + b, categoryFilter) == FilteredQuizzes(a, categoryFilter) + FilteredQuizzes(b, categoryFilter)
  {
    if SomeTruthy(categoryFilter) {
      InCategoryConcat(a, b, categoryFilter.value);
    }
  }

  /** Filtering what is already filtered changes nothing. */
  lemma FilterIdempotent(quizzes: seq<Quiz>, categoryFilter: Option<string>)
    ensures FilteredQuizzes(FilteredQuizzes(quizzes, categoryFilter), categoryFilter) == FilteredQuizzes(quizzes, categoryFilter)
  {
    if SomeTruthy(categoryFilter) {
      InCategoryIdempotent(quizzes, categoryFilter.value);
    }
  }
}
