/** The category store of the meal-plan dashboard: an ordered sequence of
    categories, each holding an ordered list of (item, quantity) entries, and the
    four operations that replace the sequence with a new one. Category ids are
    whatever the operations produce; nothing here assumes they are unique. */
module MealPlan {
  import opened Seqs
  import Text

  /** One entry: an item and a free-form quantity text. */
  datatype Meal = Meal(item: string, quantity: string)

  datatype Category = Category(id: string, title: string, meals: seq<Meal>)

  const NewCategoryTitle: string := "Nouveau Repas"

  /** The three categories the dashboard starts with, all without entries. */
  function InitialCategories(): seq<Category>
  {
    [ Category("breakfast", "Petit Déjeuner", []),
      Category("lunch", "Déjeuner", []),
      Category("dinner", "Dîner", []) ]
  }

  function Ids(cats: seq<Category>): seq<string> { Map(cats, (c: Category) => c.id) }

  function Titles(cats: seq<Category>): seq<string> { Map(cats, (c: Category) => c.title) }

  function MealLists(cats: seq<Category>): seq<seq<Meal>> { Map(cats, (c: Category) => c.meals) }

  /** The id a category created at clock reading `now` (milliseconds) receives. */
  function FreshCategoryId(now: nat): string
  {
    "category-" + Text.NatToString(now)
  }

  /** `addCategory`: append one new, empty category titled "Nouveau Repas". */
  function AddCategory(cats: seq<Category>, now: nat): seq<Category>
  {
    cats + [Category(FreshCategoryId(now), NewCategoryTitle, [])]
  }

  predicate HasOtherId(id: string, c: Category) { c.id != id }

  predicate HasId(id: string, c: Category) { c.id == id }

  /** `removeCategory`: keep the categories whose id differs from `id`. */
  function RemoveCategory(cats: seq<Category>, id: string): seq<Category>
  {
    Filter(cats, c => HasOtherId(id, c))
  }

  /** `renameCategory`: every category with that id gets the new title. */
  function RenameCategory(cats: seq<Category>, id: string, newTitle: string): seq<Category>
  {
    Map(cats, (c: Category) => if c.id == id then c.(title := newTitle) else c)
  }

  /** `updateCategoryMeals`: every category with that id gets the new entry list. */
  function UpdateCategoryMeals(cats: seq<Category>, id: string, newMeals: seq<Meal>): seq<Category>
  {
    Map(cats, (c: Category) => if c.id == id then c.(meals := newMeals) else c)
  }

  /** How many categories carry `id`. */
  function CountId(cats: seq<Category>, id: string): nat
  {
    |Filter(cats, c => HasId(id, c))|
  }

  // ---------------------------------------------------------------------------
  // addCategory

  /** Adding keeps every earlier category in place and puts exactly one new,
      empty, default-titled category last. */
  lemma AddCategoryAppendsOne(cats: seq<Category>, now: nat)
    ensures |AddCategory(cats, now)| == |cats| + 1
    ensures AddCategory(cats, now)[..|cats|] == cats
    ensures AddCategory(cats, now)[|cats|].id == FreshCategoryId(now)
    ensures AddCategory(cats, now)[|cats|].title == "Nouveau Repas"
    ensures AddCategory(cats, now)[|cats|].meals == []
  {
  }

  /** Categories created at different instants get different ids. */
  lemma FreshIdsDiffer(now1: nat, now2: nat)
    requires now1 != now2
    ensures FreshCategoryId(now1) != FreshCategoryId(now2)
  {
    var p := "category-";
    if FreshCategoryId(now1) == FreshCategoryId(now2) {
      assert Text.NatToString(now1) == FreshCategoryId(now1)[|p|..];
      assert Text.NatToString(now2) == FreshCategoryId(now2)[|p|..];
      Text.NatToStringInjective(now1, now2);
    }
  }

  /** Two categories created within the same millisecond share their id, and
      removing that id then deletes both. */
  lemma SameInstantIdsCollide(cats: seq<Category>, now: nat)
    ensures var twice := AddCategory(AddCategory(cats, now), now);
      twice[|cats|].id == twice[|cats| + 1].id
      && RemoveCategory(twice, FreshCategoryId(now)) == RemoveCategory(cats, FreshCategoryId(now))
  {
    var id := FreshCategoryId(now);
    var created := Category(id, NewCategoryTitle, []);
    assert AddCategory(AddCategory(cats, now), now) == cats + [created, created];
    FilterConcat(cats, [created, created], c => HasOtherId(id, c));
    FilterNone([created, created], c => HasOtherId(id, c));
  }

  /** Removing the id of a category just added undoes the addition when no
      earlier category had that id. */
  lemma RemoveUndoesAdd(cats: seq<Category>, now: nat)
    requires FreshCategoryId(now) !in Ids(cats)
    ensures RemoveCategory(AddCategory(cats, now), FreshCategoryId(now)) == cats
  {
    var id := FreshCategoryId(now);
    var created := Category(id, NewCategoryTitle, []);
    assert forall i :: 0 <= i < |cats| ==> Ids(cats)[i] == cats[i].id;
    FilterAll(cats, c => HasOtherId(id, c));
    FilterConcat(cats, [created], c => HasOtherId(id, c));
  }

  // ---------------------------------------------------------------------------
  // removeCategory

  /** Removal deletes every category with that id and nothing else; it keeps
      the length accounted for, and an absent id leaves the store identical. */
  lemma RemoveCategorySpec(cats: seq<Category>, id: string)
    ensures forall c :: c in RemoveCategory(cats, id) <==> c in cats && c.id != id
    ensures id !in Ids(RemoveCategory(cats, id))
    ensures |RemoveCategory(cats, id)| + CountId(cats, id) == |cats|
    ensures id !in Ids(cats) ==> RemoveCategory(cats, id) == cats
  {
    var r := RemoveCategory(cats, id);
    forall c | c in cats && c.id != id
      ensures c in r
    {
      FilterKeeps(cats, c => HasOtherId(id, c), c);
    }
    assert forall i :: 0 <= i < |r| ==> Ids(r)[i] == r[i].id && r[i] in r;
    FilterSplitsLength(cats, c => HasOtherId(id, c), c => HasId(id, c));
    if id !in Ids(cats) {
      assert forall i :: 0 <= i < |cats| ==> Ids(cats)[i] == cats[i].id;
      FilterAll(cats, c => HasOtherId(id, c));
    }
  }

  /** Removal preserves relative order: it acts on each part of a split
      sequence separately and keeps the parts in order. */
  lemma RemoveCategoryKeepsOrder(a: seq<Category>, b: seq<Category>, id: string)
    ensures RemoveCategory(a + b, id) == RemoveCategory(a, id) + RemoveCategory(b, id)
  {
    FilterConcat(a, b, c => HasOtherId(id, c));
  }

  /** Removing the same id twice is the same as removing it once. */
  lemma RemoveCategoryIdempotent(cats: seq<Category>, id: string)
    ensures RemoveCategory(RemoveCategory(cats, id), id) == RemoveCategory(cats, id)
  {
    var r := RemoveCategory(cats, id);
    assert forall i :: 0 <= i < |r| ==> r[i] in r;
    FilterAll(r, c => HasOtherId(id, c));
  }

  /** Removals of two ids may be done in either order. */
  lemma RemoveCategoryCommutes(cats: seq<Category>, id1: string, id2: string)
    ensures RemoveCategory(RemoveCategory(cats, id1), id2)
         == RemoveCategory(RemoveCategory(cats, id2), id1)
  {
    FilterCommutes(cats, c => HasOtherId(id1, c), c => HasOtherId(id2, c));
  }

  // ---------------------------------------------------------------------------
  // renameCategory

  /** Renaming keeps the length, the order, every id and every entry list;
      exactly the titles of the categories with that id become the new title
      (an empty title included). */
  lemma RenameCategoryFrame(cats: seq<Category>, id: string, newTitle: string)
    ensures Ids(RenameCategory(cats, id, newTitle)) == Ids(cats)
    ensures MealLists(RenameCategory(cats, id, newTitle)) == MealLists(cats)
    ensures forall i :: 0 <= i < |cats| ==>
      Titles(RenameCategory(cats, id, newTitle))[i]
        == if cats[i].id == id then newTitle else cats[i].title
  {
  }

  /** Renaming an id no category carries changes nothing. */
  lemma RenameAbsentIsIdentity(cats: seq<Category>, id: string, newTitle: string)
    requires id !in Ids(cats)
    ensures RenameCategory(cats, id, newTitle) == cats
  {
    assert forall i :: 0 <= i < |cats| ==> Ids(cats)[i] == cats[i].id;
  }

  /** Of two renames of the same id, the last one wins. */
  lemma RenameLastWins(cats: seq<Category>, id: string, t1: string, t2: string)
    ensures RenameCategory(RenameCategory(cats, id, t1), id, t2) == RenameCategory(cats, id, t2)
  {
  }

  /** Renaming and removing commute, whatever the two ids. */
  lemma {:induction false} RenameRemoveCommute(cats: seq<Category>, id: string, newTitle: string, gone: string)
    ensures RemoveCategory(RenameCategory(cats, id, newTitle), gone)
         == RenameCategory(RemoveCategory(cats, gone), id, newTitle)
  {
    if cats != [] {
      var head := [cats[0]];
      var tail := cats[1..];
      assert cats == head + tail;
      assert RenameCategory(cats, id, newTitle)
          == RenameCategory(head, id, newTitle) + RenameCategory(tail, id, newTitle);
      RemoveCategoryKeepsOrder(RenameCategory(head, id, newTitle), RenameCategory(tail, id, newTitle), gone);
      RemoveCategoryKeepsOrder(head, tail, gone);
      RenameRemoveCommute(tail, id, newTitle, gone);
      assert RenameCategory(RemoveCategory(head, gone) + RemoveCategory(tail, gone), id, newTitle)
          == RenameCategory(RemoveCategory(head, gone), id, newTitle)
           + RenameCategory(RemoveCategory(tail, gone), id, newTitle);
    }
  }

  // ---------------------------------------------------------------------------
  // updateCategoryMeals

  /** Replacing entries keeps the length, the order, every id and every title;
      exactly the categories with that id receive the new entry list. */
  lemma UpdateCategoryMealsFrame(cats: seq<Category>, id: string, newMeals: seq<Meal>)
    ensures Ids(UpdateCategoryMeals(cats, id, newMeals)) == Ids(cats)
    ensures Titles(UpdateCategoryMeals(cats, id, newMeals)) == Titles(cats)
    ensures forall i :: 0 <= i < |cats| ==>
      MealLists(UpdateCategoryMeals(cats, id, newMeals))[i]
        == if cats[i].id == id then newMeals else cats[i].meals
  {
  }

  /** Replacing entries and renaming touch different fields, so they commute. */
  lemma UpdateMealsRenameCommute(cats: seq<Category>, id1: string, newMeals: seq<Meal>, id2: string, newTitle: string)
    ensures RenameCategory(UpdateCategoryMeals(cats, id1, newMeals), id2, newTitle)
         == UpdateCategoryMeals(RenameCategory(cats, id2, newTitle), id1, newMeals)
  {
  }
}
