/** The dashboard page: the whole plan (the category store and the two fixed
    lists, snacks and supplements) and the way each rendered entry widget is
    wired to it. A category widget updates, renames and removes by the id of
    the category it was rendered for; the two fixed-list widgets replace their
    own list and ignore remove and rename. */
module Dashboard {
  import opened Wrappers
  import opened MealPlan
  import opened MealBlockWidget

  datatype Plan = Plan(categories: seq<Category>, snacks: seq<Meal>, supplements: seq<Meal>)

  /** The state the page starts in. */
  function InitialPlan(): Plan
  {
    Plan(InitialCategories(), [], [])
  }

  /** The widgets on the page: one per category, in store order, then the
      snacks widget and the supplements widget. */
  datatype Block = CategoryBlock(index: nat) | SnacksBlock | SupplementsBlock

  /** A category widget exists only for a category of the current store. */
  predicate IsRendered(plan: Plan, b: Block)
  {
    b.CategoryBlock? ==> b.index < |plan.categories|
  }

  /** The title a widget shows. */
  function BlockTitle(plan: Plan, b: Block): string
    requires IsRendered(plan, b)
  {
    match b
    case CategoryBlock(i) => plan.categories[i].title
    case SnacksBlock => "Collations"
    case SupplementsBlock => "Suppléments"
  }

  /** The entries a widget shows and appends to. */
  function BlockMeals(plan: Plan, b: Block): seq<Meal>
    requires IsRendered(plan, b)
  {
    match b
    case CategoryBlock(i) => plan.categories[i].meals
    case SnacksBlock => plan.snacks
    case SupplementsBlock => plan.supplements
  }

  /** The widget's `setMeals` callback. */
  function SetMeals(plan: Plan, b: Block, newMeals: seq<Meal>): Plan
    requires IsRendered(plan, b)
  {
    match b
    case CategoryBlock(i) =>
      plan.(categories := UpdateCategoryMeals(plan.categories, plan.categories[i].id, newMeals))
    case SnacksBlock => plan.(snacks := newMeals)
    case SupplementsBlock => plan.(supplements := newMeals)
  }

  /** The widget's `onRemove` callback; the fixed lists pass a no-op. */
  function OnRemove(plan: Plan, b: Block): Plan
    requires IsRendered(plan, b)
  {
    match b
    case CategoryBlock(i) => plan.(categories := RemoveCategory(plan.categories, plan.categories[i].id))
    case _ => plan
  }

  /** The widget's `onRename` callback; the fixed lists pass a no-op. */
  function OnRename(plan: Plan, b: Block, newTitle: string): Plan
    requires IsRendered(plan, b)
  {
    match b
    case CategoryBlock(i) =>
      plan.(categories := RenameCategory(plan.categories, plan.categories[i].id, newTitle))
    case _ => plan
  }

  /** The "add a category" button, pressed at clock reading `now`. */
  function OnAddCategory(plan: Plan, now: nat): Plan
  {
    plan.(categories := AddCategory(plan.categories, now))
  }

  /** A submission in widget `b` with the given inputs, as it reaches the plan. */
  function AppendEntry(plan: Plan, b: Block, item: string, quantity: string): Plan
    requires IsRendered(plan, b)
  {
    match SubmittedMeals(BlockMeals(plan, b), item, quantity)
    case None => plan
    case Some(newMeals) => SetMeals(plan, b, newMeals)
  }

  // ---------------------------------------------------------------------------

  /** The page starts with breakfast, lunch and dinner, in that order, all
      empty, and with empty snacks and supplements. */
  lemma InitialPlanShape()
    ensures Ids(InitialPlan().categories) == ["breakfast", "lunch", "dinner"]
    ensures Titles(InitialPlan().categories) == ["Petit Déjeuner", "Déjeuner", "Dîner"]
    ensures MealLists(InitialPlan().categories) == [[], [], []]
    ensures InitialPlan().snacks == [] && InitialPlan().supplements == []
  {
  }

  /** Remove and rename on the snacks or supplements widget change nothing. */
  lemma FixedListsIgnoreRemoveAndRename(plan: Plan, b: Block, newTitle: string)
    requires b == SnacksBlock || b == SupplementsBlock
    ensures OnRemove(plan, b) == plan
    ensures OnRename(plan, b, newTitle) == plan
  {
  }

  /** A submission with an empty item or an empty quantity leaves the plan as it was. */
  lemma AppendEntryRejectsEmpty(plan: Plan, b: Block, item: string, quantity: string)
    requires IsRendered(plan, b)
    requires item == "" || quantity == ""
    ensures AppendEntry(plan, b, item, quantity) == plan
  {
  }

  /** A complete submission in a category widget appends the entry to that
      category and keeps the store's shape: same length, ids and titles, and
      untouched fixed lists. Because the update goes by id, every category that
      shares the id receives the same list; all others keep theirs. */
  lemma AppendEntryToCategory(plan: Plan, i: nat, item: string, quantity: string)
    requires i < |plan.categories|
    requires item != "" && quantity != ""
    ensures var after := AppendEntry(plan, CategoryBlock(i), item, quantity);
      && Ids(after.categories) == Ids(plan.categories)
      && Titles(after.categories) == Titles(plan.categories)
      && after.snacks == plan.snacks && after.supplements == plan.supplements
      && after.categories[i].meals == plan.categories[i].meals + [Meal(item, quantity)]
      && forall j :: 0 <= j < |plan.categories| ==>
           after.categories[j].meals
             == if plan.categories[j].id == plan.categories[i].id
                then plan.categories[i].meals + [Meal(item, quantity)]
                else plan.categories[j].meals
  {
  }

  /** A complete submission in a fixed-list widget appends the entry to that
      list and leaves the categories and the other list alone. */
  lemma AppendEntryToFixedList(plan: Plan, b: Block, item: string, quantity: string)
    requires b == SnacksBlock || b == SupplementsBlock
    requires item != "" && quantity != ""
    ensures var after := AppendEntry(plan, b, item, quantity);
      && after.categories == plan.categories
      && BlockMeals(after, b) == BlockMeals(plan, b) + [Meal(item, quantity)]
      && (b == SnacksBlock ==> after.supplements == plan.supplements)
      && (b == SupplementsBlock ==> after.snacks == plan.snacks)
  {
  }

  /** Submitting twice with the same inputs stores the entry twice. */
  lemma AppendEntryKeepsDuplicates(plan: Plan, b: Block, item: string, quantity: string)
    requires IsRendered(plan, b)
    requires item != "" && quantity != ""
    ensures var twice := AppendEntry(AppendEntry(plan, b, item, quantity), b, item, quantity);
      BlockMeals(twice, b) == BlockMeals(plan, b) + [Meal(item, quantity), Meal(item, quantity)]
  {
  }

  /** The widget of a just-added category shows the default title and no
      entries, and its remove button gives back the plan as it was, provided no
      earlier category had the fresh id. */
  lemma NewCategoryWidget(plan: Plan, now: nat)
    requires FreshCategoryId(now) !in Ids(plan.categories)
    ensures var added := OnAddCategory(plan, now);
      var b := CategoryBlock(|plan.categories|);
      && IsRendered(added, b)
      && BlockTitle(added, b) == "Nouveau Repas"
      && BlockMeals(added, b) == []
      && OnRemove(added, b) == plan
  {
    RemoveUndoesAdd(plan.categories, now);
  }

  // ---------------------------------------------------------------------------
  // Driving a widget object against the plan

  /** The add button of widget `block`, rendered as `b`: the widget's handler
      runs and whatever it hands to `setMeals` reaches the plan. */
  method SubmitEntry(plan: Plan, b: Block, block: MealBlock) returns (after: Plan)
    requires IsRendered(plan, b)
    requires block.meals == BlockMeals(plan, b)
    modifies block`newItem, block`newQuantity, block`isCustom
    ensures after == AppendEntry(plan, b, old(block.newItem), old(block.newQuantity))
    ensures old(block.newItem) != "" && old(block.newQuantity) != "" ==>
      block.newItem == "" && block.newQuantity == "" && !block.isCustom
    ensures old(block.newItem) == "" || old(block.newQuantity) == "" ==>
      block.newItem == old(block.newItem) && block.newQuantity == old(block.newQuantity)
      && block.isCustom == old(block.isCustom)
  {
    var submitted := block.AddMeal();
    match submitted
    case None =>
      after := plan;
    case Some(newMeals) =>
      after := SetMeals(plan, b, newMeals);
  }

  /** The confirm button of widget `block`, rendered as `b`: the edit buffer
      reaches `onRename` and editing ends. */
  method CommitRename(plan: Plan, b: Block, block: MealBlock) returns (after: Plan)
    requires IsRendered(plan, b)
    modifies block`isEditing
    ensures after == OnRename(plan, b, block.editedTitle)
    ensures !block.isEditing
  {
    var newTitle := block.HandleRename();
    after := OnRename(plan, b, newTitle);
  }
}
