/** The per-category entry widget. It holds five pieces of local state that its
    event handlers update in place; what it hands back to the dashboard goes
    through two callbacks (`setMeals`, `onRename`), which the methods below
    return as values instead of calling. */
module MealBlockWidget {
  import opened Wrappers
  import opened MealPlan

  /** What a submission hands to `setMeals`: nothing unless both the item and
      the quantity are non-empty, else the current entries with the new one last. */
  function SubmittedMeals(meals: seq<Meal>, item: string, quantity: string): Option<seq<Meal>>
  {
    if item != "" && quantity != "" then Some(meals + [Meal(item, quantity)]) else None
  }

  class MealBlock {
    // properties handed in by the dashboard on every render
    var title: string
    var meals: seq<Meal>
    // local state of the widget
    var newItem: string
    var newQuantity: string
    var isEditing: bool
    var editedTitle: string
    var isCustom: bool

    /** First render: empty inputs, predefined-option mode, not editing, and the
        edit buffer primed with the title. */
    constructor (title: string, meals: seq<Meal>)
      ensures this.title == title && this.meals == meals
      ensures newItem == "" && newQuantity == "" && !isCustom
      ensures !isEditing && editedTitle == title
    {
      this.title := title;
      this.meals := meals;
      newItem := "";
      newQuantity := "";
      isEditing := false;
      editedTitle := title;
      isCustom := false;
    }

    /** A later render with new properties: the local state survives, and the
        edit buffer is NOT re-primed from the new title. */
    method ReceiveProps(title: string, meals: seq<Meal>)
      modifies this
      ensures this.title == title && this.meals == meals
      ensures newItem == old(newItem) && newQuantity == old(newQuantity) && isCustom == old(isCustom)
      ensures isEditing == old(isEditing) && editedTitle == old(editedTitle)
    {
      this.title := title;
      this.meals := meals;
    }

    /** The item select or the custom item input changes. */
    method SetNewItem(item: string)
      modifies this`newItem
      ensures newItem == item
    {
      newItem := item;
    }

    /** The quantity input changes. */
    method SetNewQuantity(quantity: string)
      modifies this`newQuantity
      ensures newQuantity == quantity
    {
      newQuantity := quantity;
    }

    /** The title input changes while editing. */
    method SetEditedTitle(text: string)
      modifies this`editedTitle
      ensures editedTitle == text
    {
      editedTitle := text;
    }

    /** The edit button: show the title input with the buffer as it was. */
    method StartEditing()
      modifies this`isEditing
      ensures isEditing
    {
      isEditing := true;
    }

    /** The cancel button: hide the title input without committing the buffer. */
    method CancelEditing()
      modifies this`isEditing
      ensures !isEditing
    {
      isEditing := false;
    }

    /** The mode toggle: flips between predefined options and free text; the
        typed item and quantity stay as they are. */
    method ToggleCustom()
      modifies this`isCustom
      ensures isCustom == !old(isCustom)
    {
      isCustom := !isCustom;
    }

    /** `addMeal`: when both inputs are non-empty, hand the entries with the new
        one appended to `setMeals`, clear both inputs and return to predefined
        mode; otherwise do nothing at all. Duplicate entries are not detected. */
    method AddMeal() returns (submitted: Option<seq<Meal>>)
      modifies this`newItem, this`newQuantity, this`isCustom
      ensures submitted == SubmittedMeals(meals, old(newItem), old(newQuantity))
      ensures submitted.Some? <==> old(newItem) != "" && old(newQuantity) != ""
      ensures submitted.Some? ==> submitted.value == meals + [Meal(old(newItem), old(newQuantity))]
      ensures submitted.Some? ==> newItem == "" && newQuantity == "" && !isCustom
      ensures submitted.None? ==>
        newItem == old(newItem) && newQuantity == old(newQuantity) && isCustom == old(isCustom)
    {
      if newItem != "" && newQuantity != "" {
        submitted := Some(meals + [Meal(newItem, newQuantity)]);
        newItem := "";
        newQuantity := "";
        isCustom := false;
      } else {
        submitted := None;
      }
    }

    /** `handleRename`: hand the edit buffer, whatever it holds, to `onRename`
        and leave editing mode. */
    method HandleRename() returns (renamedTo: string)
      modifies this`isEditing
      ensures renamedTo == editedTitle
      ensures !isEditing
    {
      renamedTo := editedTitle;
      isEditing := false;
    }
  }
}
