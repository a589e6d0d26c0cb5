# Meal-plan dashboard, modelled in Dafny

This project models the state logic of the meal-planning page of a client-side
nutrition app. The page holds an ordered store of meal categories. Each category
has an id, a title and an ordered list of entries. An entry is an item and a
free-form quantity text. Next to the store sit two fixed lists: snacks
("Collations") and supplements ("Suppléments"). Each list on the page is shown
by an entry widget. The widget has an item input (either a predefined select or
free text), a quantity input, a mode toggle and a title editor. From the state
the page derives two views: a plain-text summary copied to the clipboard, and
the sections of an exported PDF.

Modules, one file each:

- `Seqs` (`seqs.dfy`) holds `filter` and `map` over sequences, with the facts
  about `filter` the rest relies on.
- `Text` (`text.dfy`) covers a non-negative integer interpolated into a template
  string (decimal digits, with parse-back), and `join`/`split` on a separator.
- `MealPlan` (`meal_plan.dfy`) holds the entities `Meal` and `Category`, the
  initial categories and the four store operations. The operations are pure
  functions, as in the source: each returns a new sequence.
- `MealBlockWidget` (`meal_block.dfy`) is the entry widget. It is a class whose
  methods update its local state in place. What the widget hands to its
  `setMeals` and `onRename` callbacks is returned as a value.
- `Dashboard` (`dashboard.dfy`) holds the whole plan and the wiring of each
  widget to it. A category widget acts by the id of its category. The two
  fixed-list widgets replace their own list and ignore remove and rename.
- `Summary` (`summary.dfy`) is the clipboard summary text.
- `Export` (`export.dfy`) is the choice and order of the PDF sections. It is the
  loop that builds them, proved against a specification function.
- `Wrappers` (`wrappers.dfy`) is `Option`.

The clock read that names a new category becomes a parameter `now`. The new
category's id is `"category-"` followed by the decimal digits of `now`. Ids
come from a millisecond clock and are never checked for uniqueness, so the
model does not assume they are unique. Two categories created in the same
millisecond share an id. Every operation that goes by id then acts on both:
in particular `removeCategory`'s `filter` deletes every category with the
given id, not just the first.

## Model

| member | source | states |
|---|---|---|
| `Dashboard.InitialPlanShape` | src/pages/MealPlanDashboard.tsx:127-133 | The page starts with exactly the categories breakfast, lunch and dinner, in that order. Their titles are "Petit Déjeuner", "Déjeuner" and "Dîner", and none has entries. Snacks and supplements start empty. |
| `MealPlan.AddCategoryAppendsOne` | src/pages/MealPlanDashboard.tsx:140-144 | Adding a category gives the old store plus exactly one new last category. Every earlier category stays in place. The new one has the fresh id, the title "Nouveau Repas" and no entries. |
| `MealPlan.FreshIdsDiffer` | src/pages/MealPlanDashboard.tsx:141 | Categories created at different clock readings get different ids. This rests on the decimal rendering being injective. |
| `MealPlan.SameInstantIdsCollide` | src/pages/MealPlanDashboard.tsx:140-148 | Two categories added at the same clock reading share an id. Removing that id deletes both. |
| `MealPlan.RemoveUndoesAdd` | src/pages/MealPlanDashboard.tsx:140-148 | Removing the id of a just-added category restores the previous store, provided no earlier category had that id. |
| `MealPlan.RemoveCategorySpec` | src/pages/MealPlanDashboard.tsx:146-148 | After a removal, a category is present exactly when it was present before and has a different id. No remaining category has the removed id. The length drops by the number of categories that had it. An absent id leaves the store identical. |
| `MealPlan.RemoveCategoryKeepsOrder` | src/pages/MealPlanDashboard.tsx:146-148 | Removal acts on each part of a split store separately and keeps the parts in order, so relative order is preserved. |
| `MealPlan.RemoveCategoryIdempotent` | src/pages/MealPlanDashboard.tsx:146-148 | Removing the same id a second time changes nothing. |
| `MealPlan.RemoveCategoryCommutes` | src/pages/MealPlanDashboard.tsx:146-148 | Removals of two ids give the same store in either order. |
| `MealPlan.RenameCategoryFrame` | src/pages/MealPlanDashboard.tsx:150-154 | Renaming keeps the length, the order, every id and every entry list. Exactly the categories with the given id take the new title, including an empty title. |
| `MealPlan.RenameAbsentIsIdentity` | src/pages/MealPlanDashboard.tsx:150-154 | Renaming an id that no category carries leaves the store identical. |
| `MealPlan.RenameLastWins` | src/pages/MealPlanDashboard.tsx:150-154 | Of two renames of the same id, only the last one is visible. |
| `MealPlan.RenameRemoveCommute` | src/pages/MealPlanDashboard.tsx:146-154 | Renaming and removing give the same store in either order, whatever the two ids. |
| `MealPlan.UpdateCategoryMealsFrame` | src/pages/MealPlanDashboard.tsx:156-160 | Replacing entries keeps the length, the order, every id and every title. Exactly the categories with the given id receive the new list. |
| `MealPlan.UpdateMealsRenameCommute` | src/pages/MealPlanDashboard.tsx:150-160 | Replacing entries and renaming give the same store in either order. |
| `MealBlockWidget.MealBlock.constructor` | src/pages/MealPlanDashboard.tsx:24-29 | On first render, both inputs are empty, the widget is in predefined-option mode and not editing, and the edit buffer holds the title. |
| `MealBlockWidget.MealBlock.ReceiveProps` | src/pages/MealPlanDashboard.tsx:24-29 | A re-render with new title and entries keeps all local state. The edit buffer is not re-primed from the new title. |
| `MealBlockWidget.MealBlock.SetNewItem` | src/pages/MealPlanDashboard.tsx:84-101 | The custom input and the select both set the typed item, and only it. |
| `MealBlockWidget.MealBlock.SetNewQuantity` | src/pages/MealPlanDashboard.tsx:103-108 | The quantity input sets the quantity, and only it. |
| `MealBlockWidget.MealBlock.SetEditedTitle` | src/pages/MealPlanDashboard.tsx:50-55 | The title input sets the edit buffer, and only it. |
| `MealBlockWidget.MealBlock.StartEditing` | src/pages/MealPlanDashboard.tsx:67 | The edit button enters editing mode and leaves the buffer as it was. |
| `MealBlockWidget.MealBlock.CancelEditing` | src/pages/MealPlanDashboard.tsx:59 | Cancel leaves editing mode without committing the buffer. |
| `MealBlockWidget.MealBlock.ToggleCustom` | src/pages/MealPlanDashboard.tsx:118 | The toggle flips custom mode. The typed item and quantity are untouched. |
| `MealBlockWidget.MealBlock.AddMeal` | src/pages/MealPlanDashboard.tsx:31-38 | If the item or the quantity is empty, nothing is handed on and no field changes. Otherwise the entries with the new entry last are handed on, both inputs become empty and predefined mode returns. |
| `MealBlockWidget.MealBlock.HandleRename` | src/pages/MealPlanDashboard.tsx:40-43 | The edit buffer, whatever it holds, is handed to the rename callback, and editing ends. |
| `Dashboard.AppendEntryRejectsEmpty` | src/pages/MealPlanDashboard.tsx:31-38 | A submission with an empty item or an empty quantity leaves the whole plan unchanged, in every widget. |
| `Dashboard.AppendEntryToCategory` | src/pages/MealPlanDashboard.tsx:307-317 | A complete submission in a category widget makes the new entry the last of that category's entries. Ids, titles and the fixed lists stay as they were. Every category sharing the id gets the same list, and all others keep theirs. |
| `Dashboard.AppendEntryToFixedList` | src/pages/MealPlanDashboard.tsx:319-334 | A complete submission in the snacks or supplements widget appends to that list only. The categories and the other list stay as they were. |
| `Dashboard.AppendEntryKeepsDuplicates` | src/pages/MealPlanDashboard.tsx:31-38 | Submitting the same entry twice stores it twice. |
| `Dashboard.FixedListsIgnoreRemoveAndRename` | src/pages/MealPlanDashboard.tsx:319-334 | Remove and rename on the snacks or supplements widget leave the plan unchanged. |
| `Dashboard.NewCategoryWidget` | src/pages/MealPlanDashboard.tsx:140-148 | The widget of a just-added category shows "Nouveau Repas" and no entries. Its remove button gives back the plan as it was, provided no earlier category had the fresh id. |
| `Dashboard.SubmitEntry` | src/pages/MealPlanDashboard.tsx:308-316 | Running a widget's add handler against the plan gives exactly the plan-level submission of its inputs before the call. A complete submission clears both inputs and restores predefined mode; an incomplete one leaves them. Nothing else in the widget changes. |
| `Dashboard.CommitRename` | src/pages/MealPlanDashboard.tsx:40-43 | Running a widget's rename handler renames by its category's id with the edit buffer, and ends editing. Nothing else in the widget changes. |
| `Text.NatToString` | src/pages/MealPlanDashboard.tsx:284 | An interpolated count is a non-empty digit string. It starts with `0` only when the count is zero. |
| `Text.ParseNatToString` | src/pages/MealPlanDashboard.tsx:284 | Reading back an interpolated count gives the count. |
| `Text.NatToStringParse` | src/pages/MealPlanDashboard.tsx:141 | Every digit string without a leading zero is the rendering of its own value. |
| `Text.SplitJoin` | src/pages/MealPlanDashboard.tsx:284 | Lines joined by a separator split back into the same lines, provided no line holds the separator. |
| `Summary.SummaryLineRoundTrip` | src/pages/MealPlanDashboard.tsx:284 | Each `"<title>: <n> items"` line reads back as exactly that category's title and entry count, whatever the title holds. |
| `Summary.SummaryHasOneLinePerCategory` | src/pages/MealPlanDashboard.tsx:284 | The summary has one line per category, in store order. Line `i` reads back as category `i`'s title and count. An empty store gives the empty text. |
| `Summary.ClipboardSummaryIgnoresFixedLists` | src/pages/MealPlanDashboard.tsx:284 | The clipboard summary is built from the categories alone: entries added to snacks or supplements leave it unchanged. |
| `Summary.SummaryAfterFirstEntry` | src/pages/MealPlanDashboard.tsx:284 | After "Riz"/"200g" is added to breakfast on the initial page, the summary is "Petit Déjeuner: 1 items\nDéjeuner: 0 items\nDîner: 0 items". |
| `Export.GeneratePdfContent` | src/pages/MealPlanDashboard.tsx:164-233 | The builder's loops produce the heading "Plan de Nutrition" followed by exactly the export sections. |
| `Export.ExportSectionOrder` | src/pages/MealPlanDashboard.tsx:181-233 | The sections are the non-empty categories in store order, then Collations if there are snacks, then Suppléments if there are supplements. Each section holds its entries in order. |
| `Export.ExportSkipsEmptyLists` | src/pages/MealPlanDashboard.tsx:183-184 | Every section has at least one entry. A list gets a section exactly when it has entries. |
| `Export.ExportOfEmptyPlan` | src/pages/MealPlanDashboard.tsx:172-184 | When every list is empty, the document holds the title heading and nothing else. |
| `Export.InitialPlanExportsHeadingOnly` | src/pages/MealPlanDashboard.tsx:127-184 | The page as it starts exports only the title heading. |

## Left out

- `exportToPDF` (src/pages/MealPlanDashboard.tsx:249-269): the one-second delay, rasterising, the floating-point scale-to-fit and saving the file depend on timers and foreign libraries.
- The styles, fade/slide animation delays and keyframe text in `generatePDFContent`: presentational. The document is modelled as its heading and its sections.
- The clipboard write and the confirmation message timer (src/pages/MealPlanDashboard.tsx:285-287): I/O and timers. Only the summary text is modelled.
- The clock read in `addCategory` becomes the parameter `now`.
- The option catalogues (src/pages/MealPlanDashboard.tsx:136-138): static data. The select does not constrain what a submission accepts.
- Event batching and stale closures: every handler is modelled as seeing the state left by the previous one.
- Rendering, and the React `key` warning that duplicate ids would cause.
- `Text.NatToString`: numbers of 10^21 and above, which a script engine prints in exponent form, are not modelled. Entry counts and millisecond clock readings stay far below that. A clock set before 1970 gives a negative `Date.now()`, which renders with a leading "-"; the clock reading is a `nat` here, so such ids are not modelled.
- `Summary.SummaryHasOneLinePerCategory`: assumes no title contains a newline. A title with a newline would add a line of its own. Titles come from single-line text inputs.
- `src/App.tsx`, `src/components/Header.tsx`, `src/pages/HomePage.tsx`, `src/pages/SupplementGuide.tsx` and `src/pages/UserProfile.tsx` are not part of this model. They hold routing and static markup.
