/** What the PDF export renders: a fixed heading, then one section per
    non-empty list, taking the store's categories in order and then the snacks
    ("Collations") and supplements ("Suppléments") lists. Each section shows its
    title and its entries in order. Styling, animation and rasterisation are not
    modelled; the document is the sequence of sections the builder appends. */
module Export {
  import opened Seqs
  import opened MealPlan
  import opened Dashboard

  const PdfHeading: string := "Plan de Nutrition"

  /** One rendered section: a title and its entry rows, in order. */
  datatype Section = Section(title: string, items: seq<Meal>)

  /** The built document: the heading followed by the sections. */
  datatype Document = Document(heading: string, sections: seq<Section>)

  /** The lists the builder walks: the categories, then the two fixed lists
      dressed as categories. */
  function AllCategories(plan: Plan): seq<Category>
  {
    plan.categories
      + [Category("snacks", "Collations", plan.snacks), Category("supplements", "Suppléments", plan.supplements)]
  }

  predicate HasMeals(c: Category) { |c.meals| > 0 }

  function Render(c: Category): Section { Section(c.title, c.meals) }

  /** The sections of the export: the non-empty lists, in walking order. */
  function ExportSections(plan: Plan): seq<Section>
  {
    Map(Filter(AllCategories(plan), HasMeals), Render)
  }

  /** `generatePDFContent`: append the heading, then walk every list and, for
      each non-empty one, build a section by walking its entries. */
  method GeneratePdfContent(plan: Plan) returns (doc: Document)
    ensures doc == Document(PdfHeading, ExportSections(plan))
  {
    var all := AllCategories(plan);
    var sections: seq<Section> := [];
    var i := 0;
    while i < |all|
      invariant 0 <= i <= |all|
      invariant sections == Map(Filter(all[..i], HasMeals), Render)
    {
      var category := all[i];
      if |category.meals| > 0 {
        var items: seq<Meal> := [];
        var j := 0;
        while j < |category.meals|
          invariant 0 <= j <= |category.meals|
          invariant items == category.meals[..j]
        {
          items := items + [category.meals[j]];
          j := j + 1;
        }
        assert items == category.meals;
        sections := sections + [Section(category.title, items)];
      }
      assert all[..i + 1] == all[..i] + [all[i]];
      FilterConcat(all[..i], [all[i]], HasMeals);
      FilterSingleton(all[i], HasMeals);
      MapConcat(Filter(all[..i], HasMeals), Filter([all[i]], HasMeals), Render);
      assert Map([all[i]], Render) == [Render(all[i])];
      i := i + 1;
    }
    assert all[..i] == all;
    doc := Document(PdfHeading, sections);
  }

  // ---------------------------------------------------------------------------

  /** The export is the non-empty categories in store order, then the snacks
      section if there are snacks, then the supplements section if there are
      supplements. */
  lemma ExportSectionOrder(plan: Plan)
    ensures ExportSections(plan)
         == Map(Filter(plan.categories, HasMeals), Render)
          + (if |plan.snacks| > 0 then [Section("Collations", plan.snacks)] else [])
          + (if |plan.supplements| > 0 then [Section("Suppléments", plan.supplements)] else [])
  {
    var snacks := Category("snacks", "Collations", plan.snacks);
    var supplements := Category("supplements", "Suppléments", plan.supplements);
    var fromCategories := Filter(plan.categories, HasMeals);
    var fromSnacks := Filter([snacks], HasMeals);
    var fromSupplements := Filter([supplements], HasMeals);
    assert AllCategories(plan) == plan.categories + [snacks] + [supplements];
    FilterConcat(plan.categories + [snacks], [supplements], HasMeals);
    FilterConcat(plan.categories, [snacks], HasMeals);
    FilterSingleton(snacks, HasMeals);
    FilterSingleton(supplements, HasMeals);
    MapConcat(fromCategories + fromSnacks, fromSupplements, Render);
    MapConcat(fromCategories, fromSnacks, Render);
    assert Map([snacks], Render) == [Render(snacks)];
    assert Map([supplements], Render) == [Render(supplements)];
  }

  /** Every exported section has at least one entry, and a list gets a section
      exactly when it has entries. */
  lemma ExportSkipsEmptyLists(plan: Plan)
    ensures forall s :: s in ExportSections(plan) ==> |s.items| > 0
    ensures forall c :: c in AllCategories(plan) ==>
      (Render(c) in ExportSections(plan) <==> |c.meals| > 0)
  {
    var kept := Filter(AllCategories(plan), HasMeals);
    forall s | s in ExportSections(plan)
      ensures |s.items| > 0
    {
      var k :| 0 <= k < |kept| && ExportSections(plan)[k] == s;
      assert s == Render(kept[k]) && kept[k] in kept;
    }
    forall c | c in AllCategories(plan)
      ensures Render(c) in ExportSections(plan) <==> |c.meals| > 0
    {
      if |c.meals| > 0 {
        FilterKeeps(AllCategories(plan), HasMeals, c);
        var k :| 0 <= k < |kept| && kept[k] == c;
        assert ExportSections(plan)[k] == Render(c);
      }
    }
  }

  /** When every list is empty the document holds the heading and nothing else. */
  lemma ExportOfEmptyPlan(plan: Plan)
    requires forall i :: 0 <= i < |plan.categories| ==> plan.categories[i].meals == []
    requires plan.snacks == [] && plan.supplements == []
    ensures ExportSections(plan) == []
  {
    FilterNone(AllCategories(plan), HasMeals);
  }

  /** The page as it starts exports the heading alone. */
  lemma InitialPlanExportsHeadingOnly()
    ensures ExportSections(InitialPlan()) == []
  {
  }
}
