/** The plain-text summary copied to the clipboard: one line per category of the
    store, "<title>: <number of entries> items", lines joined by a newline. The
    snacks and supplements lists do not appear in it. */
module Summary {
  import opened Seqs
  import opened Text
  import opened MealBlockWidget
  import opened Wrappers
  import opened MealPlan
  import Dashboard

  const ItemsSuffix: string := " items"

  function SummaryLine(c: Category): string
  {
    c.title + ": " + NatToString(|c.meals|) + ItemsSuffix
  }

  function SummaryText(cats: seq<Category>): string
  {
    Join(Map(cats, SummaryLine), '\n')
  }

  /** The text the copy button puts on the clipboard: the categories only. */
  function ClipboardSummary(plan: Dashboard.Plan): string
  {
    SummaryText(plan.categories)
  }

  /** Entries added to snacks or supplements leave the clipboard summary as it was. */
  lemma ClipboardSummaryIgnoresFixedLists(plan: Dashboard.Plan, b: Dashboard.Block, item: string, quantity: string)
    requires b == Dashboard.SnacksBlock || b == Dashboard.SupplementsBlock
    ensures ClipboardSummary(Dashboard.AppendEntry(plan, b, item, quantity)) == ClipboardSummary(plan)
  {
  }

  /** Splits `s` into everything before its final run of digits and that run. */
  function TrailingDigits(s: string): (r: (string, string))
    ensures r.0 + r.1 == s && AllDigits(r.1)
    ensures r.0 == [] || !IsDigit(r.0[|r.0| - 1])
  {
    if s == [] || !IsDigit(s[|s| - 1]) then (s, "")
    else
      var (p, d) := TrailingDigits(s[..|s| - 1]);
      (p, d + [s[|s| - 1]])
  }

  /** Reads a summary line back into its title and entry count, working from
      the right end so that a title holding ": " or digits is no obstacle. */
  function ParseSummaryLine(line: string): Option<(string, nat)>
  {
    if |line| < |ItemsSuffix| || line[|line| - |ItemsSuffix|..] != ItemsSuffix then None
    else
      var (head, digits) := TrailingDigits(line[..|line| - |ItemsSuffix|]);
      if digits == [] || |head| < 2 || head[|head| - 2..] != ": " then None
      else Some((head[..|head| - 2], ParseNat(digits)))
  }

  /** A digit run that follows a non-digit is exactly the trailing run. */
  lemma {:induction false} TrailingDigitsOf(p: string, d: string)
    requires AllDigits(d)
    requires p == [] || !IsDigit(p[|p| - 1])
    ensures TrailingDigits(p + d) == (p, d)
  {
    if d == [] {
      assert p + d == p;
    } else {
      var s := p + d;
      var d' := d[..|d| - 1];
      assert s[..|s| - 1] == p + d';
      TrailingDigitsOf(p, d');
      assert d' + [d[|d| - 1]] == d;
    }
  }

  /** Every summary line reads back as the category's title and entry count. */
  lemma SummaryLineRoundTrip(c: Category)
    ensures ParseSummaryLine(SummaryLine(c)) == Some((c.title, |c.meals|))
  {
    var n := NatToString(|c.meals|);
    var head := c.title + ": ";
    var line := SummaryLine(c);
    assert line == head + n + ItemsSuffix;
    assert line[|line| - |ItemsSuffix|..] == ItemsSuffix;
    assert line[..|line| - |ItemsSuffix|] == head + n;
    TrailingDigitsOf(head, n);
    assert head[|head| - 2..] == ": ";
    assert head[..|head| - 2] == c.title;
    ParseNatToString(|c.meals|);
  }

  /** A summary line holds a newline only where the title does. */
  lemma SummaryLineNewlines(c: Category)
    requires '\n' !in c.title
    ensures '\n' !in SummaryLine(c)
  {
  }

  /** With at least one category and no newline inside a title, the summary
      splits into exactly one line per category, in store order, and line `i`
      reads back as category `i`'s title and entry count. An empty store gives
      the empty text. */
  lemma SummaryHasOneLinePerCategory(cats: seq<Category>)
    requires forall i :: 0 <= i < |cats| ==> '\n' !in cats[i].title
    ensures cats == [] ==> SummaryText(cats) == ""
    ensures cats != [] ==> |Split(SummaryText(cats), '\n')| == |cats|
    ensures cats != [] ==> forall i :: 0 <= i < |cats| ==>
      ParseSummaryLine(Split(SummaryText(cats), '\n')[i]) == Some((cats[i].title, |cats[i].meals|))
  {
    var lines := Map(cats, SummaryLine);
    if cats != [] {
      forall i | 0 <= i < |lines|
        ensures '\n' !in lines[i]
      {
        SummaryLineNewlines(cats[i]);
      }
      SplitJoin(lines, '\n');
      forall i | 0 <= i < |cats|
        ensures ParseSummaryLine(lines[i]) == Some((cats[i].title, |cats[i].meals|))
      {
        SummaryLineRoundTrip(cats[i]);
      }
    }
  }

  /** The worked example: an entry "Riz" / "200g" added to breakfast on the
      initial page gives the three-line summary below. */
  lemma SummaryAfterFirstEntry()
    ensures SummaryText(Dashboard.AppendEntry(Dashboard.InitialPlan(), Dashboard.CategoryBlock(0), "Riz", "200g").categories)
         == "Petit Déjeuner: 1 items\nDéjeuner: 0 items\nDîner: 0 items"
  {
    var riz := [Meal("Riz", "200g")];
    var cats := InitialCategories();
    assert [] + riz == riz;
    assert SubmittedMeals([], "Riz", "200g") == Some(riz);
    var after := UpdateCategoryMeals(cats, "breakfast", riz);
    assert after == [Category("breakfast", "Petit Déjeuner", riz), cats[1], cats[2]];
    assert Dashboard.AppendEntry(Dashboard.InitialPlan(), Dashboard.CategoryBlock(0), "Riz", "200g").categories == after;
    SummaryOfThree(after[0], after[1], after[2]);
    assert NatToString(1) == "1" && NatToString(0) == "0";
    assert SummaryLine(after[0]) == "Petit Déjeuner: 1 items";
    assert SummaryLine(after[1]) == "Déjeuner: 0 items";
    assert SummaryLine(after[2]) == "Dîner: 0 items";
  }

  /** The summary of a three-category store, spelled out. */
  lemma SummaryOfThree(a: Category, b: Category, c: Category)
    ensures SummaryText([a, b, c]) == SummaryLine(a) + "\n" + SummaryLine(b) + "\n" + SummaryLine(c)
  {
    var lines := Map([a, b, c], SummaryLine);
    assert lines == [SummaryLine(a), SummaryLine(b), SummaryLine(c)];
    assert Join(lines[2..], '\n') == lines[2];
    assert Join(lines[1..], '\n') == lines[1] + "\n" + lines[2];
  }
}
