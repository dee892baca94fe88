/** The section organiser of `ChartSettings.render`: it groups the shown
    widgets by section, folds the "undefined" pseudo-section into the first
    tab, orders the tab names, and picks the active tab. */
module SectionOrganiser {
  import opened JsValues
  import opened Widgets
  import StableSort

  /** The key an absent `section` turns into. */
  const UndefinedSection := "undefined"

  /** `DEFAULT_TAB_PRIORITY`, taken unlocalised. */
  const DefaultTabPriority: seq<string> := ["Data"]

  predicate Distinct(names: seq<string>)
  {
    forall i, j :: 0 <= i < j < |names| ==> names[i] != names[j]
  }

  /** The `sections` object: a map from section name to widget list whose
      keys keep their insertion order in `order`. */
  datatype Sections = Sections(order: seq<string>, lists: map<string, seq<Widget>>)
  {
    ghost predicate Valid()
    {
      Distinct(order) && forall k :: k in lists <==> k in order
    }
  }

  // ---------------------------------------------------------------------
  // Grouping (the loop over `widgets`)
  // ---------------------------------------------------------------------

  /** The shown widgets of `ws` whose section is `name`, in input order. */
  function Members(ws: seq<Widget>, name: string): seq<Widget>
  {
    if ws == [] then []
    else
      var last := ws[|ws| - 1];
      Members(ws[..|ws| - 1], name) + (if Shown(last) && last.section == name then [last] else [])
  }

  /** The sections of the shown widgets of `ws`, in the order their first
      widget appears. */
  function SectionNames(ws: seq<Widget>): (names: seq<string>)
    ensures Distinct(names)
    ensures forall k :: k in names <==> Members(ws, k) != []
  {
    if ws == [] then []
    else
      var init, last := ws[..|ws| - 1], ws[|ws| - 1];
      SectionNames(init) + (if Shown(last) && last.section !in SectionNames(init) then [last.section] else [])
  }

  /** What the loop over the widgets builds. */
  function Grouped(ws: seq<Widget>): (g: Sections)
    ensures g.Valid()
    ensures forall k :: k in g.lists ==> g.lists[k] != []
  {
    var names := SectionNames(ws);
    Sections(names, map k | k in names :: Members(ws, k))
  }

  /** A section's list holds each widget of the input as often as the input
      does when the widget is shown and belongs to that section, and never
      otherwise. */
  lemma {:induction false} MembersCount(ws: seq<Widget>, name: string, w: Widget)
    ensures multiset(Members(ws, name))[w]
         == if Shown(w) && w.section == name then multiset(ws)[w] else 0
  {
    if ws != [] {
      var init := ws[..|ws| - 1];
      MembersCount(init, name, w);
      assert ws == init + [ws[|ws| - 1]];
    }
  }

  /** A section's list keeps input order: widgets from an earlier part of the
      input come before those from a later part. */
  lemma {:induction false} MembersAppend(a: seq<Widget>, b: seq<Widget>, name: string)
    ensures Members(a + b, name) == Members(a, name) + Members(b, name)
  {
    if b == [] {
      assert a + b == a;
    } else {
      var init := b[..|b| - 1];
      assert (a + b)[..|a + b| - 1] == a + init;
      assert (a + b)[|a + b| - 1] == b[|b| - 1];
      MembersAppend(a, init, name);
    }
  }

  /** One step of the loop: a shown widget is appended to its section's
      list, which is created (as the last key) when missing. */
  lemma {:induction false} GroupedStep(ws: seq<Widget>, w: Widget)
    ensures var g, g' := Grouped(ws), Grouped(ws + [w]);
      if Shown(w) then
        && g'.order == (if w.section in g.lists then g.order else g.order + [w.section])
        && g'.lists == g.lists[w.section := (if w.section in g.lists then g.lists[w.section] else []) + [w]]
      else g' == g
  {
    var ws' := ws + [w];
    assert ws'[..|ws'| - 1] == ws;
    assert ws'[|ws'| - 1] == w;
    var g, g' := Grouped(ws), Grouped(ws + [w]);
    if Shown(w) {
      var m := g.lists[w.section := (if w.section in g.lists then g.lists[w.section] else []) + [w]];
      assert g'.order == (if w.section in g.lists then g.order else g.order + [w.section]);
      assert g'.lists.Keys == m.Keys;
      forall k | k in m
        ensures g'.lists[k] == m[k]
      {
        assert Members(ws', k) == Members(ws, k) + (if k == w.section then [w] else []);
      }
    } else {
      assert g'.order == g.order;
      forall k | k in g.lists
        ensures g'.lists[k] == g.lists[k]
      {
        assert Members(ws', k) == Members(ws, k) + [];
      }
      assert g'.lists == g.lists;
    }
  }

  /** The loop that fills `sections` (the `widgetsById` index it also builds
      is never read and is not part of this model). */
  method BuildSections(widgets: seq<Widget>) returns (sections: Sections)
    ensures sections == Grouped(widgets)
  {
    var order: seq<string> := [];
    var lists: map<string, seq<Widget>> := map[];
    for i := 0 to |widgets|
      invariant order == Grouped(widgets[..i]).order
      invariant lists == Grouped(widgets[..i]).lists
    {
      var w := widgets[i];
      ghost var done := widgets[..i];
      assert widgets[..i + 1] == done + [w];
      ghost var next := Grouped(done + [w]);
      GroupedStep(done, w);
      if w.hasRenderer && !w.hidden {
        var list := if w.section in lists then lists[w.section] else [];
        if w.section !in lists {
          order := order + [w.section];
        }
        lists := lists[w.section := list + [w]];
      }
      assert order == next.order && lists == next.lists;
    }
    assert widgets[..|widgets|] == widgets;
    sections := Sections(order, lists);
  }

  // ---------------------------------------------------------------------
  // Folding the "undefined" pseudo-section into the first tab
  // ---------------------------------------------------------------------

  /** The test that keeps every name but `x`. */
  function Other(x: string): string -> bool
  {
    y => y != x
  }

  /** `names` without `x`: the other names, in their order. */
  function Without(names: seq<string>, x: string): (r: seq<string>)
    ensures r == StableSort.Filter(names, Other(x))
    ensures forall y :: y in r <==> y in names && y != x
    ensures Distinct(names) ==> Distinct(r) && |r| == |names| - (if x in names then 1 else 0)
  {
    if names == [] then []
    else
      var rest := Without(names[1..], x);
      assert Distinct(names) ==> names[0] !in names[1..] && Distinct(names[1..]);
      (if names[0] == x then [] else [names[0]]) + rest
  }

  /** When "undefined" is a key beside at least one other, its widgets move
      to the front of the first remaining section and the key goes away;
      otherwise nothing changes. */
  function FoldUndefined(s: Sections): (r: Sections)
    requires s.Valid()
    ensures r.Valid()
    ensures UndefinedSection in s.lists && |s.order| > 1 ==>
      && UndefinedSection !in r.lists
      && r.order == Without(s.order, UndefinedSection)
      && |r.order| == |s.order| - 1
      && r.lists[r.order[0]] == s.lists[UndefinedSection] + s.lists[r.order[0]]
      && forall k :: k in r.lists && k != r.order[0] ==> r.lists[k] == s.lists[k]
    ensures !(UndefinedSection in s.lists && |s.order| > 1) ==> r == s
  {
    if UndefinedSection in s.lists && |s.order| > 1 then
      var extra := s.lists[UndefinedSection];
      var order := Without(s.order, UndefinedSection);
      var lists := s.lists - {UndefinedSection};
      Sections(order, lists[order[0] := extra + lists[order[0]]])
    else
      s
  }

  /** The organised sections of a widget list. */
  function Organise(ws: seq<Widget>): (s: Sections)
    ensures s.Valid()
  {
    FoldUndefined(Grouped(ws))
  }

  /** Whether the fold moved anything. */
  predicate Folded(ws: seq<Widget>)
  {
    UndefinedSection in Grouped(ws).lists && |Grouped(ws).order| > 1
  }

  /** Where every widget ends up: a section's list is that section's shown
      widgets in input order, and the first tab's list is preceded by the
      "undefined" widgets when they were folded into it. */
  lemma OrganisedPlacement(ws: seq<Widget>, k: string)
    requires k in Organise(ws).lists
    ensures var o := Organise(ws);
      o.lists[k] == if Folded(ws) && k == o.order[0]
                    then Members(ws, UndefinedSection) + Members(ws, k)
                    else Members(ws, k)
  {
  }

  /** Partition: a widget occurs in a section's list exactly as often as in
      the input when it is shown and belongs there (its own section, or the
      first tab for a folded "undefined" widget), and nowhere else. */
  lemma OrganisedCount(ws: seq<Widget>, k: string, w: Widget)
    requires k in Organise(ws).lists
    ensures var o := Organise(ws);
      multiset(o.lists[k])[w]
        == if Shown(w) && (w.section == k || (Folded(ws) && k == o.order[0] && w.section == UndefinedSection))
           then multiset(ws)[w] else 0
  {
    var o := Organise(ws);
    OrganisedPlacement(ws, k);
    MembersCount(ws, k, w);
    MembersCount(ws, UndefinedSection, w);
    if Folded(ws) && k == o.order[0] {
      assert k != UndefinedSection;
    }
  }

  /** Only shown widgets are placed. */
  lemma OrganisedWidgetsShown(ws: seq<Widget>, k: string, w: Widget)
    requires k in Organise(ws).lists && w in Organise(ws).lists[k]
    ensures Shown(w)
  {
    OrganisedCount(ws, k, w);
    assert multiset(Organise(ws).lists[k])[w] > 0;
  }

  // ---------------------------------------------------------------------
  // Ordering the tab names
  // ---------------------------------------------------------------------

  function LowerAll(names: seq<string>): seq<string>
  {
    seq(|names|, i requires 0 <= i < |names| => Lower(names[i]))
  }

  /** `sectionSortOrder`: the three preferred names, then every section
      name lower-cased, in insertion order. */
  function SortOrder(names: seq<string>): seq<string>
  {
    ["data", "display", "axes"] + LowerAll(names)
  }

  /** The comparator's key for `x`: where its lower-case form first occurs
      in `SortOrder(names)`. */
  function Rank(names: seq<string>, x: string): int
  {
    IndexOf(SortOrder(names), Lower(x))
  }

  function RankKey(names: seq<string>): string -> int
  {
    x => Rank(names, x)
  }

  /** `sectionNames.sort(...)`: a stable sort by `Rank`. */
  function SortSectionNames(names: seq<string>): seq<string>
  {
    StableSort.SortBy(names, RankKey(names))
  }

  /** The group a name sorts into: 0, 1, 2 for "data", "display", "axes" in
      any case, 3 for every other name. */
  function Tier(x: string): nat
  {
    if Lower(x) == "data" then 0
    else if Lower(x) == "display" then 1
    else if Lower(x) == "axes" then 2
    else 3
  }

  predicate IsOtherSection(x: string)
  {
    Tier(x) == 3
  }

  /** A preferred name ranks by its group; any other name ranks after all of
      them, at 3 plus the first position of its lower-case form. */
  lemma RankByTier(names: seq<string>, x: string)
    requires x in names
    ensures Tier(x) < 3 ==> Rank(names, x) == Tier(x)
    ensures Tier(x) == 3 ==> Rank(names, x) == 3 + IndexOf(LowerAll(names), Lower(x))
  {
    var so := SortOrder(names);
    assert so[0] == "data" && so[1] == "display" && so[2] == "axes";
    var i :| 0 <= i < |names| && names[i] == x;
    assert so[3 + i] == Lower(x);
    var r := Rank(names, x);
    if Tier(x) == 3 {
      var j := IndexOf(LowerAll(names), Lower(x));
      assert LowerAll(names)[i] == Lower(x);
      assert so[3 + j] == Lower(x);
      forall m | 0 <= m < 3 + j
        ensures so[m] != Lower(x)
      {
        if m >= 3 {
          assert so[m] == LowerAll(names)[m - 3];
        }
      }
    }
  }

  /** Within one list of names, a lower rank never means a later group. */
  lemma TierFollowsRank(names: seq<string>, a: string, b: string)
    requires a in names && b in names
    requires Rank(names, a) <= Rank(names, b)
    ensures Tier(a) <= Tier(b)
  {
    RankByTier(names, a);
    RankByTier(names, b);
  }

  /** The sorted names are a permutation of the section keys. */
  lemma SortSectionNamesPermutation(names: seq<string>)
    ensures multiset(SortSectionNames(names)) == multiset(names)
  {
    StableSort.SortByPermutation(names, RankKey(names));
  }

  /** Names whose lower case is "data", "display" or "axes" come first, in
      that order, and every other name after them. */
  lemma SortSectionNamesTiers(names: seq<string>)
    ensures var r := SortSectionNames(names);
      forall i, j :: 0 <= i < j < |r| ==> Tier(r[i]) <= Tier(r[j])
  {
    var r := SortSectionNames(names);
    StableSort.SortBySorted(names, RankKey(names));
    SortSectionNamesPermutation(names);
    forall i, j | 0 <= i < j < |r|
      ensures Tier(r[i]) <= Tier(r[j])
    {
      assert r[i] in multiset(names) && r[j] in multiset(names);
      assert RankKey(names)(r[i]) <= RankKey(names)(r[j]);
      TierFollowsRank(names, r[i], r[j]);
    }
  }

  /** When no two names outside the three preferred ones are equal up to
      case, those names keep their insertion order. */
  lemma SortSectionNamesRestInOrder(names: seq<string>)
    requires forall i, j :: 0 <= i < j < |names| && IsOtherSection(names[i]) && IsOtherSection(names[j])
               ==> Lower(names[i]) != Lower(names[j])
    ensures StableSort.Filter(SortSectionNames(names), IsOtherSection)
         == StableSort.Filter(names, IsOtherSection)
  {
    var key := RankKey(names);
    forall i | 0 <= i < |names| && IsOtherSection(names[i])
      ensures key(names[i]) == 3 + i
    {
      RankByTier(names, names[i]);
      var j := IndexOf(LowerAll(names), Lower(names[i]));
      assert LowerAll(names)[i] == Lower(names[i]);
    }
    StableSort.FilterSortedWhereRising(names, key, IsOtherSection);
    StableSort.FilterSortBy(names, key, IsOtherSection);
    StableSort.SortBySortedIdentity(StableSort.Filter(names, IsOtherSection), key);
  }

  /** The tabs of a chart with "Axes", "Data", "Display" and "Custom"
      sections, in that insertion order, read Data, Display, Axes, Custom. */
  lemma SortSectionNamesExample()
    ensures SortSectionNames(["Axes", "Data", "Display", "Custom"]) == ["Data", "Display", "Axes", "Custom"]
  {
    var names := ["Axes", "Data", "Display", "Custom"];
    var key := RankKey(names);
    ExampleRanks();
    assert names[1..][1..][1..] == ["Custom"];
    assert StableSort.SortBy(["Custom"], key) == ["Custom"];
    assert names[1..][1..] == ["Display", "Custom"];
    assert StableSort.SortBy(["Display", "Custom"], key) == ["Display", "Custom"];
    assert names[1..] == ["Data", "Display", "Custom"];
    assert StableSort.SortBy(["Data", "Display", "Custom"], key) == ["Data", "Display", "Custom"];
    assert ["Data", "Display", "Custom"][1..] == ["Display", "Custom"];
    assert ["Display", "Custom"][1..] == ["Custom"];
  }

  lemma ExampleRanks()
    ensures var key := RankKey(["Axes", "Data", "Display", "Custom"]);
      key("Axes") == 2 && key("Data") == 0 && key("Display") == 1 && key("Custom") == 6
  {
    var names := ["Axes", "Data", "Display", "Custom"];
    LowerExample("Axes", "axes");
    LowerExample("Data", "data");
    LowerExample("Display", "display");
    LowerExample("Custom", "custom");
    RankByTier(names, "Axes");
    RankByTier(names, "Data");
    RankByTier(names, "Display");
    RankByTier(names, "Custom");
    assert LowerAll(names)[3] == "custom";
  }

  lemma LowerExample(s: string, l: string)
    requires |s| == |l| && forall i :: 0 <= i < |s| ==> LowerChar(s[i]) == l[i]
    ensures Lower(s) == l
  {
  }

  /** The section building of `render`: group the shown widgets, fold the
      "undefined" pseudo-section into the first tab, and sort the names. */
  method OrganiseSections(widgets: seq<Widget>) returns (sections: Sections, sectionNames: seq<string>)
    ensures sections == Organise(widgets)
    ensures sectionNames == SortSectionNames(sections.order)
    ensures multiset(sectionNames) == multiset(sections.order)
  {
    var built := BuildSections(widgets);
    sections := FoldUndefined(built);
    sectionNames := SortSectionNames(sections.order);
    SortSectionNamesPermutation(sections.order);
  }

  // ---------------------------------------------------------------------
  // The active tab and the section picker
  // ---------------------------------------------------------------------

  /** Whether the stored `currentSection` names an existing tab (an empty
      string is falsy and never does). */
  predicate StoredSectionUsable(current: Option<string>, s: Sections)
  {
    current.Some? && current.value != "" && current.value in s.lists
  }

  /** The tab shown: the stored one if it exists, else "Data" if it exists,
      else the first sorted name; none only when there are no sections. */
  function ActiveSection(current: Option<string>, s: Sections): (r: Option<string>)
    requires s.Valid()
    ensures r.Some? <==> |s.order| > 0
    ensures r.Some? ==> r.value in s.lists
    ensures StoredSectionUsable(current, s) ==> r == current
    ensures !StoredSectionUsable(current, s) && "Data" in s.lists ==> r == Some("Data")
    ensures !StoredSectionUsable(current, s) && "Data" !in s.lists && |s.order| > 0
            ==> r == Some(SortSectionNames(s.order)[0])
  {
    if StoredSectionUsable(current, s) then current
    else
      match FindIndex(DefaultTabPriority, name => name in s.lists)
      case Some(i) => Some(DefaultTabPriority[i])
      case None =>
        var names := SortSectionNames(s.order);
        SortSectionNamesPermutation(s.order);
        if |names| > 0 then
          assert names[0] in multiset(s.order);
          Some(names[0])
        else None
  }

  /** Without a usable stored tab or a "Data" tab, the tab shown is one of
      the highest-priority sections: no key sorts into an earlier group. */
  lemma ActiveSectionFallback(current: Option<string>, s: Sections, k: string)
    requires s.Valid()
    requires !StoredSectionUsable(current, s) && "Data" !in s.lists
    requires k in s.lists
    ensures ActiveSection(current, s).Some?
    ensures Rank(s.order, ActiveSection(current, s).value) <= Rank(s.order, k)
    ensures Tier(ActiveSection(current, s).value) <= Tier(k)
  {
    var names := SortSectionNames(s.order);
    SortSectionNamesPermutation(s.order);
    StableSort.SortBySorted(s.order, RankKey(s.order));
    assert k in multiset(names);
    var j :| 0 <= j < |names| && names[j] == k;
    assert RankKey(s.order)(names[0]) <= RankKey(s.order)(names[j]);
    assert names[0] in multiset(s.order);
    TierFollowsRank(s.order, names[0], k);
  }

  /** `sections[currentSection] || []`. */
  function VisibleWidgets(s: Sections, active: Option<string>): seq<Widget>
  {
    if active.Some? && active.value in s.lists then s.lists[active.value] else []
  }

  /** `showSectionPicker`. The clause meant to hide the picker when the only
      widget is `column_settings` can never hold, because the widget list
      it inspects is the one `currentSectionHasColumnSettings` is computed
      from: the picker shows exactly when there is more than one tab. */
  function ShowSectionPicker(sectionNames: seq<string>, visible: seq<Widget>): (r: bool)
    ensures r <==> |sectionNames| > 1
  {
    var currentSectionHasColumnSettings := exists w :: w in visible && w.id == "column_settings";
    assert |visible| == 1 && visible[0].id == "column_settings" ==> visible[0] in visible;
    |sectionNames| > 1
    && !(|visible| == 1 && visible[0].id == "column_settings" && !currentSectionHasColumnSettings)
  }
}
