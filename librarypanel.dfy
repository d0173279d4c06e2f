/**
 * The component library panel: the grouped parts table narrowed by the
 * search box and by an exam's allow-list, the expandable category headers,
 * and dragging a part out towards the canvas.
 */
module LibraryPanel {
  import opened Wrappers
  import opened PicoTypes
  import opened Text
  import opened Lists
  import opened PicoLabStore
  import opened ComponentLibrary

  /** The grouped table as a value: one entry per category in order of first appearance, with its bucket. */
  function Grouped(lib: seq<ComponentDefinition>): (g: seq<(Category, seq<ComponentDefinition>)>)
    ensures GroupedAs(g, lib)
  {
    var keys := CategoryOrder(lib);
    seq(|keys|, i requires 0 <= i < |keys| => (keys[i], Bucket(lib, keys[i])))
  }

  /** The search: the query, lower-cased, occurs in the lower-cased name or type. */
  predicate MatchesQuery(d: ComponentDefinition, query: string) {
    Contains(ToLower(d.name), ToLower(query)) || Contains(ToLower(d.ctype), ToLower(query))
  }

  /** The allow-list: without one every type is allowed. */
  predicate Allowed(d: ComponentDefinition, allowed: Option<seq<string>>) {
    allowed.None? || d.ctype in allowed.value
  }

  /** The search as a filter test. */
  function Search(query: string): ComponentDefinition -> bool {
    (d: ComponentDefinition) => MatchesQuery(d, query)
  }

  /** The allow-list as a filter test. */
  function AllowTest(allowed: Option<seq<string>>): ComponentDefinition -> bool {
    (d: ComponentDefinition) => Allowed(d, allowed)
  }

  /** One bucket narrowed: by the search, then (when there is one) by the allow-list. */
  function Narrowed(parts: seq<ComponentDefinition>, query: string, allowed: Option<seq<string>>): (r: seq<ComponentDefinition>)
    ensures forall d :: d in r <==> d in parts && MatchesQuery(d, query) && Allowed(d, allowed)
  {
    var found := Filter(parts, Search(query));
    if allowed.Some? then Filter(found, AllowTest(allowed)) else found
  }

  /** The narrowed record: each category with its narrowed bucket, categories left empty omitted. */
  function FilteredGroups(groups: seq<(Category, seq<ComponentDefinition>)>, query: string,
                          allowed: Option<seq<string>>): seq<(Category, seq<ComponentDefinition>)>
    decreases |groups|
  {
    if |groups| == 0 then []
    else
      var (c, parts) := groups[|groups| - 1];
      var kept := Narrowed(parts, query, allowed);
      FilteredGroups(groups[..|groups| - 1], query, allowed) + (if |kept| > 0 then [(c, kept)] else [])
  }

  /** Narrowing keeps the bucket's order: it filters once by both tests. */
  lemma NarrowedInOrder(parts: seq<ComponentDefinition>, query: string, allowed: Option<seq<string>>)
    ensures SubList(Narrowed(parts, query, allowed), parts)
  {
    if allowed.Some? {
      FilterTwiceSubList(parts, Search(query), AllowTest(allowed));
    } else {
      FilterSubList(parts, Search(query));
    }
  }

  /**
   * Every listed category is a category of the table with the survivors of its
   * bucket (which keep their order, by `NarrowedInOrder`), and never an empty list.
   */
  lemma {:induction false} ListedAreNarrowed(groups: seq<(Category, seq<ComponentDefinition>)>, query: string,
                                             allowed: Option<seq<string>>)
    ensures forall e :: e in FilteredGroups(groups, query, allowed) ==>
      |e.1| > 0 && exists i :: 0 <= i < |groups| && groups[i].0 == e.0 && e.1 == Narrowed(groups[i].1, query, allowed)
    decreases |groups|
  {
    if |groups| > 0 {
      var n := |groups| - 1;
      var init := groups[..n];
      ListedAreNarrowed(init, query, allowed);
      var kept := Narrowed(groups[n].1, query, allowed);
      var r := FilteredGroups(groups, query, allowed);
      assert r == FilteredGroups(init, query, allowed) + (if |kept| > 0 then [(groups[n].0, kept)] else []);
      forall e | e in r
        ensures |e.1| > 0 && exists i :: 0 <= i < |groups| && groups[i].0 == e.0 && e.1 == Narrowed(groups[i].1, query, allowed)
      {
        if e in FilteredGroups(init, query, allowed) {
          var i :| 0 <= i < |init| && init[i].0 == e.0 && e.1 == Narrowed(init[i].1, query, allowed);
          assert groups[i] == init[i];
        } else {
          assert groups[n].0 == e.0 && e.1 == kept;
        }
      }
    }
  }

  /** Every category of the table with a surviving part is listed, with its survivors. */
  lemma {:induction false} SurvivorsListed(groups: seq<(Category, seq<ComponentDefinition>)>, query: string,
                                           allowed: Option<seq<string>>, i: nat)
    requires i < |groups| && |Narrowed(groups[i].1, query, allowed)| > 0
    ensures (groups[i].0, Narrowed(groups[i].1, query, allowed)) in FilteredGroups(groups, query, allowed)
    decreases |groups|
  {
    var n := |groups| - 1;
    var init := groups[..n];
    if i < n {
      assert init[i] == groups[i];
      SurvivorsListed(init, query, allowed, i);
      ListedGrows(groups, query, allowed);
    }
  }

  /** The categories listed for all but the last group stay listed. */
  lemma ListedGrows(groups: seq<(Category, seq<ComponentDefinition>)>, query: string, allowed: Option<seq<string>>)
    requires |groups| > 0
    ensures forall e :: e in FilteredGroups(groups[..|groups| - 1], query, allowed) ==> e in FilteredGroups(groups, query, allowed)
  {
  }

  /** With an empty query and no allow-list, a group list whose buckets are all non-empty is kept whole. */
  lemma {:induction false} NoFiltersKeepAll(groups: seq<(Category, seq<ComponentDefinition>)>)
    requires forall i :: 0 <= i < |groups| ==> |groups[i].1| > 0
    ensures FilteredGroups(groups, "", None) == groups
    decreases |groups|
  {
    if |groups| > 0 {
      var n := |groups| - 1;
      NoFiltersKeepAll(groups[..n]);
      var parts := groups[n].1;
      forall d | d in parts ensures Search("")(d) {
        assert OccursAt(ToLower(d.name), ToLower(""), 0);
      }
      FilterAll(parts, Search(""));
      assert groups[..n] + [groups[n]] == groups;
    }
  }

  /** Every part of the table is in its own category's bucket. */
  lemma {:induction false} InOwnBucket(lib: seq<ComponentDefinition>, k: nat)
    requires k < |lib|
    ensures lib[k] in Bucket(lib, lib[k].category)
    decreases |lib|
  {
    if k < |lib| - 1 {
      InOwnBucket(lib[..|lib| - 1], k);
    }
  }

  /**
   * With an empty query and no allow-list, every category of the table is
   * listed with its whole bucket.
   */
  lemma EverythingWithoutFilters(lib: seq<ComponentDefinition>)
    ensures FilteredGroups(Grouped(lib), "", None) == Grouped(lib)
  {
    var g := Grouped(lib);
    CategoryOrderKeys(lib);
    forall i | 0 <= i < |g| ensures |g[i].1| > 0 {
      var c := CategoryOrder(lib)[i];
      assert c in CategoryOrder(lib);
      var k :| 0 <= k < |lib| && lib[k].category == c;
      InOwnBucket(lib, k);
    }
    NoFiltersKeepAll(g);
  }

  /** A grouping of the table is the grouping: `GroupedAs` fixes every entry. */
  lemma GroupedUnique(g: seq<(Category, seq<ComponentDefinition>)>, lib: seq<ComponentDefinition>)
    requires GroupedAs(g, lib)
    ensures g == Grouped(lib)
  {
  }

  /** The reduction of `filteredCategories` over a grouped table, one category at a time. */
  method FilterGroups(categories: seq<(Category, seq<ComponentDefinition>)>, query: string, allowed: Option<seq<string>>)
    returns (acc: seq<(Category, seq<ComponentDefinition>)>)
    ensures acc == FilteredGroups(categories, query, allowed)
  {
    acc := [];
    var n := 0;
    while n < |categories|
      invariant 0 <= n <= |categories|
      invariant acc == FilteredGroups(categories[..n], query, allowed)
    {
      var (category, components) := categories[n];
      var filtered := Filter(components, Search(query));
      if allowed.Some? {
        filtered := Filter(filtered, AllowTest(allowed));
      }
      assert categories[..n + 1][..n] == categories[..n];
      if |filtered| > 0 {
        // Category keys are distinct, so storing under this key adds it at the end.
        acc := acc + [(category, filtered)];
      }
      n := n + 1;
    }
    assert categories[..n] == categories;
  }

  /** `filteredCategories`: the grouped library, narrowed. */
  method FilterCategories(query: string, allowed: Option<seq<string>>) returns (acc: seq<(Category, seq<ComponentDefinition>)>)
    ensures acc == FilteredGroups(Grouped(Library), query, allowed)
  {
    var categories := GetComponentsByCategory();
    GroupedUnique(categories, Library);
    acc := FilterGroups(categories, query, allowed);
  }

  /** The categories open when the panel first shows. */
  const InitiallyExpanded: seq<string> := ["microcontroller", "output", "passive"]

  class LibraryPanelView {
    var searchQuery: string
    var expandedCategories: seq<string>

    constructor()
      ensures searchQuery == "" && expandedCategories == InitiallyExpanded
    {
      searchQuery, expandedCategories := "", InitiallyExpanded;
    }

    /** `toggleCategory(c)`: an open category closes, a closed one opens (last in the list). */
    method ToggleCategory(c: string)
      modifies this
      ensures expandedCategories == Toggle(old(expandedCategories), c)
      ensures c in expandedCategories <==> c !in old(expandedCategories)
      ensures forall other :: other != c ==> (other in expandedCategories <==> other in old(expandedCategories))
      ensures searchQuery == old(searchQuery)
    {
      ToggleEffect(expandedCategories, c);
      expandedCategories := Toggle(expandedCategories, c);
    }

    /** `handleDragStart`: the part travels as drag data, and "Dragging <name>" is logged. */
    method DragStart(ws: Workspace, part: ComponentDefinition, now: nat) returns (data: Option<ComponentDefinition>)
      requires ws.Valid()
      modifies ws
      ensures ws.Valid()
      ensures data == Some(part)
      ensures ws.feedbackMessages == Prepend(old(ws.feedbackMessages), Message(Info, "Dragging " + part.name, now))
      ensures ws.KeepsRecords() && ws.KeepsModeState() && ws.KeepsCanvas()
    {
      ws.AddFeedback(Info, "Dragging " + part.name, now);
      data := Some(part);
    }
  }
}
