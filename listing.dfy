/** The listing side of the folder browser: the catalog query of
    `Folder_BrowseContent` (items below the folder, content only, the
    search form's clauses), the custom-key sort and batch of the results,
    and the column heads of the preview table with their sort toggle. */
module FolderListing {
  import opened Common
  import opened Tree
  import opened Catalog

  // ---------------------------------------------------------------------
  // Folder_BrowseContent.get_search_query (folder_views.py:342-354)
  // ---------------------------------------------------------------------

  /** A decoded form value: a (unicode) string, or the list of a
      `multiple` datatype. Python's truth test is "not empty". */
  datatype FormValue = Text(s: string) | Many(xs: seq<string>)

  predicate Truthy(v: FormValue)
  {
    match v
    case Text(s) => s != ""
    case Many(xs) => |xs| > 0
  }

  /** `for x in value`: the items of a list, the one-letter strings of a
      string. */
  function Items(v: FormValue): (r: seq<string>)
    ensures |r| > 0 <==> Truthy(v)
  {
    match v
    case Text(s) => seq(|s|, i requires 0 <= i < |s| => [s[i]])
    case Many(xs) => xs
  }

  function ValueTerm(v: FormValue): Term
  {
    match v
    case Text(s) => Word(s)
    case Many(xs) => Words(xs)
  }

  /** An entry of `search_schema`: the key and whether its datatype is
      `multiple`. */
  datatype SearchField = SearchField(key: string, multiple: bool)

  /** `OrQuery(*[PhraseQuery(key, x) for x in xs])`. */
  function OrOfPhrases(key: string, xs: seq<string>): (r: Query)
    ensures r.OrQuery? && |r.subs| == |xs|
    ensures forall i :: 0 <= i < |xs| ==> r.subs[i] == PhraseQuery(key, Word(xs[i]))
  {
    OrQuery(seq(|xs|, i requires 0 <= i < |xs| => PhraseQuery(key, Word(xs[i]))))
  }

  /** The clause one form field adds to the search, if any: full text for
      'text', one phrase per value (any may match) for a multiple field, a
      phrase for the rest; an empty value adds nothing. */
  function SearchClause(f: SearchField, v: FormValue): (r: Option<Query>)
    ensures r.None? <==> !Truthy(v)
    ensures r.Some? && f.key == "text" ==> r.value.TextQuery? && r.value.field == "text"
    ensures r.Some? && f.key != "text" && f.multiple ==>
              r.value.OrQuery? && |r.value.subs| == |Items(v)| &&
              forall i :: 0 <= i < |Items(v)| ==> r.value.subs[i] == PhraseQuery(f.key, Word(Items(v)[i]))
    ensures r.Some? && f.key != "text" && !f.multiple ==> r.value == PhraseQuery(f.key, ValueTerm(v))
  {
    if Truthy(v) && f.key == "text" then Some(TextQuery(f.key, ValueTerm(v)))
    else if Truthy(v) && f.multiple then Some(OrOfPhrases(f.key, Items(v)))
    else if Truthy(v) then Some(PhraseQuery(f.key, ValueTerm(v)))
    else None
  }

  /** The clauses of the fields of `schema`, in schema order. */
  function SearchClauses(schema: seq<SearchField>, form: string -> FormValue): seq<Query>
  {
    if |schema| == 0 then []
    else
      var last := schema[|schema| - 1];
      SearchClauses(schema[..|schema| - 1], form) +
      (match SearchClause(last, form(last.key)) case Some(q) => [q] case None => [])
  }

  /** `get_search_query(*args)`: the queries passed in, then one clause per
      filled-in field of the search form. */
  method GetSearchQuery(args: seq<Query>, schema: seq<SearchField>, form: string -> FormValue)
    returns (queries: seq<Query>)
    ensures queries == args + SearchClauses(schema, form)
  {
    queries := args;
    for i := 0 to |schema|
      invariant queries == args + SearchClauses(schema[..i], form)
    {
      var f := schema[i];
      var value := form(f.key);
      assert schema[..i + 1][..i] == schema[..i] && schema[..i + 1][i] == f;
      if Truthy(value) && f.key == "text" {
        queries := queries + [TextQuery(f.key, ValueTerm(value))];
      } else if Truthy(value) && f.multiple {
        queries := queries + [OrOfPhrases(f.key, Items(value))];
      } else if Truthy(value) {
        queries := queries + [PhraseQuery(f.key, ValueTerm(value))];
      }
    }
    assert schema[..|schema|] == schema;
  }

  /** What a search clause asks of a document: a multiple field matches
      when any of its values does, the others when their one leaf does. */
  lemma SearchClauseHolds(f: SearchField, v: FormValue, leaf: Query -> bool)
    requires Truthy(v)
    ensures f.key != "text" && f.multiple ==>
              (Holds(SearchClause(f, v).value, leaf) <==>
               exists i :: 0 <= i < |Items(v)| && leaf(PhraseQuery(f.key, Word(Items(v)[i]))))
    ensures f.key == "text" || !f.multiple ==> (Holds(SearchClause(f, v).value, leaf) <==> leaf(SearchClause(f, v).value))
  {
    var q := SearchClause(f, v).value;
    if f.key != "text" && f.multiple {
      if Holds(q, leaf) {
        var i :| 0 <= i < |q.subs| && Holds(q.subs[i], leaf);
        assert leaf(PhraseQuery(f.key, Word(Items(v)[i])));
      }
      if exists i :: 0 <= i < |Items(v)| && leaf(PhraseQuery(f.key, Word(Items(v)[i]))) {
        var i :| 0 <= i < |Items(v)| && leaf(PhraseQuery(f.key, Word(Items(v)[i])));
        assert Holds(q.subs[i], leaf);
      }
    }
  }

  /** A field adds a clause exactly when its form value is filled in, and
      every clause comes from a field of the schema. */
  lemma {:induction false} SearchClausesFrom(schema: seq<SearchField>, form: string -> FormValue)
    ensures |SearchClauses(schema, form)| <= |schema|
    ensures forall k :: 0 <= k < |SearchClauses(schema, form)| ==>
              exists i :: 0 <= i < |schema| && SearchClause(schema[i], form(schema[i].key)) == Some(SearchClauses(schema, form)[k])
    ensures (forall i :: 0 <= i < |schema| ==> !Truthy(form(schema[i].key))) <==> SearchClauses(schema, form) == []
  {
    if |schema| > 0 {
      var init, last := schema[..|schema| - 1], schema[|schema| - 1];
      SearchClausesFrom(init, form);
      var r, ri := SearchClauses(schema, form), SearchClauses(init, form);
      forall k | 0 <= k < |r|
        ensures exists i :: 0 <= i < |schema| && SearchClause(schema[i], form(schema[i].key)) == Some(r[k])
      {
        if k < |ri| {
          var i :| 0 <= i < |init| && SearchClause(init[i], form(init[i].key)) == Some(ri[k]);
          assert schema[i] == init[i] && r[k] == ri[k];
        } else {
          assert schema[|schema| - 1] == last;
        }
      }
      if forall i :: 0 <= i < |schema| ==> !Truthy(form(schema[i].key)) {
        assert forall i :: 0 <= i < |init| ==> init[i] == schema[i];
        assert !Truthy(form(schema[|schema| - 1].key));
      }
      if r == [] {
        forall i | 0 <= i < |schema|
          ensures !Truthy(form(schema[i].key))
        {
          if i < |init| {
            assert init[i] == schema[i];
          }
        }
      }
    }
  }

  // ---------------------------------------------------------------------
  // Folder_BrowseContent.get_items_query / get_items (folder_views.py:330-375)
  // ---------------------------------------------------------------------

  /** `get_items_query`: the subtree of the folder (down to `depth`
      levels), and only content when the view searches content only. */
  function ItemsQuery(here: Path, depth: Option<nat>, contentOnly: bool): (r: seq<Query>)
    ensures |r| > 0 && r[0] == BasePathQuery(here, depth)
    ensures contentOnly <==> PhraseQuery("is_content", Flag(true)) in r
  {
    [BasePathQuery(here, depth)] + (if contentOnly then [PhraseQuery("is_content", Flag(true))] else [])
  }

  /** The folder's own queries hold of the documents below it, and of
      content only when asked. */
  lemma ItemsQueryHolds(here: Path, depth: Option<nat>, contentOnly: bool, leaf: Query -> bool)
    ensures AllHold(ItemsQuery(here, depth, contentOnly), leaf) <==>
            leaf(BasePathQuery(here, depth)) && (contentOnly ==> leaf(PhraseQuery("is_content", Flag(true))))
  {
    var items := ItemsQuery(here, depth, contentOnly);
    assert Holds(items[0], leaf) == leaf(BasePathQuery(here, depth));
    if contentOnly {
      assert |items| == 2 && Holds(items[1], leaf) == leaf(PhraseQuery("is_content", Flag(true)));
    } else {
      assert |items| == 1;
    }
  }

  /** Every query of qs holds: what an AndQuery of them asks. */
  predicate AllHold(qs: seq<Query>, leaf: Query -> bool)
  {
    forall i :: 0 <= i < |qs| ==> Holds(qs[i], leaf)
  }

  /** One query stands for itself; several (or none) are ANDed. */
  function Combine(qs: seq<Query>): (r: Query)
    ensures |qs| == 1 ==> r == qs[0]
    ensures |qs| != 1 ==> r.AndQuery? && r.subs == qs
  {
    if |qs| == 1 then qs[0] else AndQuery(qs)
  }

  /** Unwrapping a lone query does not change what the search finds. */
  lemma CombineHolds(qs: seq<Query>, leaf: Query -> bool)
    ensures Holds(Combine(qs), leaf) <==> AllHold(qs, leaf)
  {
  }

  /** The query `get_items` hands to the catalog. */
  function GetItemsQuery(args: seq<Query>, here: Path, depth: Option<nat>, contentOnly: bool,
                         schema: seq<SearchField>, form: string -> FormValue): Query
  {
    Combine(args + ItemsQuery(here, depth, contentOnly) + SearchClauses(schema, form))
  }

  /** Every query of a concatenation holds when every query of both parts does. */
  lemma AllHoldConcat(a: seq<Query>, b: seq<Query>, leaf: Query -> bool)
    ensures AllHold(a + b, leaf) <==> AllHold(a, leaf) && AllHold(b, leaf)
  {
    if AllHold(a, leaf) && AllHold(b, leaf) {
      forall i | 0 <= i < |a + b|
        ensures Holds((a + b)[i], leaf)
      {
        if i >= |a| {
          assert (a + b)[i] == b[i - |a|];
        }
      }
    }
    if AllHold(a + b, leaf) {
      forall i | 0 <= i < |a|
        ensures Holds(a[i], leaf)
      {
        assert (a + b)[i] == a[i];
      }
      forall i | 0 <= i < |b|
        ensures Holds(b[i], leaf)
      {
        assert (a + b)[|a| + i] == b[i];
      }
    }
  }

  /** A document is listed exactly when it meets every query passed in, lies
      below the folder, is content (if asked), and meets every clause of the
      search form. */
  lemma GetItemsQueryHolds(args: seq<Query>, here: Path, depth: Option<nat>, contentOnly: bool,
                           schema: seq<SearchField>, form: string -> FormValue, leaf: Query -> bool)
    ensures Holds(GetItemsQuery(args, here, depth, contentOnly, schema, form), leaf) <==>
              (AllHold(args, leaf) &&
               leaf(BasePathQuery(here, depth)) &&
               (contentOnly ==> leaf(PhraseQuery("is_content", Flag(true)))) &&
               AllHold(SearchClauses(schema, form), leaf))
  {
    var items, search := ItemsQuery(here, depth, contentOnly), SearchClauses(schema, form);
    CombineHolds(args + items + search, leaf);
    AllHoldConcat(args + items, search, leaf);
    AllHoldConcat(args, items, leaf);
    ItemsQueryHolds(here, depth, contentOnly, leaf);
  }

  // ---------------------------------------------------------------------
  // Folder_BrowseContent.sort_and_batch (folder_views.py:443-467)
  // ---------------------------------------------------------------------

  /** The columns with a `get_key_sorted_by_<name>` method of their own. */
  const CustomKeys: set<string> := {"title", "format", "last_author", "state"}

  /** The page of results: sorted and cut here, or left to the catalog's
      own sort and batch (which this model does not evaluate). */
  datatype Page<T> = Custom(items: seq<T>) | CatalogPage(sortBy: Option<string>, reverse: bool, start: int, size: int)

  /** `items[start:start+size]` when size is set, `items[start:]` when
      only start is, and everything otherwise. */
  function Window<T>(items: seq<T>, start: int, size: int): seq<T>
  {
    if size != 0 then PySlice(items, start, start + size)
    else if start != 0 then PySlice(items, start, |items|)
    else items
  }

  /** The window holds items only. */
  lemma WindowSub<T>(items: seq<T>, start: int, size: int)
    ensures multiset(Window(items, start, size)) <= multiset(items)
  {
    if size != 0 {
      assert Window(items, start, size) == PySlice(items, start, start + size);
      PySliceSub(items, start, start + size);
    } else if start != 0 {
      assert Window(items, start, size) == PySlice(items, start, |items|);
      PySliceSub(items, start, |items|);
    }
  }

  /** A window of size n > 0 holds at most n items. */
  lemma WindowAtMost<T>(items: seq<T>, start: int, size: int)
    requires size > 0
    ensures |Window(items, start, size)| <= size
  {
    PySliceAtMost(items, start, size);
  }

  /** A window of sorted items is sorted. */
  lemma WindowSorted<T>(items: seq<T>, start: int, size: int, le: (T, T) -> bool)
    requires SortedBy(items, le)
    ensures SortedBy(Window(items, start, size), le)
  {
    if size != 0 {
      SliceSorted(items, le, start, start + size);
    } else if start != 0 {
      SliceSorted(items, le, start, |items|);
    }
  }

  /** The window is the run of items from `start` on. */
  lemma WindowAt<T>(items: seq<T>, start: int, size: int, k: nat)
    requires 0 <= start && k < |Window(items, start, size)|
    ensures start + k < |items| && Window(items, start, size)[k] == items[start + k]
  {
    if size != 0 {
      PySliceAt(items, start, start + size, k);
    } else if start != 0 {
      PySliceAt(items, start, |items|, k);
    }
  }

  /** The custom sort (stable, every comparison turned round for
      `reverse`) followed by the window. */
  function SortAndBatch<T>(results: seq<T>, sortBy: Option<string>, reverse: bool, start: int, size: int,
                           keyLe: string -> ((T, T) -> bool)): (r: Page<T>)
    ensures r.Custom? <==> sortBy.Some? && sortBy.value in CustomKeys
    ensures r.CatalogPage? ==> r == CatalogPage(sortBy, reverse, start, size)
    ensures r.Custom? && size == 0 && start == 0 ==> multiset(r.items) == multiset(results)
  {
    if sortBy.Some? && sortBy.value in CustomKeys then
      var le := keyLe(sortBy.value);
      Custom(Window(SortBy(results, if reverse then Flip(le) else le), start, size))
    else
      CatalogPage(sortBy, reverse, start, size)
  }

  /** A custom page holds results only, never more than `size` of them,
      and its k-th item is the sorted results' item `start + k` (for a
      start within the list). */
  lemma SortAndBatchPage<T(!new)>(results: seq<T>, sortBy: Option<string>, reverse: bool, start: int, size: int,
                                  keyLe: string -> ((T, T) -> bool))
    requires sortBy.Some? && sortBy.value in CustomKeys
    ensures var r := SortAndBatch(results, sortBy, reverse, start, size, keyLe);
            var le := keyLe(sortBy.value);
            var sorted := SortBy(results, if reverse then Flip(le) else le);
            multiset(r.items) <= multiset(results) &&
            (size > 0 ==> |r.items| <= size) &&
            (0 <= start ==> forall k :: 0 <= k < |r.items| ==> start + k < |sorted| && r.items[k] == sorted[start + k])
  {
    var le := keyLe(sortBy.value);
    var ord := if reverse then Flip(le) else le;
    var sorted := SortBy(results, ord);
    assert SortAndBatch(results, sortBy, reverse, start, size, keyLe).items == Window(sorted, start, size);
    WindowFacts(sorted, start, size);
  }

  lemma WindowFacts<T>(items: seq<T>, start: int, size: int)
    ensures var w := Window(items, start, size);
            multiset(w) <= multiset(items) &&
            (size > 0 ==> |w| <= size) &&
            (0 <= start ==> forall k :: 0 <= k < |w| ==> start + k < |items| && w[k] == items[start + k])
  {
    var w := Window(items, start, size);
    WindowSub(items, start, size);
    if size > 0 {
      WindowAtMost(items, start, size);
    }
    if 0 <= start {
      forall k | 0 <= k < |w|
        ensures start + k < |items| && w[k] == items[start + k]
      {
        WindowAt(items, start, size, k);
      }
    }
  }

  /** The page of a sort on a custom key is in key order (reversed for
      `reverse`) when the key comparison is a total preorder. */
  lemma SortAndBatchSorted<T(!new)>(results: seq<T>, sortBy: Option<string>, reverse: bool, start: int, size: int,
                                    keyLe: string -> ((T, T) -> bool))
    requires sortBy.Some? && sortBy.value in CustomKeys
    requires Total(keyLe(sortBy.value)) && Transitive(keyLe(sortBy.value))
    ensures var le := keyLe(sortBy.value);
            SortedBy(SortAndBatch(results, sortBy, reverse, start, size, keyLe).items, if reverse then Flip(le) else le)
  {
    var le := keyLe(sortBy.value);
    var ord := if reverse then Flip(le) else le;
    var sorted := SortBy(results, ord);
    assert SortAndBatch(results, sortBy, reverse, start, size, keyLe).items == Window(sorted, start, size);
    if reverse {
      FlipTotalPreorder(le);
    }
    SortBySorted(results, ord);
    WindowSorted(sorted, start, size, ord);
  }

  lemma SliceSorted<T>(s: seq<T>, le: (T, T) -> bool, i: int, j: int)
    requires SortedBy(s, le)
    ensures SortedBy(PySlice(s, i, j), le)
  {
    forall a, b | 0 <= a < b < |PySlice(s, i, j)|
      ensures le(PySlice(s, i, j)[a], PySlice(s, i, j)[b])
    {
      PySliceAt(s, i, j, a);
      PySliceAt(s, i, j, b);
    }
  }

  // ---------------------------------------------------------------------
  // Folder_PreviewContent.get_table_head (folder_views.py:771-808)
  // ---------------------------------------------------------------------

  /** A table column: its name, its title (None for a column with no
      head) and whether the listing may be sorted by it. */
  datatype Column = Column(name: string, title: Option<string>, sortable: bool)

  /** A column head: the select-all checkbox, a title without a link, or a
      title whose link sorts by the column, with the arrow showing the
      current order ('up', 'down' or 'none'). */
  datatype Head =
    | CheckboxHead
    | PlainHead(title: string)
    | SortHead(title: string, order: string, sortBy: string, reverse: bool)

  /** The head of one column, if it has one. */
  function ColumnHead(c: Column, hasActions: bool, sortBy: Option<string>, reverse: bool): (r: Option<Head>)
    ensures c.name == "checkbox" ==> (r.Some? <==> hasActions) && (r.Some? ==> r.value == CheckboxHead)
    ensures c.name != "checkbox" ==> (r.Some? <==> c.title.Some?)
    ensures c.name != "checkbox" && c.title.Some? && !c.sortable ==> r == Some(PlainHead(c.title.value))
    ensures r.Some? && r.value.SortHead? ==>
              c.sortable && r.value.title == c.title.value && r.value.sortBy == c.name &&
              (r.value.order == "none" <==> sortBy != Some(c.name))
  {
    if c.name == "checkbox" then
      if hasActions then Some(CheckboxHead) else None
    else if c.title.None? then None
    else if !c.sortable then Some(PlainHead(c.title.value))
    else if sortBy == Some(c.name) then
      Some(SortHead(c.title.value, if reverse then "up" else "down", c.name, !reverse))
    else
      Some(SortHead(c.title.value, "none", c.name, false))
  }

  /** The toggle: following a sortable column's link shows that column
      sorted ('down' the first time, since the link asks for ascending
      order), and following the link of the new head turns the order
      round each time. */
  lemma SortToggle(c: Column, hasActions: bool, sortBy: Option<string>, reverse: bool)
    requires c.name != "checkbox" && c.title.Some? && c.sortable
    ensures var h := ColumnHead(c, hasActions, sortBy, reverse).value;
            var h2 := ColumnHead(c, hasActions, Some(h.sortBy), h.reverse).value;
            h2.SortHead? && h2.order != "none" && h2.reverse == !h.reverse &&
            (sortBy != Some(c.name) ==> h2.order == "down") &&
            (h2.order == "up" <==> h.reverse)
  {
  }

  /** The heads of the columns, in column order, skipping those without one. */
  function TableHeads(cs: seq<Column>, hasActions: bool, sortBy: Option<string>, reverse: bool): seq<Head>
  {
    if |cs| == 0 then []
    else
      TableHeads(cs[..|cs| - 1], hasActions, sortBy, reverse) +
      (match ColumnHead(cs[|cs| - 1], hasActions, sortBy, reverse) case Some(h) => [h] case None => [])
  }

  /** Whether a column has a head. */
  function HasHead(hasActions: bool, sortBy: Option<string>, reverse: bool): Column -> bool
  {
    (c: Column) => ColumnHead(c, hasActions, sortBy, reverse).Some?
  }

  /** One head per column that has one, in column order: the k-th head is
      the head of the k-th such column. */
  lemma {:induction false} TableHeadsPerColumn(cs: seq<Column>, hasActions: bool, sortBy: Option<string>, reverse: bool)
    ensures var heads, shown := TableHeads(cs, hasActions, sortBy, reverse), Filter(cs, HasHead(hasActions, sortBy, reverse));
      |heads| == |shown| &&
      forall k :: 0 <= k < |heads| ==> Some(heads[k]) == ColumnHead(shown[k], hasActions, sortBy, reverse)
  {
    if |cs| > 0 {
      var n := |cs| - 1;
      var has := HasHead(hasActions, sortBy, reverse);
      TableHeadsPerColumn(cs[..n], hasActions, sortBy, reverse);
      var heads0, shown0 := TableHeads(cs[..n], hasActions, sortBy, reverse), Filter(cs[..n], has);
      assert Filter(cs, has) == shown0 + (if has(cs[n]) then [cs[n]] else []);
      assert has(cs[n]) == ColumnHead(cs[n], hasActions, sortBy, reverse).Some?;
    }
  }

  /** Each head comes from a column, and at most as many heads as columns;
      when column names are distinct only the current sort column shows an
      arrow. */
  lemma {:induction false} TableHeadsFacts(cs: seq<Column>, hasActions: bool, sortBy: Option<string>, reverse: bool)
    ensures |TableHeads(cs, hasActions, sortBy, reverse)| <= |cs|
    ensures forall h :: h in TableHeads(cs, hasActions, sortBy, reverse) && h.SortHead? && h.order != "none" ==>
              sortBy == Some(h.sortBy) && exists i :: 0 <= i < |cs| && cs[i].name == h.sortBy
  {
    if |cs| > 0 {
      var init := cs[..|cs| - 1];
      TableHeadsFacts(init, hasActions, sortBy, reverse);
      forall h | h in TableHeads(cs, hasActions, sortBy, reverse) && h.SortHead? && h.order != "none"
        ensures sortBy == Some(h.sortBy) && exists i :: 0 <= i < |cs| && cs[i].name == h.sortBy
      {
        if h in TableHeads(init, hasActions, sortBy, reverse) {
          var i :| 0 <= i < |init| && init[i].name == h.sortBy;
          assert cs[i] == init[i];
        } else {
          assert cs[|cs| - 1].name == h.sortBy;
        }
      }
    }
  }

  /** `get_table_head` as written: it builds the heads and falls off the
      end, so the caller receives None. */
  function GetTableHeadAsWritten(cs: seq<Column>, hasActions: bool, sortBy: Option<string>, reverse: bool): (r: Option<seq<Head>>)
    ensures r.None?
  {
    var _ := TableHeads(cs, hasActions, sortBy, reverse);
    None
  }

  /** `get_table_head` returning the heads it builds: one per column that
      has a head, in column order. */
  function GetTableHead(cs: seq<Column>, hasActions: bool, sortBy: Option<string>, reverse: bool): (r: Option<seq<Head>>)
    ensures r.Some? && |r.value| <= |cs|
    ensures var shown := Filter(cs, HasHead(hasActions, sortBy, reverse));
      |r.value| == |shown| &&
      forall k :: 0 <= k < |r.value| ==> Some(r.value[k]) == ColumnHead(shown[k], hasActions, sortBy, reverse)
  {
    TableHeadsFacts(cs, hasActions, sortBy, reverse);
    TableHeadsPerColumn(cs, hasActions, sortBy, reverse);
    Some(TableHeads(cs, hasActions, sortBy, reverse))
  }

  /** A preview table with one titled column: the heads built hold that
      column's head, but the code as written hands back nothing. */
  lemma TableHeadLost()
    ensures var cs := [Column("title", Some("Title"), true)];
            GetTableHead(cs, false, None, false) == Some([SortHead("Title", "none", "title", false)]) &&
            GetTableHeadAsWritten(cs, false, None, false) == None
  {
    var cs := [Column("title", Some("Title"), true)];
    assert cs[..0] == [];
    assert TableHeads(cs[..0], false, None, false) == [];
    assert ColumnHead(cs[0], false, None, false) == Some(SortHead("Title", "none", "title", false));
    assert TableHeads(cs, false, None, false) == [SortHead("Title", "none", "title", false)];
  }
}
