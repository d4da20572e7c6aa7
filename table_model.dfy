/** The section list behind the expandable-sections screen: the section
    records, the data-source queries the table view asks of them, and the
    effect of tapping a section header, all as functions of the list value.
    The controller that owns the list and updates it in place is in
    module TableController. */
module TableModel {

  /** One section of the table: its header title, its row labels, and
      whether its rows are currently shown. */
  datatype TableItem = TableItem(section: string, items: seq<string>, expanded: bool)

  /** A value that may be absent, as an optional return of the data source. */
  datatype Option<T> = None | Some(value: T)

  /** A row position as the table view hands it over: a row within a section. */
  datatype IndexPath = IndexPath(row: int, section: int)

  /** Height of every row of an expanded section. */
  const ShownRowHeight: int := 44
  /** Height of every row of a collapsed section: the row stays, unseen. */
  const HiddenRowHeight: int := 0

  /** A section index the list can be subscripted with. */
  predicate ValidSection(list: seq<TableItem>, section: int) {
    0 <= section < |list|
  }

  /** A row position whose label can be looked up. */
  predicate ValidIndexPath(list: seq<TableItem>, p: IndexPath) {
    ValidSection(list, p.section) && 0 <= p.row < |list[p.section].items|
  }

  /** The three placeholder sections the screen is loaded with. */
  function PlaceholderSections(): (r: seq<TableItem>)
    ensures |r| == 3
    ensures r[0].section == "First" && r[1].section == "Second" && r[2].section == "Third"
    ensures forall i :: 0 <= i < |r| ==> r[i].items == ["item1", "item2", "item3"] && r[i].expanded
  {
    [ TableItem("First", ["item1", "item2", "item3"], true),
      TableItem("Second", ["item1", "item2", "item3"], true),
      TableItem("Third", ["item1", "item2", "item3"], true) ]
  }

  // ---------------------------------------------------------------------
  // Data-source queries

  /** The sections the table may ask about are exactly those below the count. */
  function NumberOfSections(list: seq<TableItem>): (n: nat)
    ensures forall s :: ValidSection(list, s) <==> 0 <= s < n
  {
    |list|
  }

  /** Every label of the section, whether or not the section is expanded:
      the rows counted are exactly the rows whose label can be looked up. */
  function NumberOfRows(list: seq<TableItem>, section: int): (n: nat)
    requires ValidSection(list, section)
    ensures forall r :: ValidIndexPath(list, IndexPath(r, section)) <==> 0 <= r < n
  {
    |list[section].items|
  }

  /** The label of a row is one of its section's labels: the one at the row's
      position, shown or not. */
  function CellLabel(list: seq<TableItem>, p: IndexPath): (text: string)
    requires ValidIndexPath(list, p)
    ensures text in list[p.section].items
  {
    list[p.section].items[p.row]
  }

  /** The header title is optional in the data source's signature, but every
      section has one. */
  function TitleForHeader(list: seq<TableItem>, section: int): (title: Option<string>)
    requires ValidSection(list, section)
    ensures title.Some? && title.value == list[section].section
  {
    Some(list[section].section)
  }

  /** Collapsing is done by height alone; the row index is not consulted. */
  function RowHeight(list: seq<TableItem>, p: IndexPath): (h: int)
    requires ValidSection(list, p.section)
    ensures h == ShownRowHeight || h == HiddenRowHeight
    ensures h == ShownRowHeight <==> list[p.section].expanded
    ensures h == HiddenRowHeight <==> !list[p.section].expanded
  {
    if list[p.section].expanded then ShownRowHeight else HiddenRowHeight
  }

  // ---------------------------------------------------------------------
  // Header taps

  /** The list after a tap on the header of `section`. */
  function Toggled(list: seq<TableItem>, section: int): (r: seq<TableItem>)
    requires ValidSection(list, section)
    ensures |r| == |list|
    ensures r[section].expanded == !list[section].expanded
    ensures r[section].section == list[section].section
    ensures r[section].items == list[section].items
    ensures forall s :: 0 <= s < |list| && s != section ==> r[s] == list[s]
  {
    list[section := list[section].(expanded := !list[section].expanded)]
  }

  /** Every tap in `taps` names a section of `list`. */
  predicate ValidTaps(list: seq<TableItem>, taps: seq<int>) {
    forall i :: 0 <= i < |taps| ==> ValidSection(list, taps[i])
  }

  /** The list after the header taps `taps`, first tap first. */
  function Taps(list: seq<TableItem>, taps: seq<int>): (r: seq<TableItem>)
    requires ValidTaps(list, taps)
    ensures |r| == |list|
    decreases |taps|
  {
    if taps == [] then list else Taps(Toggled(list, taps[0]), taps[1..])
  }

  // ---------------------------------------------------------------------
  // Properties

  /** After loading, the screen has the sections First, Second and Third,
      each with the rows item1, item2, item3, all expanded. */
  lemma PlaceholderShape()
    ensures NumberOfSections(PlaceholderSections()) == 3
    ensures TitleForHeader(PlaceholderSections(), 0) == Some("First")
    ensures TitleForHeader(PlaceholderSections(), 1) == Some("Second")
    ensures TitleForHeader(PlaceholderSections(), 2) == Some("Third")
    ensures forall s :: 0 <= s < 3 ==>
              NumberOfRows(PlaceholderSections(), s) == 3 &&
              CellLabel(PlaceholderSections(), IndexPath(0, s)) == "item1" &&
              CellLabel(PlaceholderSections(), IndexPath(1, s)) == "item2" &&
              CellLabel(PlaceholderSections(), IndexPath(2, s)) == "item3"
    ensures forall p: IndexPath :: ValidSection(PlaceholderSections(), p.section) ==>
              RowHeight(PlaceholderSections(), p) == ShownRowHeight
  {
  }

  /** A collapsed section announces all of its rows, with the same labels:
      neither the row count nor a label depends on the expanded flag. */
  lemma RowsIgnoreExpanded(list: seq<TableItem>, section: int)
    requires ValidSection(list, section)
    ensures forall b: bool ::
              NumberOfRows(list[section := list[section].(expanded := b)], section) ==
              NumberOfRows(list, section)
    ensures forall b: bool, r ::
              ValidIndexPath(list, IndexPath(r, section)) ==>
              CellLabel(list[section := list[section].(expanded := b)], IndexPath(r, section)) ==
              CellLabel(list, IndexPath(r, section))
  {
  }

  /** A tap touches nothing the table shows except visibility: the section
      count, every row count, every title and every label stay. */
  lemma ToggleKeepsContent(list: seq<TableItem>, section: int)
    requires ValidSection(list, section)
    ensures NumberOfSections(Toggled(list, section)) == NumberOfSections(list)
    ensures forall s :: ValidSection(list, s) ==>
              NumberOfRows(Toggled(list, section), s) == NumberOfRows(list, s) &&
              TitleForHeader(Toggled(list, section), s) == TitleForHeader(list, s)
    ensures forall p :: ValidIndexPath(list, p) ==>
              ValidIndexPath(Toggled(list, section), p) &&
              CellLabel(Toggled(list, section), p) == CellLabel(list, p)
  {
  }

  /** A tap swaps the heights of the rows of the tapped section between
      shown and hidden and leaves every other row's height alone. */
  lemma ToggleFlipsHeights(list: seq<TableItem>, section: int)
    requires ValidSection(list, section)
    ensures forall p: IndexPath :: ValidSection(list, p.section) && p.section == section ==>
              (RowHeight(Toggled(list, section), p) == ShownRowHeight <==>
               RowHeight(list, p) == HiddenRowHeight)
    ensures forall p: IndexPath :: ValidSection(list, p.section) && p.section != section ==>
              RowHeight(Toggled(list, section), p) == RowHeight(list, p)
  {
  }

  /** Tapping the same header twice restores the list exactly. */
  lemma ToggleInvolution(list: seq<TableItem>, section: int)
    requires ValidSection(list, section)
    ensures Toggled(Toggled(list, section), section) == list
  {
  }

  /** Sections expand and collapse independently: the order of two taps
      does not matter. */
  lemma ToggleCommutes(list: seq<TableItem>, s: int, t: int)
    requires ValidSection(list, s) && ValidSection(list, t)
    ensures Toggled(Toggled(list, s), t) == Toggled(Toggled(list, t), s)
  {
  }

  /** After any sequence of taps, a section is expanded exactly when it was
      expanded before and was tapped an even number of times, or was
      collapsed and was tapped an odd number of times; its title and labels
      never change. */
  lemma {:induction false} TapsParity(list: seq<TableItem>, taps: seq<int>, section: int)
    requires ValidTaps(list, taps) && ValidSection(list, section)
    ensures Taps(list, taps)[section].expanded ==
            (list[section].expanded == (multiset(taps)[section] % 2 == 0))
    ensures Taps(list, taps)[section].section == list[section].section
    ensures Taps(list, taps)[section].items == list[section].items
    decreases |taps|
  {
    if taps != [] {
      var next := Toggled(list, taps[0]);
      TapsParity(next, taps[1..], section);
      assert taps == [taps[0]] + taps[1..];
      assert multiset(taps) == multiset{taps[0]} + multiset(taps[1..]);
    }
  }
}
