/** The screen's controller: it owns the section list, fills it when the
    view loads, and answers a header tap by flipping that section's flag in
    place and asking the table view to reload the section's rows. */
module TableController {
  import opened TableModel

  class TableViewController {
    /** The sections, in display order. */
    var list: seq<TableItem>

    /** A controller starts with no sections. */
    constructor ()
      ensures list == []
    {
      list := [];
    }

    /** Appends the three placeholder sections, one at a time. */
    method ViewDidLoad()
      modifies this
      ensures list == old(list) + PlaceholderSections()
    {
      var section1 := TableItem("First", ["item1", "item2", "item3"], true);
      var section2 := TableItem("Second", ["item1", "item2", "item3"], true);
      var section3 := TableItem("Third", ["item1", "item2", "item3"], true);
      list := list + [section1];
      list := list + [section2];
      list := list + [section3];
    }

    /** The reload requests for every row of `section`, in the order they
        are issued: each row of the section exactly once, ascending. */
    method ReloadRows(section: int) returns (rows: seq<IndexPath>)
      requires ValidSection(list, section)
      ensures |rows| == NumberOfRows(list, section)
      ensures forall i :: 0 <= i < |rows| ==> rows[i] == IndexPath(i, section)
      ensures forall p :: p in rows <==> p.section == section && ValidIndexPath(list, p)
    {
      rows := [];
      for i := 0 to |list[section].items|
        invariant |rows| == i
        invariant forall k :: 0 <= k < i ==> rows[k] == IndexPath(k, section)
      {
        rows := rows + [IndexPath(i, section)];
      }
      forall p: IndexPath | p.section == section && ValidIndexPath(list, p)
        ensures p in rows
      {
        assert rows[p.row] == p;
      }
    }

    /** A tap on the header of `section`: flip its flag in place, then
        reload its rows. Returns the reload requests. */
    method HeaderClicked(section: int) returns (reloaded: seq<IndexPath>)
      requires ValidSection(list, section)
      modifies this
      ensures list == Toggled(old(list), section)
      ensures |reloaded| == NumberOfRows(old(list), section)
      ensures forall i :: 0 <= i < |reloaded| ==> reloaded[i] == IndexPath(i, section)
    {
      if list[section].expanded {
        list := list[section := list[section].(expanded := false)];
      } else {
        list := list[section := list[section].(expanded := true)];
      }
      reloaded := ReloadRows(section);
    }
  }
}
