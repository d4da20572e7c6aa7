# Expandable table sections

A model of the one screen of the Expandable-Table-Sections app: a table whose
sections collapse and expand when their header is tapped. The controller
`TableViewController` owns a list of `TableItem` records, each holding a
section title, the labels of its rows and an `expanded` flag. It seeds three
placeholder sections when the view loads. It answers the table view's
data-source questions from that list: how many sections, how many rows, which
label, which header title, how tall a row is. A tap on a header flips that
section's flag in place and reloads the section's rows.

- `table_model.dfy`, module `TableModel`: the `TableItem` and `IndexPath`
  records, the data-source queries as functions of the list, `Toggled` (the
  list after one tap), `Taps` (after a sequence of taps) and the lemmas about
  them.
- `table_view_controller.dfy`, module `TableController`: the class
  `TableViewController` with its `list` field. Its methods update the field in
  place, and their contracts tie the new list to `Toggled` and to
  `PlaceholderSections`.

A collapsed section still reports all of its rows: the row count is the number
of labels whatever the flag says, and collapsing works through row height alone,
which is 0 for the rows of a collapsed section (`TableViewController.swift:45`,
`:84-92`).

An index out of range makes the Swift array subscript trap. Every query
therefore has a `requires` that the section index (and, for a label, the row
index) is in range. The table view only asks about positions it was told exist.
The row height query subscripts only the section, so it asks nothing of the row.

## Model

| member | source | states |
|---|---|---|
| `TableController.TableViewController.constructor` | ExpandableSections/TableViewController.swift:21 | a new controller holds no sections |
| `TableController.TableViewController.ViewDidLoad` | ExpandableSections/TableViewController.swift:23-35 | loading appends the three placeholder sections, in order, to the list |
| `TableModel.PlaceholderSections` | ExpandableSections/TableViewController.swift:27-29 | the seeded records: three sections titled First, Second, Third in that order, each with the labels item1, item2, item3 and expanded |
| `TableModel.PlaceholderShape` | ExpandableSections/TableViewController.swift:27-33 | the loaded list has 3 sections titled First, Second, Third, each with the rows item1, item2, item3, all shown at height 44 |
| `TableModel.NumberOfSections` | ExpandableSections/TableViewController.swift:38-41 | the section indices the table may use are exactly 0 up to the count |
| `TableModel.NumberOfRows` | ExpandableSections/TableViewController.swift:43-46 | the number of labels of the section, whatever its flag: the rows below the count are exactly the rows whose label can be looked up |
| `TableModel.CellLabel` | ExpandableSections/TableViewController.swift:54 | the label of a row is one of its section's labels, whether or not the section is expanded |
| `TableModel.TitleForHeader` | ExpandableSections/TableViewController.swift:59-63 | the optional header title is always present and is the section's title |
| `TableModel.RowsIgnoreExpanded` | ExpandableSections/TableViewController.swift:43-54 | setting a section's flag either way leaves its row count and every row label unchanged, so a collapsed section reports all its rows |
| `TableModel.RowHeight` | ExpandableSections/TableViewController.swift:84-92 | a row's height is 44 exactly when its section is expanded and 0 exactly when it is collapsed |
| `TableModel.Toggled` | ExpandableSections/TableViewController.swift:100-105 | a tap negates the tapped section's flag and keeps its title and labels; the list length and every other section stay as they were |
| `TableModel.ToggleKeepsContent` | ExpandableSections/TableViewController.swift:38-63 | after a tap the section count, every row count, every header title and every cell label are those of before |
| `TableModel.ToggleFlipsHeights` | ExpandableSections/TableViewController.swift:84-105 | a tap switches the tapped section's rows between height 44 and 0 and leaves the height of every other section's rows alone |
| `TableModel.ToggleInvolution` | ExpandableSections/TableViewController.swift:100-105 | tapping the same header twice restores the list exactly |
| `TableModel.ToggleCommutes` | ExpandableSections/TableViewController.swift:100-105 | taps on two headers give the same list in either order: sections toggle independently |
| `TableModel.Taps` | ExpandableSections/TableViewController.swift:95-105 | any sequence of taps keeps the number of sections |
| `TableModel.TapsParity` | ExpandableSections/TableViewController.swift:95-105 | after any sequence of taps a section is expanded exactly when its initial flag agrees with having been tapped an even number of times; its title and labels never change |
| `TableController.TableViewController.ReloadRows` | ExpandableSections/TableViewController.swift:107-112 | the reload requests are rows 0 to count-1 of the section, ascending, so each row of the section exactly once and nothing else |
| `TableController.TableViewController.HeaderClicked` | ExpandableSections/TableViewController.swift:95-113 | a tap on the header of a section replaces the list by `Toggled` of it and requests a reload of every row of that section in ascending order |

## Left out

- The header's forced downcast of the gesture's view (`TableViewController.swift:98`): `HeaderClicked` takes the section index that `ExpandableHeader.section` carries.
- Header view construction and gesture-recogniser wiring (`:67-82`, `:118-120`): view plumbing with no state of its own beyond the section index.
- Cell dequeuing and the writing of the label into the cell (`:51-56`): only the label lookup is modelled, as `CellLabel`.
- The `beginUpdates`/`reloadRows`/`endUpdates` animation (`:108-112`): `ReloadRows` returns the index paths that are reloaded, in order, and nothing about the animation.
- `super.viewDidLoad()` and the view-controller lifecycle (`:24`): framework calls.
- CellLabel: its contract states only that the label is one of the section's labels; that it is the label at the row index is its definition, and `RowsIgnoreExpanded` states that the flag does not change it.
- `RowHeight`: returns the integers 44 and 0 rather than `CGFloat` values; no floating-point arithmetic happens.
- Out-of-range indices: the Swift subscript traps; every query, `ReloadRows` and `HeaderClicked` instead require the index in range, as the table view only passes positions it was told exist.
- Swift's 64-bit `Int` is modelled by unbounded integers; no count or index here comes near the bound.
