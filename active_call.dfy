/**
 * Model of `Stats::ActiveCall.to_stacked_chart` (app/models/stats/active_call.rb):
 * the active-call samples of the last hours, restricted to known nodes, grouped
 * by node name, one chart series per name.
 *
 * The database query is modelled by its result: the plucked rows, in the order
 * the database returns them, and the id-to-name map of the nodes. The timestamp
 * formatter `to_datetime.to_fs(:db)` is the parameter `format`.
 */
module ActiveCallChart {

  /** One plucked row: `[created_at, count, node_id]`. */
  datatype Row = Row(createdAt: int, count: int, nodeId: int)

  /** One chart value: `[formatted created_at, count]`. */
  datatype Point = Point(time: string, count: int)

  /** One chart series: `{key: name, values: [...]}`. */
  datatype Entry = Entry(key: string, values: seq<Point>)

  /** One group of `group_by`: a node name and its rows. */
  datatype Group = Group(name: string, rows: seq<Row>)

  /** `row` belongs to a known node and that node is called `name`. */
  predicate Named(nodes: map<int, string>, row: Row, name: string)
  {
    row.nodeId in nodes && nodes[row.nodeId] == name
  }

  /** `where(node_id: nodes.keys)`: the rows of known nodes, order kept. */
  function Selected(rows: seq<Row>, nodes: map<int, string>): (r: seq<Row>)
    ensures forall k :: 0 <= k < |r| ==> r[k].nodeId in nodes
    ensures |r| <= |rows|
  {
    if rows == [] then []
    else
      var last := rows[|rows| - 1];
      Selected(rows[..|rows| - 1], nodes) + (if last.nodeId in nodes then [last] else [])
  }

  /** The rows whose node is called `name`, in their original order. */
  function RowsNamed(rows: seq<Row>, nodes: map<int, string>, name: string): seq<Row>
  {
    if rows == [] then []
    else
      var last := rows[|rows| - 1];
      RowsNamed(rows[..|rows| - 1], nodes, name) + (if Named(nodes, last, name) then [last] else [])
  }

  /** The rows of a name are rows of the input, and each belongs to a node of that name. */
  lemma {:induction false} RowsNamedMembers(rows: seq<Row>, nodes: map<int, string>, name: string)
    ensures forall k :: 0 <= k < |RowsNamed(rows, nodes, name)| ==>
      Named(nodes, RowsNamed(rows, nodes, name)[k], name) && RowsNamed(rows, nodes, name)[k] in rows
  {
    if rows != [] {
      RowsNamedMembers(rows[..|rows| - 1], nodes, name);
    }
  }

  /** The rows of node `id`, in their original order. */
  function RowsOfNode(rows: seq<Row>, id: int): seq<Row>
  {
    if rows == [] then []
    else
      var last := rows[|rows| - 1];
      RowsOfNode(rows[..|rows| - 1], id) + (if last.nodeId == id then [last] else [])
  }

  /** The index of the first row whose node is called `name`; `|rows|` if there is none. */
  function First(rows: seq<Row>, nodes: map<int, string>, name: string): (k: nat)
    ensures k <= |rows|
    ensures k < |rows| ==> Named(nodes, rows[k], name)
    ensures forall j :: 0 <= j < k && j < |rows| ==> !Named(nodes, rows[j], name)
  {
    if rows == [] then 0
    else
      var k := First(rows[..|rows| - 1], nodes, name);
      if k < |rows| - 1 then k
      else if Named(nodes, rows[|rows| - 1], name) then |rows| - 1
      else |rows|
  }

  /** The position of the group called `name`; `|groups|` if there is none. */
  function IndexOf(groups: seq<Group>, name: string): (i: nat)
    ensures i <= |groups|
    ensures i < |groups| ==> groups[i].name == name
    ensures forall j :: 0 <= j < i ==> groups[j].name != name
  {
    if groups == [] then 0
    else if groups[0].name == name then 0
    else 1 + IndexOf(groups[1..], name)
  }

  /** One step of `group_by`: append `row` to the group of `name`, opening a
      new group at the end when `name` has none yet. */
  function Add(groups: seq<Group>, name: string, row: Row): seq<Group>
  {
    var i := IndexOf(groups, name);
    if i == |groups| then groups + [Group(name, [row])]
    else groups[i := Group(name, groups[i].rows + [row])]
  }

  /** `group_by { |n| nodes[n.last] }` over rows of known nodes. */
  function GroupByName(rows: seq<Row>, nodes: map<int, string>): seq<Group>
    requires forall k :: 0 <= k < |rows| ==> rows[k].nodeId in nodes
  {
    if rows == [] then []
    else
      var last := rows[|rows| - 1];
      Add(GroupByName(rows[..|rows| - 1], nodes), nodes[last.nodeId], last)
  }

  /** The values of one series. */
  function Points(rows: seq<Row>, format: int -> string): (ps: seq<Point>)
  {
    seq(|rows|, k requires 0 <= k < |rows| => Point(format(rows[k].createdAt), rows[k].count))
  }

  /** `to_stacked_chart`. */
  function ToStackedChart(rows: seq<Row>, nodes: map<int, string>, format: int -> string): seq<Entry>
  {
    var groups := GroupByName(Selected(rows, nodes), nodes);
    seq(|groups|, i requires 0 <= i < |groups| => Entry(groups[i].name, Points(groups[i].rows, format)))
  }

  /** The names of the groups, in order. */
  function Names(groups: seq<Group>): seq<string>
  {
    seq(|groups|, i requires 0 <= i < |groups| => groups[i].name)
  }

  /** The number of rows in all groups. */
  function Total(groups: seq<Group>): nat
  {
    if groups == [] then 0 else |groups[0].rows| + Total(groups[1..])
  }

  /** The number of values in all series. */
  function TotalValues(chart: seq<Entry>): nat
  {
    if chart == [] then 0 else |chart[0].values| + TotalValues(chart[1..])
  }

  // ---------------------------------------------------------------------------
  // What `group_by` produces

  /** No two groups share a name. */
  ghost predicate DistinctNames(groups: seq<Group>)
  {
    forall i, j :: 0 <= i < j < |groups| ==> groups[i].name != groups[j].name
  }

  /** Each group holds exactly the rows of its name, in order, and at least one. */
  ghost predicate HoldsItsRows(groups: seq<Group>, rows: seq<Row>, nodes: map<int, string>)
  {
    forall i :: 0 <= i < |groups| ==> groups[i].rows == RowsNamed(rows, nodes, groups[i].name) != []
  }

  /** Every name that has rows has a group. */
  ghost predicate CoversNames(groups: seq<Group>, rows: seq<Row>, nodes: map<int, string>)
  {
    forall name :: RowsNamed(rows, nodes, name) != [] ==> name in Names(groups)
  }

  /** Groups come in the order of the first row of each name. */
  ghost predicate InFirstOrder(groups: seq<Group>, rows: seq<Row>, nodes: map<int, string>)
  {
    forall i, j :: 0 <= i < j < |groups| ==>
      First(rows, nodes, groups[i].name) < First(rows, nodes, groups[j].name)
  }

  /** `groups` is the grouping of `rows` by node name: one group per name that
      has rows, each holding exactly that name's rows in order, groups ordered
      by the first row of each name, and every row in exactly one group. */
  ghost predicate GroupsOf(groups: seq<Group>, rows: seq<Row>, nodes: map<int, string>)
  {
    && DistinctNames(groups)
    && HoldsItsRows(groups, rows, nodes)
    && CoversNames(groups, rows, nodes)
    && InFirstOrder(groups, rows, nodes)
    && Total(groups) == |rows|
  }

  /** A name has rows exactly when its first row exists. */
  lemma {:induction false} FirstIffRows(rows: seq<Row>, nodes: map<int, string>, name: string)
    ensures First(rows, nodes, name) < |rows| <==> RowsNamed(rows, nodes, name) != []
  {
    if rows != [] {
      FirstIffRows(rows[..|rows| - 1], nodes, name);
    }
  }

  lemma {:induction false} TotalAppend(groups: seq<Group>, g: Group)
    ensures Total(groups + [g]) == Total(groups) + |g.rows|
  {
    if groups != [] {
      assert (groups + [g])[1..] == groups[1..] + [g];
      TotalAppend(groups[1..], g);
    }
  }

  lemma {:induction false} TotalUpdate(groups: seq<Group>, i: nat, g: Group)
    requires i < |groups|
    ensures Total(groups[i := g]) == Total(groups) - |groups[i].rows| + |g.rows|
  {
    if i > 0 {
      assert groups[i := g][1..] == groups[1..][i - 1 := g];
      TotalUpdate(groups[1..], i - 1, g);
    }
  }

  /** How one more row changes the rows of each name and the first row of each name. */
  lemma AppendRow(rows: seq<Row>, nodes: map<int, string>, row: Row, m: string)
    ensures RowsNamed(rows + [row], nodes, m) == RowsNamed(rows, nodes, m) + (if Named(nodes, row, m) then [row] else [])
    ensures RowsNamed(rows, nodes, m) != [] ==> First(rows + [row], nodes, m) == First(rows, nodes, m) < |rows|
    ensures RowsNamed(rows, nodes, m) == [] ==> First(rows + [row], nodes, m) == if Named(nodes, row, m) then |rows| else |rows| + 1
  {
    assert (rows + [row])[..|rows|] == rows;
    FirstIffRows(rows, nodes, m);
  }

  /** A new group for a new name holds its rows; the old groups still hold theirs. */
  lemma NewGroupHoldsRows(groups: seq<Group>, rows: seq<Row>, nodes: map<int, string>, row: Row)
    requires HoldsItsRows(groups, rows, nodes)
    requires CoversNames(groups, rows, nodes)
    requires row.nodeId in nodes && nodes[row.nodeId] !in Names(groups)
    ensures HoldsItsRows(groups + [Group(nodes[row.nodeId], [row])], rows + [row], nodes)
  {
    var groups' := groups + [Group(nodes[row.nodeId], [row])];
    forall k | 0 <= k < |groups'|
      ensures groups'[k].rows == RowsNamed(rows + [row], nodes, groups'[k].name)
    {
      AppendRow(rows, nodes, row, groups'[k].name);
    }
  }

  /** A new group for a new name comes after the old ones in first-row order. */
  lemma NewGroupInOrder(groups: seq<Group>, rows: seq<Row>, nodes: map<int, string>, row: Row)
    requires HoldsItsRows(groups, rows, nodes)
    requires CoversNames(groups, rows, nodes)
    requires InFirstOrder(groups, rows, nodes)
    requires row.nodeId in nodes && nodes[row.nodeId] !in Names(groups)
    ensures InFirstOrder(groups + [Group(nodes[row.nodeId], [row])], rows + [row], nodes)
  {
    var name := nodes[row.nodeId];
    var groups' := groups + [Group(name, [row])];
    AppendRow(rows, nodes, row, name);
    forall k | 0 <= k < |groups|
      ensures First(rows + [row], nodes, groups[k].name) == First(rows, nodes, groups[k].name) < |rows|
    {
      AppendRow(rows, nodes, row, groups[k].name);
    }
    assert forall k :: 0 <= k < |groups| ==> groups'[k] == groups[k];
  }

  /** A new group for a new name leaves no name with rows uncovered. */
  lemma NewGroupCovers(groups: seq<Group>, rows: seq<Row>, nodes: map<int, string>, row: Row)
    requires CoversNames(groups, rows, nodes)
    requires row.nodeId in nodes
    ensures CoversNames(groups + [Group(nodes[row.nodeId], [row])], rows + [row], nodes)
  {
    var groups' := groups + [Group(nodes[row.nodeId], [row])];
    assert Names(groups') == Names(groups) + [nodes[row.nodeId]];
    forall m | RowsNamed(rows + [row], nodes, m) != []
      ensures m in Names(groups')
    {
      AppendRow(rows, nodes, row, m);
    }
  }

  /** The step of `group_by` that opens a new group at the end. */
  lemma AddNewGroup(groups: seq<Group>, rows: seq<Row>, nodes: map<int, string>, row: Row)
    requires GroupsOf(groups, rows, nodes)
    requires row.nodeId in nodes
    requires IndexOf(groups, nodes[row.nodeId]) == |groups|
    ensures GroupsOf(groups + [Group(nodes[row.nodeId], [row])], rows + [row], nodes)
  {
    var name := nodes[row.nodeId];
    assert name !in Names(groups);
    NewGroupHoldsRows(groups, rows, nodes, row);
    NewGroupInOrder(groups, rows, nodes, row);
    NewGroupCovers(groups, rows, nodes, row);
    TotalAppend(groups, Group(name, [row]));
  }

  /** Appending a row to the group of its name keeps every group holding its rows. */
  lemma ExistingGroupHoldsRows(groups: seq<Group>, rows: seq<Row>, nodes: map<int, string>, row: Row, i: nat)
    requires DistinctNames(groups)
    requires HoldsItsRows(groups, rows, nodes)
    requires row.nodeId in nodes && i < |groups| && groups[i].name == nodes[row.nodeId]
    ensures HoldsItsRows(groups[i := Group(groups[i].name, groups[i].rows + [row])], rows + [row], nodes)
  {
    var groups' := groups[i := Group(groups[i].name, groups[i].rows + [row])];
    forall k | 0 <= k < |groups'|
      ensures groups'[k].rows == RowsNamed(rows + [row], nodes, groups'[k].name)
    {
      AppendRow(rows, nodes, row, groups[k].name);
    }
  }

  /** Appending a row to the group of its name moves no name's first row. */
  lemma ExistingGroupInOrder(groups: seq<Group>, rows: seq<Row>, nodes: map<int, string>, row: Row, i: nat)
    requires HoldsItsRows(groups, rows, nodes)
    requires InFirstOrder(groups, rows, nodes)
    requires i < |groups|
    ensures InFirstOrder(groups[i := Group(groups[i].name, groups[i].rows + [row])], rows + [row], nodes)
  {
    forall k | 0 <= k < |groups|
      ensures First(rows + [row], nodes, groups[k].name) == First(rows, nodes, groups[k].name)
    {
      AppendRow(rows, nodes, row, groups[k].name);
    }
  }

  /** Appending a row to the group of its name leaves no name with rows uncovered. */
  lemma ExistingGroupCovers(groups: seq<Group>, rows: seq<Row>, nodes: map<int, string>, row: Row, i: nat)
    requires CoversNames(groups, rows, nodes)
    requires row.nodeId in nodes && i < |groups| && groups[i].name == nodes[row.nodeId]
    ensures CoversNames(groups[i := Group(groups[i].name, groups[i].rows + [row])], rows + [row], nodes)
  {
    var groups' := groups[i := Group(groups[i].name, groups[i].rows + [row])];
    assert Names(groups') == Names(groups);
    assert Names(groups)[i] == nodes[row.nodeId];
    forall m | RowsNamed(rows + [row], nodes, m) != []
      ensures m in Names(groups')
    {
      AppendRow(rows, nodes, row, m);
    }
  }

  /** The step of `group_by` that appends to an existing group. */
  lemma AddToGroup(groups: seq<Group>, rows: seq<Row>, nodes: map<int, string>, row: Row)
    requires GroupsOf(groups, rows, nodes)
    requires row.nodeId in nodes
    requires IndexOf(groups, nodes[row.nodeId]) < |groups|
    ensures GroupsOf(Add(groups, nodes[row.nodeId], row), rows + [row], nodes)
  {
    var name := nodes[row.nodeId];
    var i := IndexOf(groups, name);
    var groups' := groups[i := Group(name, groups[i].rows + [row])];
    assert Add(groups, name, row) == groups';
    ExistingGroupHoldsRows(groups, rows, nodes, row, i);
    ExistingGroupInOrder(groups, rows, nodes, row, i);
    ExistingGroupCovers(groups, rows, nodes, row, i);
    TotalUpdate(groups, i, Group(name, groups[i].rows + [row]));
  }

  /** `group_by` by node name produces the grouping `GroupsOf` describes. */
  lemma {:induction false} GroupByNameGroups(rows: seq<Row>, nodes: map<int, string>)
    requires forall k :: 0 <= k < |rows| ==> rows[k].nodeId in nodes
    ensures GroupsOf(GroupByName(rows, nodes), rows, nodes)
  {
    if rows == [] {
      assert forall name :: RowsNamed(rows, nodes, name) == [];
    } else {
      var prefix := rows[..|rows| - 1];
      var last := rows[|rows| - 1];
      GroupByNameGroups(prefix, nodes);
      assert rows == prefix + [last];
      if IndexOf(GroupByName(prefix, nodes), nodes[last.nodeId]) == |GroupByName(prefix, nodes)| {
        AddNewGroup(GroupByName(prefix, nodes), prefix, nodes, last);
      } else {
        AddToGroup(GroupByName(prefix, nodes), prefix, nodes, last);
      }
    }
  }

  // ---------------------------------------------------------------------------
  // The filter `where(node_id: nodes.keys)`

  /** Filtering by known node changes no name's rows. */
  lemma {:induction false} SelectedRowsNamed(rows: seq<Row>, nodes: map<int, string>, name: string)
    ensures RowsNamed(Selected(rows, nodes), nodes, name) == RowsNamed(rows, nodes, name)
  {
    if rows != [] {
      var prefix := rows[..|rows| - 1];
      var last := rows[|rows| - 1];
      SelectedRowsNamed(prefix, nodes, name);
      if last.nodeId in nodes {
        AppendRow(Selected(prefix, nodes), nodes, last, name);
      } else {
        assert Selected(rows, nodes) == Selected(prefix, nodes);
      }
    }
  }

  /** Filtering by known node keeps the order in which names first appear. */
  lemma {:induction false} SelectedFirstOrder(rows: seq<Row>, nodes: map<int, string>, a: string, b: string)
    requires RowsNamed(rows, nodes, a) != [] && RowsNamed(rows, nodes, b) != []
    ensures First(Selected(rows, nodes), nodes, a) < First(Selected(rows, nodes), nodes, b)
        <==> First(rows, nodes, a) < First(rows, nodes, b)
  {
    var prefix := rows[..|rows| - 1];
    var last := rows[|rows| - 1];
    var sel := Selected(prefix, nodes);
    assert rows == prefix + [last];
    AppendRow(prefix, nodes, last, a);
    AppendRow(prefix, nodes, last, b);
    SelectedRowsNamed(prefix, nodes, a);
    SelectedRowsNamed(prefix, nodes, b);
    if last.nodeId in nodes {
      assert Selected(rows, nodes) == sel + [last];
      AppendRow(sel, nodes, last, a);
      AppendRow(sel, nodes, last, b);
    } else {
      assert Selected(rows, nodes) == sel;
    }
    if RowsNamed(prefix, nodes, a) != [] && RowsNamed(prefix, nodes, b) != [] {
      SelectedFirstOrder(prefix, nodes, a, b);
    }
  }

  /** Filtering rows that all belong to known nodes keeps them all. */
  lemma {:induction false} SelectedKeepsKnown(rows: seq<Row>, nodes: map<int, string>)
    requires forall k :: 0 <= k < |rows| ==> rows[k].nodeId in nodes
    ensures Selected(rows, nodes) == rows
  {
    if rows != [] {
      SelectedKeepsKnown(rows[..|rows| - 1], nodes);
    }
  }

  // ---------------------------------------------------------------------------
  // Properties of the chart

  /** The series keys, in order. */
  function Keys(chart: seq<Entry>): seq<string>
  {
    seq(|chart|, i requires 0 <= i < |chart| => chart[i].key)
  }

  lemma {:induction false} TotalValuesOfGroups(groups: seq<Group>, chart: seq<Entry>, format: int -> string)
    requires |chart| == |groups|
    requires forall i :: 0 <= i < |groups| ==> chart[i] == Entry(groups[i].name, Points(groups[i].rows, format))
    ensures TotalValues(chart) == Total(groups)
  {
    if groups != [] {
      TotalValuesOfGroups(groups[1..], chart[1..], format);
    }
  }

  /** The chart's series are the groups of the selected rows, one for one. */
  lemma ChartFromGroups(rows: seq<Row>, nodes: map<int, string>, format: int -> string)
    ensures GroupsOf(GroupByName(Selected(rows, nodes), nodes), Selected(rows, nodes), nodes)
    ensures var groups := GroupByName(Selected(rows, nodes), nodes);
      && |ToStackedChart(rows, nodes, format)| == |groups|
      && forall i :: 0 <= i < |groups| ==>
           ToStackedChart(rows, nodes, format)[i] == Entry(groups[i].name, Points(groups[i].rows, format))
  {
    GroupByNameGroups(Selected(rows, nodes), nodes);
  }

  /** Each series holds, in their original order, the `[format(created_at), count]`
      of exactly the rows whose node carries the series' name, and at least one. */
  lemma ChartValues(rows: seq<Row>, nodes: map<int, string>, format: int -> string)
    ensures var chart := ToStackedChart(rows, nodes, format);
      forall i :: 0 <= i < |chart| ==>
        chart[i].values == Points(RowsNamed(rows, nodes, chart[i].key), format) != []
  {
    ChartFromGroups(rows, nodes, format);
    forall name {
      SelectedRowsNamed(rows, nodes, name);
    }
  }

  /** One series per node name that has rows, and no other: node ids sharing a
      name merge into one series, nodes without rows get none. */
  lemma ChartKeys(rows: seq<Row>, nodes: map<int, string>, format: int -> string)
    ensures var chart := ToStackedChart(rows, nodes, format);
      forall i, j :: 0 <= i < j < |chart| ==> chart[i].key != chart[j].key
    ensures var chart := ToStackedChart(rows, nodes, format);
      forall name :: name in Keys(chart) <==> RowsNamed(rows, nodes, name) != []
  {
    var chart := ToStackedChart(rows, nodes, format);
    var groups := GroupByName(Selected(rows, nodes), nodes);
    ChartFromGroups(rows, nodes, format);
    assert Keys(chart) == Names(groups);
    forall name {
      SelectedRowsNamed(rows, nodes, name);
    }
  }

  /** Series come in the order in which their names first appear in the rows. */
  lemma ChartOrder(rows: seq<Row>, nodes: map<int, string>, format: int -> string)
    ensures var chart := ToStackedChart(rows, nodes, format);
      forall i, j :: 0 <= i < j < |chart| ==>
        First(rows, nodes, chart[i].key) < First(rows, nodes, chart[j].key)
  {
    var chart := ToStackedChart(rows, nodes, format);
    var groups := GroupByName(Selected(rows, nodes), nodes);
    ChartFromGroups(rows, nodes, format);
    forall i, j | 0 <= i < j < |chart|
      ensures First(rows, nodes, chart[i].key) < First(rows, nodes, chart[j].key)
    {
      SelectedRowsNamed(rows, nodes, groups[i].name);
      SelectedRowsNamed(rows, nodes, groups[j].name);
      SelectedFirstOrder(rows, nodes, groups[i].name, groups[j].name);
    }
  }

  /** Every row of a known node lands in exactly one value; no value is invented. */
  lemma ChartConservesRows(rows: seq<Row>, nodes: map<int, string>, format: int -> string)
    ensures TotalValues(ToStackedChart(rows, nodes, format)) == |Selected(rows, nodes)|
  {
    ChartFromGroups(rows, nodes, format);
    var groups := GroupByName(Selected(rows, nodes), nodes);
    TotalValuesOfGroups(groups, ToStackedChart(rows, nodes, format), format);
  }

  /** Rows of unknown nodes do not contribute: the chart of the rows is the
      chart of the selected rows. */
  lemma ChartIgnoresUnknownNodes(rows: seq<Row>, nodes: map<int, string>, format: int -> string)
    ensures ToStackedChart(rows, nodes, format) == ToStackedChart(Selected(rows, nodes), nodes, format)
  {
    SelectedKeepsKnown(Selected(rows, nodes), nodes);
  }

  /** Every row whose node carries a name is among that name's rows. */
  lemma {:induction false} NamedRowCollected(rows: seq<Row>, nodes: map<int, string>, name: string, k: nat)
    requires k < |rows| && Named(nodes, rows[k], name)
    ensures rows[k] in RowsNamed(rows, nodes, name)
  {
    if k < |rows| - 1 {
      NamedRowCollected(rows[..|rows| - 1], nodes, name, k);
    }
  }

  /** A name shared by two node ids collects the rows of both, each counted once. */
  lemma {:induction false} RowsOfTwoNodes(rows: seq<Row>, nodes: map<int, string>, a: int, b: int)
    requires a in nodes && b in nodes && a != b && nodes[a] == nodes[b]
    ensures forall k :: 0 <= k < |rows| && (rows[k].nodeId == a || rows[k].nodeId == b) ==>
      rows[k] in RowsNamed(rows, nodes, nodes[a])
    ensures |RowsNamed(rows, nodes, nodes[a])| >= |RowsOfNode(rows, a)| + |RowsOfNode(rows, b)|
  {
    forall k | 0 <= k < |rows| && (rows[k].nodeId == a || rows[k].nodeId == b)
      ensures rows[k] in RowsNamed(rows, nodes, nodes[a])
    {
      NamedRowCollected(rows, nodes, nodes[a], k);
    }
    if rows != [] {
      RowsOfTwoNodes(rows[..|rows| - 1], nodes, a, b);
    }
  }

  /** Two node ids with the same name share one series, which holds the value
      of every row of either node. */
  lemma SameNameMerges(rows: seq<Row>, nodes: map<int, string>, format: int -> string, a: int, b: int)
    requires a in nodes && b in nodes && a != b && nodes[a] == nodes[b]
    requires RowsOfNode(rows, a) != []
    ensures var chart := ToStackedChart(rows, nodes, format);
      exists i :: 0 <= i < |chart| && chart[i].key == nodes[a] &&
        |chart[i].values| >= |RowsOfNode(rows, a)| + |RowsOfNode(rows, b)| &&
        forall k :: 0 <= k < |rows| && (rows[k].nodeId == a || rows[k].nodeId == b) ==>
          Point(format(rows[k].createdAt), rows[k].count) in chart[i].values
    ensures var chart := ToStackedChart(rows, nodes, format);
      forall i, j :: 0 <= i < |chart| && 0 <= j < |chart| && chart[i].key == nodes[a] == chart[j].key ==> i == j
  {
    var chart := ToStackedChart(rows, nodes, format);
    var named := RowsNamed(rows, nodes, nodes[a]);
    RowsOfTwoNodes(rows, nodes, a, b);
    ChartKeys(rows, nodes, format);
    ChartValues(rows, nodes, format);
    assert nodes[a] in Keys(chart);
    var i :| 0 <= i < |chart| && chart[i].key == nodes[a];
    assert chart[i].values == Points(named, format);
    forall k | 0 <= k < |rows| && (rows[k].nodeId == a || rows[k].nodeId == b)
      ensures Point(format(rows[k].createdAt), rows[k].count) in chart[i].values
    {
      var m :| 0 <= m < |named| && named[m] == rows[k];
      assert Points(named, format)[m] == Point(format(rows[k].createdAt), rows[k].count);
    }
  }
}
