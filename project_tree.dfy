/**
  ProjectTreeModel: the project forest shown in the project tree. The root item
  holds the column headers and an invalid project; under it sit the projects
  without a parent, and under each item the projects naming it as their parent,
  in list order. A model index is the path of rows from the root to its item.
*/
module ProjectTree {
  import opened Wrappers
  import opened Data
  import opened ProjectStatuses

  /** An item: its column texts, its project and its child items. */
  datatype TreeItem = TreeItem(data: seq<string>, project: Project, children: seq<TreeItem>)

  /** The root item's column texts. */
  const Headers: seq<string> := ["Name", "Today", "This week", "This month"]

  /** Project::getShortName, read as the last segment of the hierarchical name. */
  function ShortName(p: Project): string
  {
    if p.name == [] then "" else p.name[|p.name| - 1]
  }

  /** The column texts of a project's item: its short name, then today's, this week's and this month's totals. */
  function RowData(st: ProjectsStatus, formatShort: Timespan -> string, p: Project): (row: seq<string>)
    ensures |row| == |Headers|
    ensures row[0] == ShortName(p)
    ensures row[1] == formatShort(st.Get(p.id).dayTotal)
    ensures row[2] == formatShort(st.Get(p.id).weekTotal)
    ensures row[3] == formatShort(st.Get(p.id).monthTotal)
  {
    var state := st.Get(p.id);
    [ShortName(p), formatShort(state.dayTotal), formatShort(state.weekTotal), formatShort(state.monthTotal)]
  }

  /** The projects of the list whose parent is `id`, in list order. */
  function ChildrenOf(ps: seq<Project>, id: string): (cs: seq<Project>)
    ensures |cs| <= |ps|
    ensures forall k :: 0 <= k < |cs| ==> cs[k] in ps && cs[k].parentID == id
  {
    if ps == [] then []
    else
      var init := ChildrenOf(ps[..|ps| - 1], id);
      var last := ps[|ps| - 1];
      assert ps == ps[..|ps| - 1] + [last];
      init + (if last.parentID == id then [last] else [])
  }

  /** Every project of the list naming `id` as its parent is among its children. */
  lemma {:induction false} ChildrenOfComplete(ps: seq<Project>, id: string, c: Project)
    requires c in ps && c.parentID == id
    ensures c in ChildrenOf(ps, id)
    decreases |ps|
  {
    var init := ps[..|ps| - 1];
    assert ps == init + [ps[|ps| - 1]];
    if c != ps[|ps| - 1] {
      ChildrenOfComplete(init, id, c);
    }
  }

  /** Taking one more project of the list adds it to the children exactly when it names `id` as its parent. */
  lemma ChildrenOfSnoc(ps: seq<Project>, q: Project, id: string)
    ensures ChildrenOf(ps + [q], id) == ChildrenOf(ps, id) + (if q.parentID == id then [q] else [])
  {
    assert (ps + [q])[..|ps|] == ps;
  }

  /** One more project of the list: the children found so far grow by it exactly when it is a child, and a child expands one level less. */
  lemma ChildrenStep(ps: seq<Project>, p: Project, n: nat, i: nat)
    requires Finite(ps, p, n) && i < |ps|
    ensures ChildrenOf(ps[..i + 1], p.id) == ChildrenOf(ps[..i], p.id) + (if ps[i].parentID == p.id then [ps[i]] else [])
    ensures ps[i].parentID == p.id ==> n > 0 && Finite(ps, ps[i], n - 1)
  {
    ChildrenOfSnoc(ps[..i], ps[i], p.id);
    assert ps[..i + 1] == ps[..i] + [ps[i]];
    assert ps[i] in ps;
  }

  /** The same step for the projects without a parent. */
  lemma RootsStep(ps: seq<Project>, n: nat, i: nat)
    requires RootsFinite(ps, n) && i < |ps|
    ensures ChildrenOf(ps[..i + 1], "") == ChildrenOf(ps[..i], "") + (if ps[i].parentID == "" then [ps[i]] else [])
    ensures ps[i].parentID == "" ==> Finite(ps, ps[i], n)
  {
    ChildrenOfSnoc(ps[..i], ps[i], "");
    assert ps[..i + 1] == ps[..i] + [ps[i]];
    assert ps[i] in ps;
  }

  /** createModelItem(project) ends within `n` levels: the list holds no chain of children deeper than that below it. */
  ghost predicate Finite(ps: seq<Project>, p: Project, n: nat)
    decreases n
  {
    n > 0 && forall c :: c in ps && c.parentID == p.id ==> Finite(ps, c, n - 1)
  }

  /** The projects of a list of items, in order. */
  function Projects(items: seq<TreeItem>): (ps: seq<Project>)
    ensures |ps| == |items| && forall k :: 0 <= k < |items| ==> ps[k] == items[k].project
  {
    seq(|items|, k requires 0 <= k < |items| => items[k].project)
  }

  /** Every project of `cs` can be expanded within `n` levels. */
  ghost predicate AllFinite(ps: seq<Project>, cs: seq<Project>, n: nat)
  {
    forall k :: 0 <= k < |cs| ==> Finite(ps, cs[k], n)
  }

  /** The children of a project that expands within `n` levels expand within one level less. */
  lemma FiniteChildren(ps: seq<Project>, p: Project, n: nat)
    requires Finite(ps, p, n)
    ensures n > 0 && AllFinite(ps, ChildrenOf(ps, p.id), n - 1)
  {
    var cs := ChildrenOf(ps, p.id);
    forall k | 0 <= k < |cs|
      ensures Finite(ps, cs[k], n - 1)
    {
      assert cs[k] in ps && cs[k].parentID == p.id;
    }
  }

  /** The item createModelItem builds for `p`, with the items of its children below it. */
  function Item(ps: seq<Project>, st: ProjectsStatus, formatShort: Timespan -> string, p: Project, ghost n: nat): (t: TreeItem)
    requires Finite(ps, p, n)
    ensures t.project == p && t.data == RowData(st, formatShort, p)
    decreases n, 1
  {
    FiniteChildren(ps, p, n);
    TreeItem(RowData(st, formatShort, p), p, Items(ps, st, formatShort, ChildrenOf(ps, p.id), n - 1))
  }

  /** The items of the projects of `cs`, in order. */
  function Items(ps: seq<Project>, st: ProjectsStatus, formatShort: Timespan -> string, cs: seq<Project>, ghost n: nat): (items: seq<TreeItem>)
    requires AllFinite(ps, cs, n)
    ensures |items| == |cs|
    decreases n, 2, |cs|
  {
    if cs == [] then []
    else Items(ps, st, formatShort, cs[..|cs| - 1], n) + [Item(ps, st, formatShort, cs[|cs| - 1], n)]
  }

  /** The item at each position is the item of the project at that position. */
  lemma {:induction false} ItemsAt(ps: seq<Project>, st: ProjectsStatus, formatShort: Timespan -> string, cs: seq<Project>, n: nat)
    requires AllFinite(ps, cs, n)
    ensures forall k :: 0 <= k < |cs| ==> Items(ps, st, formatShort, cs, n)[k] == Item(ps, st, formatShort, cs[k], n)
    ensures Projects(Items(ps, st, formatShort, cs, n)) == cs
    decreases |cs|
  {
    if cs != [] {
      var init := cs[..|cs| - 1];
      ItemsAt(ps, st, formatShort, init, n);
    }
  }

  /** One more project adds its item at the end. */
  lemma ItemsSnoc(ps: seq<Project>, st: ProjectsStatus, formatShort: Timespan -> string, cs: seq<Project>, c: Project, n: nat)
    requires AllFinite(ps, cs, n) && Finite(ps, c, n)
    ensures AllFinite(ps, cs + [c], n)
    ensures Items(ps, st, formatShort, cs + [c], n) == Items(ps, st, formatShort, cs, n) + [Item(ps, st, formatShort, c, n)]
  {
    assert (cs + [c])[..|cs|] == cs;
  }

  /** Every project of the list without a parent can be expanded within `n` levels. */
  ghost predicate RootsFinite(ps: seq<Project>, n: nat)
  {
    forall c :: c in ps && c.parentID == "" ==> Finite(ps, c, n)
  }

  /** The root refreshProjects fills: the headers over the items of the projects without a parent. */
  function RootItem(ps: seq<Project>, st: ProjectsStatus, formatShort: Timespan -> string, ghost n: nat): (t: TreeItem)
    requires RootsFinite(ps, n)
    ensures t.project == NoProject && t.data == Headers
  {
    var cs := ChildrenOf(ps, "");
    assert AllFinite(ps, cs, n) by {
      forall k | 0 <= k < |cs| ensures Finite(ps, cs[k], n) {
        assert cs[k] in ps && cs[k].parentID == "";
      }
    }
    TreeItem(Headers, NoProject, Items(ps, st, formatShort, cs, n))
  }

  /** Every item's children are the items of exactly the projects naming it as their parent, in list order. */
  ghost predicate Shaped(ps: seq<Project>, t: TreeItem)
    decreases t
  {
    Projects(t.children) == ChildrenOf(ps, t.project.id)
    && forall k :: 0 <= k < |t.children| ==> Shaped(ps, t.children[k])
  }

  /** Every item's column texts are its project's row. */
  ghost predicate RowsHold(st: ProjectsStatus, formatShort: Timespan -> string, t: TreeItem)
    decreases t
  {
    t.data == RowData(st, formatShort, t.project)
    && forall k :: 0 <= k < |t.children| ==> RowsHold(st, formatShort, t.children[k])
  }

  /** An item built by createModelItem has the tree's shape all the way down. */
  lemma {:induction false} ItemShaped(ps: seq<Project>, st: ProjectsStatus, formatShort: Timespan -> string, p: Project, n: nat)
    requires Finite(ps, p, n)
    ensures Shaped(ps, Item(ps, st, formatShort, p, n))
    decreases n
  {
    var t := Item(ps, st, formatShort, p, n);
    var cs := ChildrenOf(ps, p.id);
    FiniteChildren(ps, p, n);
    assert t.children == Items(ps, st, formatShort, cs, n - 1);
    ItemsAt(ps, st, formatShort, cs, n - 1);
    forall k | 0 <= k < |t.children|
      ensures Shaped(ps, t.children[k])
    {
      assert cs[k] in ps && cs[k].parentID == p.id;
      ItemShaped(ps, st, formatShort, cs[k], n - 1);
    }
  }

  /** An item built by createModelItem carries its project's row all the way down. */
  lemma {:induction false} ItemRows(ps: seq<Project>, st: ProjectsStatus, formatShort: Timespan -> string, p: Project, n: nat)
    requires Finite(ps, p, n)
    ensures RowsHold(st, formatShort, Item(ps, st, formatShort, p, n))
    decreases n
  {
    var t := Item(ps, st, formatShort, p, n);
    var cs := ChildrenOf(ps, p.id);
    FiniteChildren(ps, p, n);
    assert t.children == Items(ps, st, formatShort, cs, n - 1);
    ItemsAt(ps, st, formatShort, cs, n - 1);
    forall k | 0 <= k < |t.children|
      ensures RowsHold(st, formatShort, t.children[k])
    {
      assert cs[k] in ps && cs[k].parentID == p.id;
      ItemRows(ps, st, formatShort, cs[k], n - 1);
    }
  }

  /** The root's children are exactly the projects without a parent, in list order, and the whole tree is shaped. */
  lemma RootShaped(ps: seq<Project>, st: ProjectsStatus, formatShort: Timespan -> string, n: nat)
    requires RootsFinite(ps, n)
    ensures Projects(RootItem(ps, st, formatShort, n).children) == ChildrenOf(ps, "")
    ensures Shaped(ps, RootItem(ps, st, formatShort, n))
    ensures forall k :: 0 <= k < |RootItem(ps, st, formatShort, n).children| ==>
      RowsHold(st, formatShort, RootItem(ps, st, formatShort, n).children[k])
  {
    var t := RootItem(ps, st, formatShort, n);
    var cs := ChildrenOf(ps, "");
    assert AllFinite(ps, cs, n) by {
      forall k | 0 <= k < |cs| ensures Finite(ps, cs[k], n) {
        assert cs[k] in ps && cs[k].parentID == "";
      }
    }
    ItemsAt(ps, st, formatShort, cs, n);
    forall k | 0 <= k < |t.children|
      ensures Shaped(ps, t.children[k]) && RowsHold(st, formatShort, t.children[k])
    {
      var c := ChildrenOf(ps, "")[k];
      assert c in ps && c.parentID == "";
      ItemShaped(ps, st, formatShort, c, n);
      ItemRows(ps, st, formatShort, c, n);
    }
  }

  // ---- paths ----

  /** The rows of `path` lead from `t` to an item. */
  predicate ValidPath(t: TreeItem, path: seq<nat>)
    decreases |path|
  {
    path == [] || (path[0] < |t.children| && ValidPath(t.children[path[0]], path[1..]))
  }

  /** The item at the end of `path`. */
  function At(t: TreeItem, path: seq<nat>): TreeItem
    requires ValidPath(t, path)
    decreases |path|
  {
    if path == [] then t else At(t.children[path[0]], path[1..])
  }

  /** The projects of the items passed through along `path`, the starting item excluded. */
  function ProjectsAlong(t: TreeItem, path: seq<nat>): (chain: seq<Project>)
    requires ValidPath(t, path)
    ensures |chain| == |path|
    decreases |path|
  {
    if path == [] then [] else [t.children[path[0]].project] + ProjectsAlong(t.children[path[0]], path[1..])
  }

  /** A chain of parent links in the list: it starts below `top`, each project is the previous one's child. */
  predicate ParentChain(ps: seq<Project>, top: string, chain: seq<Project>)
  {
    |chain| > 0
    && chain[0].parentID == top
    && (forall k :: 0 <= k < |chain| ==> chain[k] in ps)
    && (forall k :: 0 < k < |chain| ==> chain[k].parentID == chain[k - 1].id)
  }

  /** Following a path one more row keeps a valid path, and the item it reaches is a child of the previous one. */
  lemma PathSnoc(t: TreeItem, path: seq<nat>, row: nat)
    requires ValidPath(t, path) && row < |At(t, path).children|
    ensures ValidPath(t, path + [row])
    ensures At(t, path + [row]) == At(t, path).children[row]
    decreases |path|
  {
    if path != [] {
      assert (path + [row])[1..] == path[1..] + [row];
      PathSnoc(t.children[path[0]], path[1..], row);
    }
  }

  /** Dropping the last row of a valid path leaves a valid path to the parent item. */
  lemma PathInit(t: TreeItem, path: seq<nat>)
    requires ValidPath(t, path) && path != []
    ensures ValidPath(t, path[..|path| - 1])
    ensures path[|path| - 1] < |At(t, path[..|path| - 1]).children|
    ensures At(t, path) == At(t, path[..|path| - 1]).children[path[|path| - 1]]
    decreases |path|
  {
    if |path| > 1 {
      assert path[1..][..|path[1..]| - 1] == path[..|path| - 1][1..];
      PathInit(t.children[path[0]], path[1..]);
    }
  }

  /**
    Every item reached in a shaped tree sits on a chain of parent links that
    starts below the starting item's project: a project whose ancestors never
    reach the root's empty id appears nowhere under the root.
  */
  lemma {:induction false} PathIsParentChain(ps: seq<Project>, t: TreeItem, path: seq<nat>)
    requires Shaped(ps, t) && ValidPath(t, path) && path != []
    ensures ParentChain(ps, t.project.id, ProjectsAlong(t, path))
    ensures ProjectsAlong(t, path)[|path| - 1] == At(t, path).project
    decreases |path|
  {
    var child := t.children[path[0]];
    assert child.project == Projects(t.children)[path[0]];
    assert child.project == ChildrenOf(ps, t.project.id)[path[0]];
    if |path| > 1 {
      PathIsParentChain(ps, child, path[1..]);
      var rest := ProjectsAlong(child, path[1..]);
      assert ProjectsAlong(t, path) == [child.project] + rest;
    }
  }

  /** The index of an item: none, or the path of rows to it with a column. */
  datatype ModelIndex = InvalidIndex | ItemIndex(path: seq<nat>, column: nat)


  /** Qt::ItemIsSelectable | Qt::ItemIsEnabled, what QAbstractItemModel::flags gives a valid index. */
  const SelectableEnabled := 0x21

  class ProjectTreeModel {
    /** The listing the model was built from. */
    const projects: seq<Project>
    /** The aggregates the rows show. */
    const status: ProjectsStatus
    /** Timespan::formatShort, whose text is not part of this model. */
    const formatShort: Timespan -> string
    /** How many levels the listing's chains of children reach at most. */
    ghost const depth: nat
    var root: TreeItem

    /** The root holds the headers and an invalid project, the tree is shaped and every item below the root carries its row. */
    ghost predicate Consistent()
      reads this
    {
      root.data == Headers && root.project == NoProject
      && Shaped(projects, root)
      && forall k :: 0 <= k < |root.children| ==> RowsHold(status, formatShort, root.children[k])
    }

    /** The root is the one refreshProjects builds from the listing, and it is consistent. */
    ghost predicate Valid()
      reads this
    {
      RootsFinite(projects, depth)
      && root == RootItem(projects, status, formatShort, depth)
      && Consistent()
    }

    /** The constructor takes the listing and the aggregates, then fills the root. */
    constructor (projects: seq<Project>, status: ProjectsStatus, formatShort: Timespan -> string, ghost depth: nat)
      requires RootsFinite(projects, depth)
      ensures this.projects == projects && this.status == status && this.formatShort == formatShort
      ensures Valid()
    {
      this.projects := projects;
      this.status := status;
      this.formatShort := formatShort;
      this.depth := depth;
      root := TreeItem(Headers, NoProject, []);
      new;
      RefreshProjects();
      RootShaped(projects, status, formatShort, depth);
    }

    /** refreshProjects(): appends to the root the item of each project without a parent, in list order. */
    method RefreshProjects()
      requires RootsFinite(projects, depth) && root.children == []
      modifies this`root
      ensures root == old(root).(children := RootItem(projects, status, formatShort, depth).children)
    {
      var children: seq<TreeItem> := [];
      ghost var found: seq<Project> := [];
      var i := 0;
      while i < |projects|
        invariant 0 <= i <= |projects|
        invariant found == ChildrenOf(projects[..i], "")
        invariant root == old(root)
        invariant AllFinite(projects, found, depth)
        invariant children == Items(projects, status, formatShort, found, depth)
      {
        var project := projects[i];
        RootsStep(projects, depth, i);
        if project.parentID == "" {
          ItemsSnoc(projects, status, formatShort, found, project, depth);
          var item := CreateModelItem(projects, project, depth);
          children := children + [item];
          found := found + [project];
        }
        i := i + 1;
      }
      assert projects[..i] == projects;
      assert RootItem(projects, status, formatShort, depth).children == children;
      root := root.(children := children);
    }

    /** createModelItem(allProjects, project): the project's row over the items of its children, in list order. */
    method CreateModelItem(allProjects: seq<Project>, project: Project, ghost n: nat) returns (item: TreeItem)
      requires Finite(allProjects, project, n)
      ensures item == Item(allProjects, status, formatShort, project, n)
      decreases n
    {
      var state := status.Get(project.id);
      var items := [ShortName(project), formatShort(state.dayTotal), formatShort(state.weekTotal), formatShort(state.monthTotal)];
      FiniteChildren(allProjects, project, n);
      var children: seq<TreeItem> := [];
      ghost var found: seq<Project> := [];
      var i := 0;
      while i < |allProjects|
        invariant 0 <= i <= |allProjects|
        invariant found == ChildrenOf(allProjects[..i], project.id)
        invariant n > 0 && AllFinite(allProjects, found, n - 1)
        invariant children == Items(allProjects, status, formatShort, found, n - 1)
      {
        var p := allProjects[i];
        ChildrenStep(allProjects, project, n, i);
        if p.parentID == project.id {
          ItemsSnoc(allProjects, status, formatShort, found, p, n - 1);
          var child := CreateModelItem(allProjects, p, n - 1);
          children := children + [child];
          found := found + [p];
        }
        i := i + 1;
      }
      assert allProjects[..i] == allProjects;
      item := TreeItem(items, project, children);
    }

    /** The index names an item of this tree. */
    predicate Refers(index: ModelIndex)
      reads this
    {
      index.ItemIndex? ==> index.path != [] && ValidPath(root, index.path)
    }

    /** The item an index points at, the root for the invalid index. */
    function ItemOf(index: ModelIndex): TreeItem
      reads this
      requires Refers(index)
    {
      if index.InvalidIndex? then root else At(root, index.path)
    }

    /** rowCount(parent): none under a column other than the first; otherwise the parent item's children, the root's for the invalid index. */
    function RowCount(parent: ModelIndex): (n: nat)
      reads this
      requires Refers(parent)
      ensures parent.ItemIndex? && parent.column > 0 ==> n == 0
      ensures parent.InvalidIndex? ==> n == |root.children|
      ensures parent.ItemIndex? && parent.column == 0 ==> n == |At(root, parent.path).children|
    {
      if parent.ItemIndex? && parent.column > 0 then 0 else |ItemOf(parent).children|
    }

    /** rowCount counts the projects naming the item's project as their parent, and at the top those without a parent. */
    lemma RowCountCountsChildren(parent: ModelIndex)
      requires Consistent() && Refers(parent) && (parent.ItemIndex? ==> parent.column == 0)
      ensures RowCount(parent) == |ChildrenOf(projects, ItemOf(parent).project.id)|
      ensures parent.InvalidIndex? ==> RowCount(parent) == |ChildrenOf(projects, "")|
    {
      if parent.ItemIndex? {
        ShapedAt(projects, root, parent.path);
      }
    }

    /** columnCount(parent): the item's column texts, four for every item of the tree. */
    function ColumnCount(parent: ModelIndex): (n: nat)
      reads this
      requires Consistent() && Refers(parent)
      ensures n == |Headers| == 4
    {
      if parent.ItemIndex? then RowsAt(status, formatShort, root, parent.path); |ItemOf(parent).data|
      else |root.data|
    }

    /** QAbstractItemModel::hasIndex: the row and column lie within the parent's counts. */
    predicate HasIndex(row: int, column: int, parent: ModelIndex)
      reads this
      requires Consistent() && Refers(parent)
    {
      0 <= row < RowCount(parent) && 0 <= column < ColumnCount(parent)
    }

    /** index(row, column, parent): the child at that row of the parent item, invalid when there is none. */
    function Index(row: int, column: int, parent: ModelIndex): (r: ModelIndex)
      reads this
      requires Consistent() && Refers(parent)
      ensures r.ItemIndex? <==> HasIndex(row, column, parent)
      ensures Refers(r)
      ensures r.ItemIndex? ==> (r.column == column && r.path[|r.path| - 1] == row
        && 0 <= row < |ItemOf(parent).children| && ItemOf(r) == ItemOf(parent).children[row])
    {
      if !HasIndex(row, column, parent) then InvalidIndex
      else
        var base := if parent.InvalidIndex? then [] else parent.path;
        PathSnoc(root, base, row);
        ItemIndex(base + [row], column)
    }

    /** parent(index): invalid for the invalid index and for a child of the root, otherwise the first column of the parent item. */
    function Parent(index: ModelIndex): (r: ModelIndex)
      reads this
      requires Refers(index)
      ensures Refers(r)
      ensures index.InvalidIndex? || |index.path| == 1 <==> r.InvalidIndex?
      ensures r.ItemIndex? ==> (r.column == 0 && r.path == index.path[..|index.path| - 1]
        && index.path[|index.path| - 1] < |ItemOf(r).children|
        && ItemOf(index) == ItemOf(r).children[index.path[|index.path| - 1]])
    {
      if index.InvalidIndex? || |index.path| == 1 then InvalidIndex
      else
        PathInit(root, index.path);
        ItemIndex(index.path[..|index.path| - 1], 0)
    }

    /** The parent of a child index is the first column of the index it was made under, and invalid at the top. */
    lemma ParentOfIndex(row: int, column: int, parent: ModelIndex)
      requires Consistent() && Refers(parent) && HasIndex(row, column, parent)
      ensures Parent(Index(row, column, parent)) == (if parent.InvalidIndex? then InvalidIndex else ItemIndex(parent.path, 0))
    {
      var r := Index(row, column, parent);
      if parent.ItemIndex? {
        assert r.path[..|r.path| - 1] == parent.path;
      }
    }

    /** flags(index): nothing for the invalid index, selectable and enabled otherwise. */
    function Flags(index: ModelIndex): (f: int)
      ensures f == 0 <==> index.InvalidIndex?
      ensures index.ItemIndex? ==> f == SelectableEnabled
    {
      if index.InvalidIndex? then 0 else SelectableEnabled
    }

    /**
      headerData(section, orientation, role): nothing off the horizontal header; the
      root's text for that column for the display role; for the alignment role, right
      from the second column on and left for the first; nothing for any other role.
    */
    function HeaderData(section: int, horizontal: bool, role: int): (r: HeaderValue)
      reads this
      requires Consistent()
      ensures !horizontal ==> r == NoValue
      ensures horizontal && role == DisplayRole ==>
        (if 0 <= section < |Headers| then r == Caption(Headers[section]) else r == NoValue)
      ensures horizontal && role == TextAlignmentRole ==>
        r == Alignment(if section >= 1 then AlignRight else AlignLeft)
      ensures role != DisplayRole && role != TextAlignmentRole ==> r == NoValue
    {
      if !horizontal then NoValue
      else if role == DisplayRole then
        (if 0 <= section < |root.data| then Caption(root.data[section]) else NoValue)
      else if role == TextAlignmentRole then
        (if section >= 1 then Alignment(AlignRight) else Alignment(AlignLeft))
      else NoValue
    }

    /** data(index, DisplayRole): the item's text in that column. */
    function DisplayText(index: ModelIndex): (r: Option<string>)
      reads this
      requires Consistent() && Refers(index)
      ensures index.InvalidIndex? ==> r.None?
      ensures index.ItemIndex? ==> var row := RowData(status, formatShort, At(root, index.path).project);
        (r.Some? <==> index.column < |row|) && (r.Some? ==> r.value == row[index.column])
    {
      if index.InvalidIndex? then None
      else
        RowsAt(status, formatShort, root, index.path);
        var item := At(root, index.path);
        if index.column < |item.data| then Some(item.data[index.column]) else None
    }
  }

  /** The children of every item reached in a shaped tree are those of its project. */
  lemma {:induction false} ShapedAt(ps: seq<Project>, t: TreeItem, path: seq<nat>)
    requires Shaped(ps, t) && ValidPath(t, path)
    ensures Shaped(ps, At(t, path))
    ensures |At(t, path).children| == |ChildrenOf(ps, At(t, path).project.id)|
    decreases |path|
  {
    if path != [] {
      ShapedAt(ps, t.children[path[0]], path[1..]);
    }
  }

  /** Every item reached below the root carries its project's row. */
  lemma {:induction false} RowsAt(st: ProjectsStatus, formatShort: Timespan -> string, t: TreeItem, path: seq<nat>)
    requires ValidPath(t, path) && path != []
    requires forall k :: 0 <= k < |t.children| ==> RowsHold(st, formatShort, t.children[k])
    ensures At(t, path).data == RowData(st, formatShort, At(t, path).project)
    decreases |path|
  {
    var c := t.children[path[0]];
    if |path| > 1 {
      RowsAt(st, formatShort, c, path[1..]);
    }
  }
}
