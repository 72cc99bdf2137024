/**
  The controller's project cache: a map from project id to project, rebuilt
  wholesale from a full listing, and the queries that walk its parent links
  (isChildProject, isStarted, hasSubprojects).
*/
module ProjectCache {
  import opened Data

  type Cache = map<string, Project>

  /** Some project of `ps` has the id `id`. */
  predicate Lists(ps: seq<Project>, id: string)
  {
    exists k :: 0 <= k < |ps| && ps[k].id == id
  }

  lemma ListsSnoc(ps: seq<Project>)
    requires ps != []
    ensures forall id :: Lists(ps, id) <==> Lists(ps[..|ps| - 1], id) || ps[|ps| - 1].id == id
  {
    var init := ps[..|ps| - 1];
    forall id | Lists(init, id) ensures Lists(ps, id) {
      var k :| 0 <= k < |init| && init[k].id == id;
      assert ps[k] == init[k];
    }
    forall id | Lists(ps, id) ensures Lists(init, id) || ps[|ps| - 1].id == id {
      var k :| 0 <= k < |ps| && ps[k].id == id;
      if k < |init| {
        assert ps[k] == init[k];
      }
    }
  }

  /** The cache a listing builds: inserted in order, so a later project with the same id replaces an earlier one. */
  function CacheOf(ps: seq<Project>): (c: Cache)
    ensures forall id :: id in c <==> Lists(ps, id)
    ensures KeysMatch(c)
  {
    if ps == [] then map[]
    else
      ListsSnoc(ps);
      CacheOf(ps[..|ps| - 1])[ps[|ps| - 1].id := ps[|ps| - 1]]
  }

  /** The project cached under an id is the last listed project with that id. */
  lemma {:induction false} CacheOfLastWins(ps: seq<Project>, k: nat)
    requires k < |ps|
    requires forall j :: k < j < |ps| ==> ps[j].id != ps[k].id
    ensures CacheOf(ps)[ps[k].id] == ps[k]
    decreases |ps|
  {
    var init := ps[..|ps| - 1];
    if k < |ps| - 1 {
      assert init[k] == ps[k];
      forall j | k < j < |init| ensures init[j].id != init[k].id {
        assert init[j] == ps[j];
      }
      CacheOfLastWins(init, k);
    }
  }

  /** Every project is cached under its own id. */
  predicate KeysMatch(c: Cache)
  {
    forall id :: id in c ==> c[id].id == id
  }

  /** QHash::value(id): the cached project, or an invalid default project. */
  function Lookup(c: Cache, id: string): (p: Project)
    ensures id in c ==> p == c[id]
    ensures id !in c ==> !IsValid(p)
  {
    if id in c then c[id] else NoProject
  }

  // ---- walking parent links ----

  /** Walking parent links from `p` meets an invalid project within `n` steps. */
  predicate Ends(c: Cache, p: Project, n: nat)
    decreases n
  {
    !IsValid(p) || (n > 0 && Ends(c, Lookup(c, p.parentID), n - 1))
  }

  /** No cached project lies on a cycle of parent links: every walk ends within |c| steps. */
  predicate Acyclic(c: Cache)
  {
    forall id :: id in c ==> Ends(c, c[id], |c|)
  }

  /**
    The walk from `p` meets `target` or an invalid project within `n` steps: the
    condition under which isChildProject's loop ends.
  */
  predicate WalkStops(c: Cache, p: Project, target: string, n: nat)
    decreases n
  {
    !IsValid(p) || (n > 0 && (p.id == target || WalkStops(c, Lookup(c, p.parentID), target, n - 1)))
  }

  /** A walk that ends stops, whatever it looks for. */
  lemma {:induction false} EndsWalkStops(c: Cache, p: Project, target: string, n: nat)
    requires Ends(c, p, n)
    ensures WalkStops(c, p, target, n)
    decreases n
  {
    if IsValid(p) {
      EndsWalkStops(c, Lookup(c, p.parentID), target, n - 1);
    }
  }

  /** Without cycles, every walk isChildProject starts stops. */
  lemma AcyclicWalkStops(c: Cache, id: string, target: string)
    requires Acyclic(c)
    ensures WalkStops(c, Lookup(c, id), target, |c|)
  {
    if id in c {
      EndsWalkStops(c, c[id], target, |c|);
    }
  }

  /** The ids of the valid projects met walking parent links from `p`, taking at most `n` steps. */
  function ChainOf(c: Cache, p: Project, n: nat): (chain: seq<string>)
    ensures |chain| <= n
    ensures chain != [] ==> IsValid(p) && chain[0] == p.id
    decreases n
  {
    if n == 0 || !IsValid(p) then [] else [p.id] + ChainOf(c, Lookup(c, p.parentID), n - 1)
  }

  /** The walk isChildProject makes from `id`: `id` itself first, then its parent, and so on. */
  function Ancestry(c: Cache, id: string): (chain: seq<string>)
    ensures |chain| <= |c|
    ensures chain != [] ==> id in c && chain[0] == c[id].id
    ensures id !in c ==> chain == []
  {
    ChainOf(c, Lookup(c, id), |c|)
  }

  lemma {:induction false} EndsMore(c: Cache, p: Project, n: nat, m: nat)
    requires Ends(c, p, n) && n <= m
    ensures Ends(c, p, m)
    decreases n
  {
    if IsValid(p) {
      EndsMore(c, Lookup(c, p.parentID), n - 1, m - 1);
    }
  }

  /** Once the walk from `p` ends within `n` steps, more steps add nothing. */
  lemma {:induction false} ChainFuel(c: Cache, p: Project, n: nat, m: nat)
    requires Ends(c, p, n) && n <= m
    ensures ChainOf(c, p, n) == ChainOf(c, p, m)
    decreases n
  {
    if IsValid(p) {
      ChainFuel(c, Lookup(c, p.parentID), n - 1, m - 1);
    }
  }

  /** The walk from a valid cached project is that project followed by the walk from its parent. */
  lemma AncestryStep(c: Cache, id: string)
    requires Acyclic(c) && id in c && IsValid(c[id])
    ensures Ancestry(c, id) == [c[id].id] + Ancestry(c, c[id].parentID)
  {
    var parent := Lookup(c, c[id].parentID);
    assert Ends(c, parent, |c| - 1);
    ChainFuel(c, parent, |c| - 1, |c|);
  }

  /** A non-empty walk starts at a valid project cached under the id it starts from. */
  lemma AncestryHead(c: Cache, id: string)
    requires KeysMatch(c) && Ancestry(c, id) != []
    ensures id in c && IsValid(c[id]) && Ancestry(c, id)[0] == id
  {
  }

  /** Every id on a walk is cached and valid, and the walk from it is the rest of the walk. */
  lemma {:induction false} AncestrySuffix(c: Cache, id: string, i: nat)
    requires Acyclic(c) && KeysMatch(c) && i < |Ancestry(c, id)|
    ensures var x := Ancestry(c, id)[i]; x in c && IsValid(c[x]) && Ancestry(c, x) == Ancestry(c, id)[i..]
  {
    var a := Ancestry(c, id);
    AncestryHead(c, id);
    if i > 0 {
      AncestrySuffix(c, id, i - 1);
      var x := a[i - 1];
      AncestryStep(c, x);
      var parent := c[x].parentID;
      assert Ancestry(c, parent) == a[i..];
      AncestryHead(c, parent);
    }
  }

  /** A walk from any id on a walk stays within it. */
  lemma AncestryTrans(c: Cache, a: string, b: string, x: string)
    requires Acyclic(c) && KeysMatch(c)
    requires b in Ancestry(c, a) && x in Ancestry(c, b)
    ensures x in Ancestry(c, a)
  {
    var i :| 0 <= i < |Ancestry(c, a)| && Ancestry(c, a)[i] == b;
    AncestrySuffix(c, a, i);
  }

  /** A valid child of a cached project lies one step further from the root than its parent. */
  lemma ChildDeeper(c: Cache, parent: Project, p: Project)
    requires Acyclic(c) && KeysMatch(c) && IsValid(parent)
    requires p in c.Values && IsValid(p) && p.parentID == parent.id
    ensures Ancestry(c, p.id) == [p.id] + Ancestry(c, parent.id)
  {
    AncestryStep(c, p.id);
  }

  /**
    isChildProject(id, parentID): both ids are non-empty and `parentID` is met
    walking the cached parent links starting from `id` itself.
  */
  predicate IsDescendant(c: Cache, id: string, parentID: string)
  {
    id != "" && parentID != "" && parentID in Ancestry(c, id)
  }

  /** A cached project counts as a child of itself. */
  lemma DescendantOfItself(c: Cache, id: string)
    requires KeysMatch(c)
    ensures IsDescendant(c, id, id) <==> id != "" && id in c
  {
    if id != "" && id in c {
      assert Ancestry(c, id) == [id] + ChainOf(c, Lookup(c, c[id].parentID), |c| - 1);
    }
  }

  /** A valid cached project is a child of its cached parent. */
  lemma DescendantOfParent(c: Cache, id: string)
    requires Acyclic(c) && KeysMatch(c) && id in c && IsValid(c[id])
    requires c[id].parentID in c && IsValid(c[c[id].parentID])
    ensures IsDescendant(c, id, c[id].parentID)
  {
    AncestryStep(c, id);
    AncestryHead(c, c[id].parentID);
  }

  /** Being a child project is transitive. */
  lemma DescendantTrans(c: Cache, a: string, b: string, x: string)
    requires Acyclic(c) && KeysMatch(c)
    requires IsDescendant(c, a, b) && IsDescendant(c, b, x)
    ensures IsDescendant(c, a, x)
  {
    AncestryTrans(c, a, b, x);
  }

  /** A project id that is not cached has no parent projects, not even itself. */
  lemma UncachedHasNoParents(c: Cache, id: string, parentID: string)
    requires id !in c
    ensures !IsDescendant(c, id, parentID)
  {
  }

  // ---- isStarted ----

  /**
    isStarted(project, includeSubprojects): the project is valid and it is the
    active one, or subprojects count and one of its cached valid children is
    started, subprojects included.
  */
  predicate Started(c: Cache, activeID: string, project: Project, includeSubprojects: bool)
    requires Acyclic(c) && KeysMatch(c)
    decreases |c| + 1 - |Ancestry(c, project.id)|
  {
    if !IsValid(project) then false
    else if activeID == project.id then true
    else if !includeSubprojects then false
    else
      assert forall p :: p in c.Values && IsValid(p) && p.parentID == project.id ==>
        |Ancestry(c, p.id)| == |Ancestry(c, project.id)| + 1 by {
        forall p | p in c.Values && IsValid(p) && p.parentID == project.id
          ensures |Ancestry(c, p.id)| == |Ancestry(c, project.id)| + 1
        {
          ChildDeeper(c, project, p);
        }
      }
      exists p :: p in c.Values && IsValid(p) && p.parentID == project.id && Started(c, activeID, p, true)
  }

  /** Without subprojects, a project is started exactly when it is valid and active. */
  lemma StartedAlone(c: Cache, activeID: string, project: Project)
    requires Acyclic(c) && KeysMatch(c)
    ensures Started(c, activeID, project, false) <==> IsValid(project) && activeID == project.id
  {
  }

  /**
    With subprojects, a cached project is started exactly when it is the active
    project or the active project is one of its children (isChildProject).
  */
  lemma StartedIffAncestor(c: Cache, activeID: string, project: Project)
    requires Acyclic(c) && KeysMatch(c) && IsValid(project) && project.id in c
    ensures Started(c, activeID, project, true) <==> activeID == project.id || IsDescendant(c, activeID, project.id)
  {
    if Started(c, activeID, project, true) {
      StartedToAncestor(c, activeID, project);
    }
    if activeID != project.id && IsDescendant(c, activeID, project.id) {
      AncestorToStarted(c, activeID, project);
    }
  }

  lemma {:induction false} StartedToAncestor(c: Cache, activeID: string, project: Project)
    requires Acyclic(c) && KeysMatch(c) && IsValid(project) && project.id in c
    requires Started(c, activeID, project, true)
    ensures activeID == project.id || IsDescendant(c, activeID, project.id)
    decreases |c| + 1 - |Ancestry(c, project.id)|
  {
    if activeID != project.id {
      var p :| p in c.Values && IsValid(p) && p.parentID == project.id && Started(c, activeID, p, true);
      ChildDeeper(c, project, p);
      assert c[p.id] == p;
      AncestryHead(c, project.id);
      assert project.id in Ancestry(c, p.id);
      StartedToAncestor(c, activeID, p);
      if activeID == p.id {
        assert project.id in Ancestry(c, activeID);
      } else {
        AncestryTrans(c, activeID, p.id, project.id);
      }
    }
  }

  lemma {:induction false} AncestorToStarted(c: Cache, activeID: string, project: Project)
    requires Acyclic(c) && KeysMatch(c) && IsValid(project) && project.id in c
    requires activeID != project.id && IsDescendant(c, activeID, project.id)
    ensures Started(c, activeID, project, true)
    decreases |c| + 1 - |Ancestry(c, project.id)|
  {
    var a := Ancestry(c, activeID);
    var j :| 0 <= j < |a| && a[j] == project.id;
    AncestryHead(c, activeID);
    assert j > 0;
    AncestrySuffix(c, activeID, j - 1);
    AncestrySuffix(c, activeID, j);
    var child := c[a[j - 1]];
    AncestryStep(c, a[j - 1]);
    assert Ancestry(c, child.parentID) == a[j..];
    AncestryHead(c, child.parentID);
    assert child.parentID == project.id;
    assert child in c.Values;
    assert child.id == a[j - 1];
    ChildDeeper(c, project, child);
    if activeID != child.id {
      AncestrySuffix(c, activeID, j - 1);
      assert child.id in Ancestry(c, activeID);
      AncestorToStarted(c, activeID, child);
    }
    assert Started(c, activeID, child, true);
  }

  // ---- hasSubprojects ----

  /** hasSubprojects(project): some cached project names the project's id as its parent. */
  predicate HasChildren(c: Cache, projectID: string)
  {
    exists p :: p in c.Values && p.parentID == projectID
  }

  /** A project with a cached started child is itself started with subprojects included. */
  lemma StartedChildMakesParentStarted(c: Cache, activeID: string, project: Project, child: Project)
    requires Acyclic(c) && KeysMatch(c) && IsValid(project)
    requires child in c.Values && IsValid(child) && child.parentID == project.id
    requires activeID == child.id
    ensures HasChildren(c, project.id)
    ensures Started(c, activeID, project, true)
  {
    ChildDeeper(c, project, child);
  }
}
