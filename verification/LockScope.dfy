/** Which locks a request or a batch needs (api/locking.py, core/view/ids.py). */
module LockScope {
  import opened Collections
  import opened Graph
  import opened Model
  import opened ModelOps
  import opened Locking

  const ARTIFACT_PREFIX: string := "art:"
  const FOLDER_PREFIX: string := "folder:"
  const VIEW_PREFIX: string := "view:"
  const METAMODEL_RESOURCE: Id := "mm"
  const VIEW_ROOT_ID: Id := "root"

  predicate IsModelResource(rid: Id) {
    !(ARTIFACT_PREFIX <= rid) && !(FOLDER_PREFIX <= rid) && rid != METAMODEL_RESOURCE
  }

  /** A folder tree; names and contents take no part in locking. */
  datatype Folder = Folder(id: Id, folders: seq<Folder>)

  datatype View = View(folders: seq<Folder>)

  type Views = map<Id, View>

  // ---- folder trees ------------------------------------------------------------------------

  /** A folder and its descendants, parents first. */
  function Preorder(f: Folder): seq<Folder>
    decreases f, 1
  {
    [f] + PreorderAll(f.folders)
  }

  function PreorderAll(fs: seq<Folder>): seq<Folder>
    decreases fs, 0
  {
    if fs == [] then [] else Preorder(fs[0]) + PreorderAll(fs[1..])
  }

  /** What a stack, its top last, still has to yield. */
  function Pending(stack: seq<Folder>): seq<Folder> {
    if stack == [] then [] else Preorder(stack[|stack| - 1]) + Pending(stack[..|stack| - 1])
  }

  function Reversed(fs: seq<Folder>): seq<Folder> {
    if fs == [] then [] else Reversed(fs[1..]) + [fs[0]]
  }

  lemma {:induction false} PushChildren(stack: seq<Folder>, fs: seq<Folder>)
    ensures Pending(stack + Reversed(fs)) == PreorderAll(fs) + Pending(stack)
  {
    if fs == [] {
      assert stack + Reversed(fs) == stack;
    } else {
      var below := stack + Reversed(fs[1..]);
      assert stack + Reversed(fs) == below + [fs[0]];
      assert (below + [fs[0]])[..|below|] == below;
      PushChildren(stack, fs[1..]);
    }
  }

  function Ids(fs: seq<Folder>): seq<Id> {
    seq(|fs|, i requires 0 <= i < |fs| => fs[i].id)
  }

  /** The first folder with an id, in pre-order. */
  function FirstWithId(fs: seq<Folder>, id: Id): Option<Folder> {
    if fs == [] then None else if fs[0].id == id then Some(fs[0]) else FirstWithId(fs[1..], id)
  }

  method FindFolder(view: View, id: Id) returns (r: Option<Folder>)
    ensures r == FirstWithId(PreorderAll(view.folders), id)
  {
    var stack := Reversed(view.folders);
    PushChildren([], view.folders);
    assert [] + stack == stack && PreorderAll(view.folders) + Pending([]) == PreorderAll(view.folders);
    while stack != []
      invariant FirstWithId(PreorderAll(view.folders), id) == FirstWithId(Pending(stack), id)
      decreases |Pending(stack)|
    {
      var f, rest := stack[|stack| - 1], stack[..|stack| - 1];
      assert Pending(stack) == [f] + (PreorderAll(f.folders) + Pending(rest));
      if f.id == id {
        return Some(f);
      }
      PushChildren(rest, f.folders);
      stack := rest + Reversed(f.folders);
    }
    r := None;
  }

  /** Total: an unknown view or folder stands for itself. */
  function FolderSubtree(view: Option<View>, id: Id): seq<Id> {
    if view.None? then [id] else
    var root := FirstWithId(PreorderAll(view.value.folders), id);
    if root.None? then [id] else Ids(Preorder(root.value))
  }

  method FolderSubtreeIds(view: Option<View>, id: Id) returns (out: seq<Id>)
    ensures out == FolderSubtree(view, id)
  {
    if view.None? {
      return [id];
    }
    var root := FindFolder(view.value, id);
    if root.None? {
      return [id];
    }
    var stack := [root.value];
    out := [];
    assert Pending(stack) == Preorder(root.value);
    while stack != []
      invariant Ids(Preorder(root.value)) == out + Ids(Pending(stack))
      decreases |Pending(stack)|
    {
      var f, rest := stack[|stack| - 1], stack[..|stack| - 1];
      PushChildren(rest, f.folders);
      assert Pending(stack) == [f] + (PreorderAll(f.folders) + Pending(rest));
      assert Ids(Pending(stack)) == [f.id] + Ids(PreorderAll(f.folders) + Pending(rest));
      out := out + [f.id];
      stack := rest + Reversed(f.folders);
    }
  }

  /** The container holding a folder: a parent folder's id, or the root's. */
  function ParentAmong(parent: Id, fs: seq<Folder>, id: Id): Option<Id>
    decreases fs
  {
    if fs == [] then None
    else if fs[0].id == id then Some(parent)
    else
      var below := ParentAmong(fs[0].id, fs[0].folders, id);
      if below.Some? then below else ParentAmong(parent, fs[1..], id)
  }

  /** The folders of some trees: their roots and whatever lies below a root. */
  lemma {:induction false} DescendantsAre(fs: seq<Folder>, f: Folder)
    ensures f in PreorderAll(fs) <==> exists c :: c in fs && (f == c || f in PreorderAll(c.folders))
    decreases |fs|
  {
    if fs != [] {
      DescendantsAre(fs[1..], f);
      assert forall c :: c in fs <==> c == fs[0] || c in fs[1..];
      assert f in PreorderAll(fs) <==> f in Preorder(fs[0]) || f in PreorderAll(fs[1..]);
    }
  }

  ghost predicate IsChild(parent: Id, f: Folder, fs: seq<Folder>, id: Id) {
    (parent == f.id && f in PreorderAll(fs) && exists c :: c in f.folders && c.id == id)
  }

  /** The parent found is the container of a folder with the id: the given one at the top,
      else a folder of the trees; none is found exactly when no folder has the id. */
  lemma {:induction false} ParentIs(parent: Id, fs: seq<Folder>, id: Id)
    ensures var r := ParentAmong(parent, fs, id);
      && (r.None? <==> forall f :: f in PreorderAll(fs) ==> f.id != id)
      && (r.Some? ==> (r.value == parent && exists f :: f in fs && f.id == id) || exists f :: IsChild(r.value, f, fs, id))
    decreases fs
  {
    if fs != [] {
      ParentIs(fs[0].id, fs[0].folders, id);
      ParentIs(parent, fs[1..], id);
      assert fs[0] in PreorderAll(fs) && fs[0] in fs;
      forall f ensures f in PreorderAll(fs) <==> f == fs[0] || f in PreorderAll(fs[0].folders) || f in PreorderAll(fs[1..]) {
      }
      var below := ParentAmong(fs[0].id, fs[0].folders, id);
      if fs[0].id != id && below.Some? {
        if f :| IsChild(below.value, f, fs[0].folders, id) {
          assert IsChild(below.value, f, fs, id);
        } else {
          assert IsChild(below.value, fs[0], fs, id);
        }
      } else if fs[0].id != id && ParentAmong(parent, fs[1..], id).Some? {
        if f :| IsChild(ParentAmong(parent, fs[1..], id).value, f, fs[1..], id) {
          assert IsChild(ParentAmong(parent, fs[1..], id).value, f, fs, id);
        }
      }
    }
  }

  function ContainerResource(view: Id, folder: Id): Id {
    if folder == VIEW_ROOT_ID then VIEW_PREFIX + view else FOLDER_PREFIX + folder
  }

  /** Two containers share a lease exactly when they are one folder, or the roots of one
      view; and a container is never an artifact. */
  lemma ContainersApart(v: Id, f: Id, w: Id, g: Id, artifact: Id)
    ensures ContainerResource(v, f) == ContainerResource(w, g) <==> f == g && (f == VIEW_ROOT_ID ==> v == w)
    ensures ContainerResource(v, f) != ARTIFACT_PREFIX + artifact && ContainerResource(v, f) != METAMODEL_RESOURCE
  {
    var a, b := ContainerResource(v, f), ContainerResource(w, g);
    assert a[0] == if f == VIEW_ROOT_ID then 'v' else 'f';
    assert b[0] == if g == VIEW_ROOT_ID then 'v' else 'f';
    assert (ARTIFACT_PREFIX + artifact)[0] == 'a';
    assert a[if f == VIEW_ROOT_ID then 5 else 7..] == if f == VIEW_ROOT_ID then v else f;
    assert b[if g == VIEW_ROOT_ID then 5 else 7..] == if g == VIEW_ROOT_ID then w else g;
  }

  /** Artifacts, folders and the metamodel are no model resources; a view's root is taken
      for one, as only the other prefixes are looked at. */
  lemma ModelResources(id: Id)
    ensures !IsModelResource(ARTIFACT_PREFIX + id) && !IsModelResource(FOLDER_PREFIX + id) && !IsModelResource(METAMODEL_RESOURCE)
    ensures IsModelResource(VIEW_PREFIX + id)
  {
    assert (VIEW_PREFIX + id)[0] == 'v' && ARTIFACT_PREFIX[0] == 'a' && FOLDER_PREFIX[0] == 'f';
  }

  /** The view that holds a folder, if any does. */
  ghost predicate Owns(views: Views, view: Id, folder: Id) {
    view in views && FirstWithId(PreorderAll(views[view].folders), folder).Some?
  }

  method OwningView(views: Views, folder: Id) returns (r: Option<View>)
    ensures r.Some? ==> exists v :: Owns(views, v, folder) && views[v] == r.value
    ensures r.None? ==> forall v :: !Owns(views, v, folder)
  {
    var todo := views.Keys;
    while todo != {}
      invariant todo <= views.Keys
      invariant forall v :: Owns(views, v, folder) ==> v in todo
    {
      var v :| v in todo;
      todo := todo - {v};
      var f := FindFolder(views[v], folder);
      if f.Some? {
        assert Owns(views, v, folder);
        return Some(views[v]);
      }
    }
    r := None;
  }

  // ---- the containment subtree ------------------------------------------------------------------

  /** Depth first with a stack and a seen set: over any containment graph, cyclic or
      multi-parent, it ends and lists each reachable id once. */
  method ContainmentSubtree(mm: Metamodel, m: Model, root: Id) returns (out: seq<Id>)
    ensures Distinct(out) && SetOf(out) == Subtree(mm, m, root)
  {
    hide Containment, ReachableFrom, ReachSet, Succ;
    ghost var g := Containment(mm, m);
    ghost var all := ReachSet(g, {root});
    ReachSetExact(g, {root});
    out := [];
    var seen: set<Id> := {};
    var stack := [root];
    SuccStays(g, all);
    while stack != []
      invariant Distinct(out) && SetOf(out) == seen && seen <= all
      invariant forall x :: x in stack ==> x in all
      invariant root in seen || root in stack
      invariant forall a, b :: a in seen && b in Succ(g, a) ==> b in seen || b in stack
      decreases |all - seen|, |stack|
    {
      var cur, rest := stack[|stack| - 1], stack[..|stack| - 1];
      assert forall x :: x in stack <==> x in rest || x == cur;
      if cur in seen {
        stack := rest;
        continue;
      }
      SubsetSmaller(all - (seen + {cur}), all - seen);
      seen := seen + {cur};
      SetOfSnoc(out, cur);
      out := out + [cur];
      stack := PushTargets(mm, m, cur, rest);
    }
    SeenIsAll(g, root, seen);
  }

  lemma SuccStays(g: Graph, s: set<Id>)
    requires Closed(g, s)
    ensures forall a, b :: a in s && b in Succ(g, a) ==> b in s
  {
  }

  lemma SetOfSnoc(s: seq<Id>, x: Id)
    requires Distinct(s) && x !in SetOf(s)
    ensures SetOf(s + [x]) == SetOf(s) + {x} && Distinct(s + [x])
  {
  }

  lemma SeenIsAll(g: Graph, root: Id, seen: set<Id>)
    requires root in seen && seen <= ReachSet(g, {root})
    requires forall a, b :: a in seen && b in Succ(g, a) ==> b in seen
    ensures seen == ReachSet(g, {root})
  {
    ReachSetExact(g, {root});
    ClosedReachableIsReachSet(g, {root}, seen);
  }

  lemma SubsetSmaller(a: set<Id>, b: set<Id>)
    requires a < b
    ensures |a| < |b|
  {
    assert b == a + (b - a) && b - a != {};
  }

  /** Push the children of `cur`, in whatever order its relationships come. */
  method PushTargets(mm: Metamodel, m: Model, cur: Id, stack: seq<Id>) returns (more: seq<Id>)
    ensures forall x :: x in more <==> x in stack || x in Succ(Containment(mm, m), cur)
  {
    more := stack;
    var todo := set rid | rid in m.relationships && m.relationships[rid].source == cur && mm.IsContainment(m.relationships[rid].typeName);
    ghost var rels := todo;
    while todo != {}
      invariant todo <= rels
      invariant forall x :: x in more <==> x in stack || exists rid :: rid in rels - todo && m.relationships[rid].target == x
    {
      var rid :| rid in todo;
      todo := todo - {rid};
      more := more + [m.relationships[rid].target];
    }
    forall x ensures x in more <==> x in stack || x in Succ(Containment(mm, m), cur) {
      ContainmentEdge(mm, m, cur, x);
      if rid :| IsContained(mm, m, rid, cur, x) {
        assert rid in rels;
      }
      if rid :| rid in rels && m.relationships[rid].target == x {
        assert IsContained(mm, m, rid, cur, x);
      }
    }
  }
}
