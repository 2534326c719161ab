/**
 * The selection engine (src/services/folderManager.ts): a map from node id to
 * one of four selection states, the cycle a click performs on one node with
 * its downward forcing and upward recomputation, and the collapse of the map
 * into the pre-order work list the copy walk consumes.
 */
module FolderManager {
  import opened Types

  // ---------------------------------------------------------------------------
  // Pure searches over the forest
  // ---------------------------------------------------------------------------

  /** `_findItemById`: the first node, in pre-order, that carries `id`. */
  function FindItemById(id: string, items: seq<Node>): (r: Maybe<Node>)
    ensures r.Just? ==> r.value.id == id && Contains(items, r.value)
    ensures r.Nothing? <==> id !in IdSet(items)
    decreases items
  {
    if items == [] then Nothing
    else if items[0].id == id then Just(items[0])
    else match FindItemById(id, items[0].children)
      case Just(n) => Just(n)
      case Nothing => FindItemById(id, items[1..])
  }

  /** The ids of the top level of a forest. */
  function TopIds(items: seq<Node>): set<string>
    decreases items
  {
    if items == [] then {} else {items[0].id} + TopIds(items[1..])
  }

  /**
   * `_findParentOfItem`: the node whose children hold `id` at the top level;
   * `parent` is what a match on the top level of `items` yields (null at the
   * top of the forest).
   */
  function FindParentOfItem(id: string, items: seq<Node>, parent: Maybe<Node>): Maybe<Node>
    decreases items
  {
    if items == [] then Nothing
    else if items[0].id == id then parent
    else match FindParentOfItem(id, items[0].children, Just(items[0]))
      case Just(p) => Just(p)
      case Nothing => FindParentOfItem(id, items[1..], parent)
  }

  /** The number of proper ancestors of the first node carrying `id`. */
  function Depth(id: string, items: seq<Node>): nat
    decreases items
  {
    if items == [] || items[0].id == id then 0
    else if id in IdSet(items[0].children) then 1 + Depth(id, items[0].children)
    else Depth(id, items[1..])
  }

  /** The ids strictly below the node that carries `a` (none when `a` is unknown). */
  function DescendantIds(a: string, structure: seq<Node>): set<string>
  {
    match FindItemById(a, structure)
    case Just(n) => IdSet(n.children)
    case Nothing => {}
  }

  // ---------------------------------------------------------------------------
  // Lemmas about the searches
  // ---------------------------------------------------------------------------

  lemma {:induction false} TopIdsInIdSet(items: seq<Node>)
    ensures TopIds(items) <= IdSet(items)
    decreases items
  {
    if items != [] {
      TopIdsInIdSet(items[1..]);
    }
  }

  /** With unique ids, the search by id finds exactly the node that carries it. */
  lemma FindItemUnique(items: seq<Node>, n: Node)
    requires UniqueIds(items) && Contains(items, n)
    ensures FindItemById(n.id, items) == Just(n)
  {
    ContainedIds(items, n);
    var q := FindItemById(n.id, items).value;
    SameIdSameNode(items, n, q);
  }

  /** A top-level node of a forest with unique ids has no ancestor. */
  lemma {:induction false} TopLevelDepth(id: string, items: seq<Node>)
    requires UniqueIds(items) && id in TopIds(items)
    ensures Depth(id, items) == 0
    decreases items
  {
    if items[0].id != id {
      TopIdsInIdSet(items[1..]);
      TopLevelDepth(id, items[1..]);
    }
  }

  /**
   * What `_findParentOfItem` returns: either the `parent` handed in, for an id
   * on the top level, or a node of the forest that holds `id` among its
   * children, one level above it.
   */
  lemma {:induction false} ParentDepth(id: string, items: seq<Node>, parent: Maybe<Node>, p: Node)
    requires UniqueIds(items)
    requires FindParentOfItem(id, items, parent) == Just(p)
    ensures || (parent == Just(p) && id in TopIds(items))
            || (Contains(items, p) && id in TopIds(p.children) && Depth(id, items) == Depth(p.id, items) + 1)
    decreases items
  {
    var x := items[0];
    if x.id != id {
      match FindParentOfItem(id, x.children, Just(x))
      case Just(q) =>
        ParentDepth(id, x.children, Just(x), p);
        TopIdsInIdSet(p.children);
        if Just(x) == Just(p) && id in TopIds(x.children) {
          TopLevelDepth(id, x.children);
        } else {
          ContainedIds(x.children, p);
        }
      case Nothing =>
        ParentDepth(id, items[1..], parent, p);
        if !(parent == Just(p) && id in TopIds(items[1..])) {
          TopIdsInIdSet(p.children);
          ContainedIds(items[1..], p);
        }
    }
  }

  /** With unique ids, a node recorded below `n` has its whole subtree below `n`. */
  lemma SubtreeClosed(structure: seq<Node>, n: Node, p: Node)
    requires UniqueIds(structure) && Contains(structure, n) && Contains(structure, p)
    requires p.id in IdSet(n.children)
    ensures IdSet(p.children) <= IdSet(n.children)
  {
    var q := FindItemById(p.id, n.children).value;
    ContainsTransitive(structure, n, q);
    SameIdSameNode(structure, p, q);
    ContainedIds(n.children, p);
  }

  /** With unique ids, no two nodes lie below each other. */
  lemma NoMutualDescent(structure: seq<Node>, n: Node, q: Node)
    requires UniqueIds(structure) && Contains(structure, n) && Contains(structure, q)
    requires q.id in IdSet(n.children)
    ensures n.id !in IdSet(q.children)
  {
    SubtreeClosed(structure, n, q);
    UniqueBelow(structure, n);
  }

  // ---------------------------------------------------------------------------
  // The ancestor chain `_updateParentStates` climbs
  // ---------------------------------------------------------------------------

  /** The ids `_updateParentStates` visits, from the parent of `id` up to a top-level node. */
  function AncestorIds(id: string, structure: seq<Node>): set<string>
    requires UniqueIds(structure)
    decreases Depth(id, structure)
  {
    match FindParentOfItem(id, structure, Nothing)
    case Nothing => {}
    case Just(p) =>
      ParentDepth(id, structure, Nothing, p);
      {p.id} + AncestorIds(p.id, structure)
  }

  /** Every id on the climbed chain is that of a node with `id` in its subtree. */
  lemma {:induction false} AncestorsAbove(id: string, structure: seq<Node>, a: string)
    requires UniqueIds(structure)
    requires a in AncestorIds(id, structure)
    ensures id in DescendantIds(a, structure)
    decreases Depth(id, structure)
  {
    var p := FindParentOfItem(id, structure, Nothing).value;
    ParentDepth(id, structure, Nothing, p);
    TopIdsInIdSet(p.children);
    if a == p.id {
      FindItemUnique(structure, p);
    } else {
      AncestorsAbove(p.id, structure, a);
      var n := FindItemById(a, structure).value;
      SubtreeClosed(structure, n, p);
    }
  }

  /** No node is its own ancestor, and none of its descendants is one either. */
  lemma AncestorsDisjoint(id: string, structure: seq<Node>, n: Node, k: string)
    requires UniqueIds(structure) && FindItemById(id, structure) == Just(n)
    requires k == id || k in IdSet(n.children)
    ensures k !in AncestorIds(id, structure)
  {
    if k in AncestorIds(id, structure) {
      AncestorsAbove(id, structure, k);
      UniqueBelow(structure, n);
      if k != id {
        var q := FindItemById(k, structure).value;
        NoMutualDescent(structure, n, q);
      }
    }
  }

  // ---------------------------------------------------------------------------
  // The parent search finds the parent whenever there is one
  // ---------------------------------------------------------------------------

  /** An id nowhere in the forest has no parent there. */
  lemma {:induction false} AbsentNotFound(id: string, items: seq<Node>, parent: Maybe<Node>)
    requires id !in IdSet(items)
    ensures FindParentOfItem(id, items, parent) == Nothing
    decreases items
  {
    if items != [] {
      AbsentNotFound(id, items[0].children, Just(items[0]));
      AbsentNotFound(id, items[1..], parent);
    }
  }

  /** With unique ids, an id on the top level yields the `parent` handed in. */
  lemma {:induction false} TopFound(id: string, items: seq<Node>, parent: Maybe<Node>)
    requires UniqueIds(items) && id in TopIds(items)
    ensures FindParentOfItem(id, items, parent) == parent
    decreases items
  {
    if items[0].id != id {
      TopIdsInIdSet(items[1..]);
      AbsentNotFound(id, items[0].children, Just(items[0]));
      TopFound(id, items[1..], parent);
    }
  }

  /** With unique ids, a child of a node of the forest yields that node. */
  lemma {:induction false} ParentFound(id: string, items: seq<Node>, parent: Maybe<Node>, p: Node)
    requires UniqueIds(items) && Contains(items, p) && id in TopIds(p.children)
    ensures FindParentOfItem(id, items, parent) == Just(p)
    decreases items
  {
    var x := items[0];
    TopIdsInIdSet(p.children);
    if x == p {
      TopFound(id, x.children, Just(x));
    } else if Contains(x.children, p) {
      ContainedIds(x.children, p);
      ParentFound(id, x.children, Just(x), p);
    } else {
      ContainedIds(items[1..], p);
      AbsentNotFound(id, x.children, Just(x));
      ParentFound(id, items[1..], parent, p);
    }
  }

  /** An id below the top level of a forest is the child of some node of it. */
  lemma {:induction false} ParentExists(id: string, items: seq<Node>) returns (q: Node)
    requires id in IdSet(items) && id !in TopIds(items)
    ensures Contains(items, q) && id in TopIds(q.children)
    decreases items
  {
    var x := items[0];
    if id in IdSet(x.children) {
      if id in TopIds(x.children) {
        q := x;
      } else {
        q := ParentExists(id, x.children);
      }
    } else {
      q := ParentExists(id, items[1..]);
    }
  }

  /**
   * The climbed chain misses no ancestor: every node with `id` below it is
   * on it, however far up.
   */
  lemma {:induction false} AncestorsComplete(id: string, structure: seq<Node>, n: Node)
    requires UniqueIds(structure) && Contains(structure, n) && id in IdSet(n.children)
    ensures n.id in AncestorIds(id, structure)
    decreases Depth(id, structure)
  {
    var q: Node;
    if id in TopIds(n.children) {
      q := n;
    } else {
      q := ParentExists(id, n.children);
      ContainsTransitive(structure, n, q);
    }
    ParentFound(id, structure, Nothing, q);
    ParentDepth(id, structure, Nothing, q);
    if q != n {
      ContainedIds(n.children, q);
      AncestorsComplete(q.id, structure, n);
    }
  }

  /** The climbed chain is exactly the set of nodes that hold `id` in their subtree. */
  lemma AncestorIdsExact(id: string, structure: seq<Node>, a: string)
    requires UniqueIds(structure)
    ensures a in AncestorIds(id, structure) <==> id in DescendantIds(a, structure)
  {
    if a in AncestorIds(id, structure) {
      AncestorsAbove(id, structure, a);
    }
    if id in DescendantIds(a, structure) {
      AncestorsComplete(id, structure, FindItemById(a, structure).value);
    }
  }

  // ---------------------------------------------------------------------------
  // The state machine, as functions of the map
  // ---------------------------------------------------------------------------

  /** The transition table of `cycleSelection`. */
  function NextState(item: Node, current: SelectionState): SelectionState
  {
    if item.kind == Folder && |item.children| > 0 then
      match current
      case None => All
      case All => FolderOnly
      case FolderOnly => None
      case Partial => All
    else
      match current
      case None => All
      case All => None
      case _ => All
  }

  /** The state `_updateChildrenStates` forces on every descendant of a node that moved to `s`. */
  function Forced(s: SelectionState): Maybe<SelectionState>
  {
    match s
    case All => Just(All)
    case None => Just(None)
    case FolderOnly => Just(None)
    case Partial => Nothing
  }

  /** The map after `_updateChildrenStates(item, s)`. */
  function ForcedBelow(m: States, item: Node, s: SelectionState): States
  {
    match Forced(s)
    case Nothing => m
    case Just(t) => Assigned(m, item.children, t)
  }

  /** The states the children of a node have in `m`, in order. */
  function ChildStates(m: States, children: seq<Node>): (r: seq<SelectionState>)
    ensures |r| == |children|
    ensures forall i :: 0 <= i < |children| ==> r[i] == StateOf(m, children[i].id)
  {
    seq(|children|, i requires 0 <= i < |children| => StateOf(m, children[i].id))
  }

  /**
   * The upward rule of `_updateParentStates` for one parent: the state it is
   * written with, or `Nothing` when the code leaves it as it is.
   */
  function UpwardRule(childStates: seq<SelectionState>, parentState: SelectionState): Maybe<SelectionState>
  {
    var allSelected := forall i :: 0 <= i < |childStates| ==> childStates[i] == All;
    var noneSelected := forall i :: 0 <= i < |childStates| ==> childStates[i] == None;
    if allSelected && (parentState == FolderOnly || parentState == All) then Just(All)
    else if noneSelected && parentState != FolderOnly then Just(None)
    else if (exists i :: 0 <= i < |childStates| && childStates[i] != None) || parentState == FolderOnly then Just(Partial)
    else Nothing
  }

  /** The map after the upward rule has been applied to `parent`. */
  function Recomputed(m: States, parent: Node): States
  {
    match UpwardRule(ChildStates(m, parent.children), StateOf(m, parent.id))
    case Just(s) => m[parent.id := s]
    case Nothing => m
  }

  /** The map after `_updateParentStates(id, structure)`: every ancestor recomputed, nearest first. */
  function UpdatedAncestors(m: States, id: string, structure: seq<Node>): States
    requires UniqueIds(structure)
    decreases Depth(id, structure)
  {
    match FindParentOfItem(id, structure, Nothing)
    case Nothing => m
    case Just(p) =>
      ParentDepth(id, structure, Nothing, p);
      UpdatedAncestors(Recomputed(m, p), p.id, structure)
  }

  /** The map after `cycleSelection(id, structure)`. */
  function Cycled(m: States, id: string, structure: seq<Node>): States
    requires UniqueIds(structure)
  {
    match FindItemById(id, structure)
    case Nothing => m
    case Just(item) =>
      var s := NextState(item, StateOf(m, id));
      UpdatedAncestors(ForcedBelow(m[id := s], item, s), id, structure)
  }

  /** The state `cycleSelection(id, structure)` returns. */
  function CycleResult(m: States, id: string, structure: seq<Node>): SelectionState
  {
    match FindItemById(id, structure)
    case Nothing => StateOf(m, id)
    case Just(item) => NextState(item, StateOf(m, id))
  }

  // ---------------------------------------------------------------------------
  // Properties of the state machine
  // ---------------------------------------------------------------------------

  /**
   * The upward rule, for a parent with at least one child: `all` exactly when
   * every child is `all` and the parent was `folder-only` or `all`; `none`
   * exactly when every child is `none` and the parent was not `folder-only`;
   * `partial` in every other case. The branch that would leave the parent as
   * it is can never be taken.
   */
  lemma UpwardRuleOutcome(childStates: seq<SelectionState>, parentState: SelectionState)
    requires |childStates| > 0
    ensures UpwardRule(childStates, parentState).Just?
    ensures UpwardRule(childStates, parentState) == Just(All) <==>
      (forall i :: 0 <= i < |childStates| ==> childStates[i] == All) && parentState in {FolderOnly, All}
    ensures UpwardRule(childStates, parentState) == Just(None) <==>
      (forall i :: 0 <= i < |childStates| ==> childStates[i] == None) && parentState != FolderOnly
    ensures UpwardRule(childStates, parentState) == Just(Partial) <==>
      && !((forall i :: 0 <= i < |childStates| ==> childStates[i] == All) && parentState in {FolderOnly, All})
      && !((forall i :: 0 <= i < |childStates| ==> childStates[i] == None) && parentState != FolderOnly)
  {
    if forall i :: 0 <= i < |childStates| ==> childStates[i] == All {
      assert childStates[0] != None;
    }
  }

  /** `_updateParentStates` writes only ids on the ancestor chain. */
  lemma {:induction false} UpdatedAncestorsFrame(m: States, id: string, structure: seq<Node>, k: string)
    requires UniqueIds(structure)
    requires k !in AncestorIds(id, structure)
    ensures k in UpdatedAncestors(m, id, structure) <==> k in m
    ensures k in m ==> UpdatedAncestors(m, id, structure)[k] == m[k]
    decreases Depth(id, structure)
  {
    match FindParentOfItem(id, structure, Nothing)
    case Nothing =>
    case Just(p) =>
      ParentDepth(id, structure, Nothing, p);
      UpdatedAncestorsFrame(Recomputed(m, p), p.id, structure, k);
  }

  /** The map right after the cycled node's own write and the downward forcing. */
  function AfterOwnWrite(m: States, item: Node): States
  {
    var s := NextState(item, StateOf(m, item.id));
    ForcedBelow(m[item.id := s], item, s)
  }

  /** After a cycle, the node has the state the transition table gives, and that is the state returned. */
  lemma CycleOwnState(m: States, id: string, structure: seq<Node>)
    requires UniqueIds(structure)
    ensures StateOf(Cycled(m, id, structure), id) == CycleResult(m, id, structure)
    ensures FindItemById(id, structure).Just? ==>
      CycleResult(m, id, structure) == NextState(FindItemById(id, structure).value, StateOf(m, id))
  {
    match FindItemById(id, structure)
    case Nothing =>
    case Just(n) =>
      UniqueBelow(structure, n);
      var s := NextState(n, StateOf(m, id));
      AssignedAt(m[id := s], n.children, if s == All then All else None, id);
      AncestorsDisjoint(id, structure, n, id);
      UpdatedAncestorsFrame(AfterOwnWrite(m, n), id, structure, id);
  }

  /** Cycling an id that is not in the forest returns its current state and changes nothing. */
  lemma CycleUnknown(m: States, id: string, structure: seq<Node>)
    requires UniqueIds(structure) && id !in IdSet(structure)
    ensures Cycled(m, id, structure) == m
    ensures CycleResult(m, id, structure) == StateOf(m, id)
  {
  }

  /**
   * Downward forcing: after a cycle to `all` every descendant is `all`; after
   * a cycle to `none` or `folder-only` every descendant is `none`.
   */
  lemma CycleForcesDescendants(m: States, id: string, structure: seq<Node>, k: string)
    requires UniqueIds(structure)
    requires k in DescendantIds(id, structure)
    ensures CycleResult(m, id, structure) != Partial
    ensures StateOf(Cycled(m, id, structure), k) == if CycleResult(m, id, structure) == All then All else None
  {
    var n := FindItemById(id, structure).value;
    var s := NextState(n, StateOf(m, id));
    AssignedAt(m[id := s], n.children, if s == All then All else None, k);
    AncestorsDisjoint(id, structure, n, k);
    UpdatedAncestorsFrame(AfterOwnWrite(m, n), id, structure, k);
  }

  /**
   * Nothing else changes: a cycle writes only the cycled node, its
   * descendants and the nodes it lies below.
   */
  lemma CycleFrame(m: States, id: string, structure: seq<Node>, k: string)
    requires UniqueIds(structure)
    requires k != id && k !in DescendantIds(id, structure) && id !in DescendantIds(k, structure)
    ensures k in Cycled(m, id, structure) <==> k in m
    ensures k in m ==> Cycled(m, id, structure)[k] == m[k]
  {
    match FindItemById(id, structure)
    case Nothing =>
    case Just(n) =>
      var s := NextState(n, StateOf(m, id));
      AssignedAt(m[id := s], n.children, if s == All then All else None, k);
      if k in AncestorIds(id, structure) {
        AncestorsAbove(id, structure, k);
      }
      UpdatedAncestorsFrame(AfterOwnWrite(m, n), id, structure, k);
  }

  /** Two siblings of a forest with unique ids: neither lies below the other. */
  lemma {:induction false} SiblingsApart(items: seq<Node>, i: nat, j: nat)
    requires UniqueIds(items) && i < |items| && j < |items| && i != j
    ensures items[i].id !in IdSet(items[j].children)
    ensures items[i].id != items[j].id
    decreases items
  {
    if i == 0 {
      SiblingInRest(items, j);
    } else if j == 0 {
      SiblingInRest(items, i);
    } else {
      SiblingsApart(items[1..], i - 1, j - 1);
    }
  }

  /** A later sibling's ids are among those of the rest of the forest. */
  lemma SiblingInRest(items: seq<Node>, i: nat)
    requires 0 < i < |items|
    ensures {items[i].id} + IdSet(items[i].children) <= IdSet(items[1..])
  {
    var rest := items[1..];
    assert rest == rest[..i - 1] + rest[i - 1..];
    IdSetAppend(rest[..i - 1], rest[i - 1..]);
    assert rest[i - 1..][0] == items[i];
  }

  /**
   * The upward rule at the parent of the cycled node: the parent is written
   * with the rule applied to its children's states, where the cycled child
   * has its new state and every sibling the state it had before, and to the
   * parent's own state before the cycle.
   */
  lemma CycleUpdatesParent(m: States, id: string, structure: seq<Node>, p: Node)
    requires UniqueIds(structure)
    requires Contains(structure, p) && id in TopIds(p.children)
    ensures p.id in Cycled(m, id, structure)
    ensures Just(Cycled(m, id, structure)[p.id]) == UpwardRule(
      seq(|p.children|, i requires 0 <= i < |p.children| =>
        if p.children[i].id == id then CycleResult(m, id, structure) else StateOf(m, p.children[i].id)),
      StateOf(m, p.id))
  {
    ParentFound(id, structure, Nothing, p);
    CycleUpdatesFoundParent(m, id, structure, p);
  }

  /** `CycleUpdatesParent` for the node the parent search returns. */
  lemma CycleUpdatesFoundParent(m: States, id: string, structure: seq<Node>, p: Node)
    requires UniqueIds(structure)
    requires FindParentOfItem(id, structure, Nothing) == Just(p)
    ensures p.id in Cycled(m, id, structure)
    ensures Just(Cycled(m, id, structure)[p.id]) == UpwardRule(
      seq(|p.children|, i requires 0 <= i < |p.children| =>
        if p.children[i].id == id then CycleResult(m, id, structure) else StateOf(m, p.children[i].id)),
      StateOf(m, p.id))
  {
    ParentDepth(id, structure, Nothing, p);
    TopIdsInIdSet(p.children);
    ContainedIds(structure, p);
    var n := FindItemById(id, structure).value;
    var s := NextState(n, StateOf(m, id));
    var mid := AfterOwnWrite(m, n);
    UniqueBelow(structure, p);
    // the parent's own entry is untouched by the node's write and by the forcing
    assert p.id != id;
    if p.id in IdSet(n.children) {
      NoMutualDescent(structure, n, p);
    }
    AssignedAt(m[id := s], n.children, if s == All then All else None, p.id);
    // the children's entries: the cycled child has its new state, the siblings theirs
    var cs := ChildStates(mid, p.children);
    CycledChildStates(m, id, structure, p, n);
    UpwardRuleOutcome(cs, StateOf(mid, p.id));
    FindItemUnique(structure, p);
    AncestorsDisjoint(p.id, structure, p, p.id);
    UpdatedAncestorsFrame(Recomputed(mid, p), p.id, structure, p.id);
    assert CycleResult(m, id, structure) == s;
    assert cs == seq(|p.children|, i requires 0 <= i < |p.children| =>
      if p.children[i].id == id then CycleResult(m, id, structure) else StateOf(m, p.children[i].id));
    assert Cycled(m, id, structure) == UpdatedAncestors(Recomputed(mid, p), p.id, structure);
  }

  /**
   * After the cycled node's own write and the forcing below it, the
   * children of its parent read: the cycled child its new state, every
   * sibling the state it had before.
   */
  lemma CycledChildStates(m: States, id: string, structure: seq<Node>, p: Node, n: Node)
    requires UniqueIds(structure)
    requires FindParentOfItem(id, structure, Nothing) == Just(p)
    requires FindItemById(id, structure) == Just(n)
    ensures forall i :: 0 <= i < |p.children| ==>
      ChildStates(AfterOwnWrite(m, n), p.children)[i]
        == if p.children[i].id == id then NextState(n, StateOf(m, id)) else StateOf(m, p.children[i].id)
  {
    ParentDepth(id, structure, Nothing, p);
    ContainedIds(structure, p);
    var s := NextState(n, StateOf(m, id));
    var cs := ChildStates(AfterOwnWrite(m, n), p.children);
    forall i | 0 <= i < |p.children|
      ensures cs[i] == if p.children[i].id == id then s else StateOf(m, p.children[i].id)
    {
      var c := p.children[i];
      ContainsChild(p, i);
      ContainsTransitive(structure, p, c);
      if c.id == id {
        SameIdSameNode(structure, n, c);
        UniqueBelow(structure, n);
      } else {
        var j := ChildIndex(p.children, id);
        ContainsChild(p, j);
        ContainsTransitive(structure, p, p.children[j]);
        SameIdSameNode(structure, n, p.children[j]);
        UniqueBelow(structure, p);
        SiblingsApart(p.children, i, j);
      }
      AssignedAt(m[id := s], n.children, if s == All then All else None, c.id);
    }
  }

  /**
   * The node carrying `a` holds, in `after`, the upward rule applied to its
   * children's states in `after` and to its own state in `before`.
   */
  predicate FollowsUpwardRule(after: States, before: States, a: string, structure: seq<Node>)
  {
    && FindItemById(a, structure).Just?
    && a in after
    && Just(after[a]) == UpwardRule(ChildStates(after, FindItemById(a, structure).value.children), StateOf(before, a))
  }

  /**
   * Every ancestor the upward pass climbs ends up holding the upward rule
   * applied to its children's final states and to its own state before the
   * pass: the child below it on the chain was recomputed before it, its other
   * children are never written, and nothing above it writes it again.
   */
  lemma {:induction false} AncestorsFollowRule(m: States, id: string, structure: seq<Node>, a: string)
    requires UniqueIds(structure)
    requires a in AncestorIds(id, structure)
    ensures FollowsUpwardRule(UpdatedAncestors(m, id, structure), m, a, structure)
    decreases Depth(id, structure)
  {
    var p := FindParentOfItem(id, structure, Nothing).value;
    ParentDepth(id, structure, Nothing, p);
    var m1 := Recomputed(m, p);
    var final := UpdatedAncestors(m1, p.id, structure);
    assert final == UpdatedAncestors(m, id, structure);
    if a == p.id {
      FindItemUnique(structure, p);
      assert p.children != [];
      UpwardRuleOutcome(ChildStates(m, p.children), StateOf(m, p.id));
      AncestorsDisjoint(p.id, structure, p, p.id);
      UpdatedAncestorsFrame(m1, p.id, structure, p.id);
      UniqueBelow(structure, p);
      forall i | 0 <= i < |p.children|
        ensures StateOf(final, p.children[i].id) == StateOf(m, p.children[i].id)
      {
        ContainsChild(p, i);
        ContainedIds(p.children, p.children[i]);
        AncestorsDisjoint(p.id, structure, p, p.children[i].id);
        UpdatedAncestorsFrame(m1, p.id, structure, p.children[i].id);
      }
      assert ChildStates(final, p.children) == ChildStates(m, p.children);
    } else {
      AncestorsFollowRule(m1, p.id, structure, a);
    }
  }

  /** The upward rule holds at every node above `id` at once. */
  lemma AncestorsFollowRuleAll(m: States, id: string, structure: seq<Node>)
    requires UniqueIds(structure)
    ensures forall a :: id in DescendantIds(a, structure) ==>
      FollowsUpwardRule(UpdatedAncestors(m, id, structure), m, a, structure)
  {
    forall a | id in DescendantIds(a, structure)
      ensures FollowsUpwardRule(UpdatedAncestors(m, id, structure), m, a, structure)
    {
      AncestorIdsExact(id, structure, a);
      AncestorsFollowRule(m, id, structure, a);
    }
  }

  /**
   * The upward rule at every ancestor of the cycled node, up to the top of
   * the forest: each holds the rule applied to its children's states after
   * the cycle and to its own state before it.
   */
  lemma CycleUpdatesAncestors(m: States, id: string, structure: seq<Node>, a: string)
    requires UniqueIds(structure)
    requires id in DescendantIds(a, structure)
    ensures FollowsUpwardRule(Cycled(m, id, structure), m, a, structure)
  {
    AncestorIdsExact(id, structure, a);
    var p := FindParentOfItem(id, structure, Nothing).value;
    ParentDepth(id, structure, Nothing, p);
    TopIdsInIdSet(p.children);
    ContainedIds(structure, p);
    var n := FindItemById(id, structure).value;
    var s := NextState(n, StateOf(m, id));
    if a == id || a in IdSet(n.children) {
      AncestorsDisjoint(id, structure, n, a);
    }
    AssignedAt(m[id := s], n.children, if s == All then All else None, a);
    assert StateOf(AfterOwnWrite(m, n), a) == StateOf(m, a);
    AncestorsFollowRule(AfterOwnWrite(m, n), id, structure, a);
  }

  /** The rule at every node above the cycled one at once. */
  lemma CycleUpdatesAncestorsAll(m: States, id: string, structure: seq<Node>)
    requires UniqueIds(structure)
    ensures forall a :: id in DescendantIds(a, structure) ==> FollowsUpwardRule(Cycled(m, id, structure), m, a, structure)
  {
    forall a | id in DescendantIds(a, structure)
      ensures FollowsUpwardRule(Cycled(m, id, structure), m, a, structure)
    {
      CycleUpdatesAncestors(m, id, structure, a);
    }
  }

  /** The children of a node of the forest are nodes of the forest. */
  lemma ContainsChild(p: Node, i: nat)
    requires i < |p.children|
    ensures Contains(p.children, p.children[i])
  {
    if i > 0 {
      ContainsAt(p.children, i);
    }
  }

  lemma {:induction false} ContainsAt(items: seq<Node>, i: nat)
    requires i < |items|
    ensures Contains(items, items[i])
    decreases items
  {
    if i > 0 {
      ContainsAt(items[1..], i - 1);
    }
  }

  /** The position of a top-level id. */
  lemma {:induction false} ChildIndex(items: seq<Node>, id: string) returns (j: nat)
    requires id in TopIds(items)
    ensures j < |items| && items[j].id == id
    decreases items
  {
    if items[0].id == id {
      j := 0;
    } else {
      j := ChildIndex(items[1..], id);
      j := j + 1;
    }
  }

  /** Cycling a non-empty folder three times from `none` goes `all`, `folder-only`, `none`. */
  lemma CycleFolderThrice(m: States, id: string, structure: seq<Node>)
    requires UniqueIds(structure)
    requires FindItemById(id, structure).Just?
    requires FindItemById(id, structure).value.kind == Folder
    requires |FindItemById(id, structure).value.children| > 0
    requires StateOf(m, id) == None
    ensures CycleResult(m, id, structure) == All
    ensures CycleResult(Cycled(m, id, structure), id, structure) == FolderOnly
    ensures CycleResult(Cycled(Cycled(m, id, structure), id, structure), id, structure) == None
  {
    var m1 := Cycled(m, id, structure);
    var m2 := Cycled(m1, id, structure);
    CycleOwnState(m, id, structure);
    CycleOwnState(m1, id, structure);
    CycleOwnState(m2, id, structure);
  }

  /** Cycling a file or an empty folder twice from `none` goes `all`, then `none`. */
  lemma CycleLeafTwice(m: States, id: string, structure: seq<Node>)
    requires UniqueIds(structure)
    requires FindItemById(id, structure).Just?
    requires FindItemById(id, structure).value.kind == File || FindItemById(id, structure).value.children == []
    requires StateOf(m, id) == None
    ensures CycleResult(m, id, structure) == All
    ensures CycleResult(Cycled(m, id, structure), id, structure) == None
  {
    CycleOwnState(m, id, structure);
  }

  // ---------------------------------------------------------------------------
  // The collapser
  // ---------------------------------------------------------------------------

  /** Some child of `item` is `all`, `folder-only` or `partial`. */
  predicate HasSelectedChild(m: States, item: Node)
  {
    exists c :: c in item.children && StateOf(m, c.id) in {All, FolderOnly, Partial}
  }

  /**
   * The work list `_collectSelectedItems` pushes for `items`: what each
   * top-level node emits, in order.
   */
  function Collected(m: States, items: seq<Node>): (r: seq<SelectedItem>)
    ensures forall e :: e in r ==> Contains(items, e.item)
    ensures forall e :: e in r ==>
      || (e.selectionType == All && e.includeChildren && StateOf(m, e.item.id) == All)
      || (e.selectionType == FolderOnly && !e.includeChildren && StateOf(m, e.item.id) in {FolderOnly, Partial})
    decreases items
  {
    if items == [] then [] else Emitted(m, items[0]) + Collected(m, items[1..])
  }

  /**
   * What one node emits: an `all` node is emitted with its children included,
   * a `folder-only` node without, and neither is entered; a `partial` node
   * emits a `folder-only` entry only if a child is selected, then its children
   * are walked; a `none` (or unrecorded) node emits nothing.
   */
  function Emitted(m: States, item: Node): (r: seq<SelectedItem>)
    ensures forall e :: e in r ==> e.item == item || Contains(item.children, e.item)
    ensures forall e :: e in r ==>
      || (e.selectionType == All && e.includeChildren && StateOf(m, e.item.id) == All)
      || (e.selectionType == FolderOnly && !e.includeChildren && StateOf(m, e.item.id) in {FolderOnly, Partial})
    decreases item
  {
    match StateOf(m, item.id)
    case All => [SelectedItem(item, All, true)]
    case FolderOnly => [SelectedItem(item, FolderOnly, false)]
    case Partial =>
      (if HasSelectedChild(m, item) then [SelectedItem(item, FolderOnly, false)] else [])
      + Collected(m, item.children)
    case None => []
  }

  lemma {:induction false} CollectedAppend(m: States, a: seq<Node>, b: seq<Node>)
    ensures Collected(m, a + b) == Collected(m, a) + Collected(m, b)
    decreases a
  {
    if a == [] {
      assert a + b == b;
    } else {
      assert (a + b)[0] == a[0];
      assert (a + b)[1..] == a[1..] + b;
      CollectedAppend(m, a[1..], b);
    }
  }

  /** The work list of `items[..i+1]`: that of `items[..i]`, then what `items[i]` emits. */
  lemma CollectedSnoc(m: States, items: seq<Node>, i: nat)
    requires i < |items|
    ensures Collected(m, items[..i + 1]) == Collected(m, items[..i]) + Emitted(m, items[i])
  {
    assert items[..i + 1] == items[..i] + [items[i]];
    CollectedAppend(m, items[..i], [items[i]]);
    assert [items[i]][1..] == [];
  }

  /** `d` does not lie under `e`. */
  ghost predicate NotBelow(e: SelectedItem, d: SelectedItem)
  {
    d.item.id !in IdSet(e.item.children)
  }

  /** `e` was emitted for a node whose recorded state is `all` or `folder-only`. */
  ghost predicate Whole(m: States, e: SelectedItem)
  {
    StateOf(m, e.item.id) in {All, FolderOnly}
  }

  /**
   * No emitted item lies under an emitted node whose recorded state is `all`
   * or `folder-only`: the subtree of such a node is never visited.
   */
  lemma {:induction false} NothingBelowWholeEntries(m: States, items: seq<Node>)
    requires UniqueIds(items)
    ensures forall e, d :: e in Collected(m, items) && d in Collected(m, items) && Whole(m, e) ==> NotBelow(e, d)
    decreases items
  {
    if items != [] {
      NothingBelowWholeEntries(m, items[1..]);
      NothingBelowWholeEmitted(m, items[0], items);
      forall e, d | e in Collected(m, items) && d in Collected(m, items) && Whole(m, e)
        ensures NotBelow(e, d)
      {
        var x := items[0];
        if e in Emitted(m, x) && d in Collected(m, items[1..]) {
          ContainedIds(items[1..], d.item);
          if e.item != x {
            ContainedIds(x.children, e.item);
          }
        } else if d in Emitted(m, x) && e in Collected(m, items[1..]) {
          ContainedIds(items[1..], e.item);
          if d.item != x {
            ContainedIds(x.children, d.item);
          }
        }
      }
    }
  }

  /** The same, for what one node of a forest with unique ids emits. */
  lemma {:induction false} NothingBelowWholeEmitted(m: States, x: Node, items: seq<Node>)
    requires UniqueIds(items) && items != [] && items[0] == x
    ensures forall e, d :: e in Emitted(m, x) && d in Emitted(m, x) && Whole(m, e) ==> NotBelow(e, d)
    decreases x
  {
    if StateOf(m, x.id) == Partial {
      NothingBelowWholeEntries(m, x.children);
      forall e, d | e in Emitted(m, x) && d in Emitted(m, x) && Whole(m, e)
        ensures NotBelow(e, d)
      {
        if e.item != x {
          ContainedIds(x.children, e.item);
        }
      }
    }
  }

  /** Every node selected `all` at the top level: one `all` entry per top-level node. */
  lemma {:induction false} WorkListAllSelected(m: States, items: seq<Node>)
    requires forall k :: 0 <= k < |items| ==> StateOf(m, items[k].id) == All
    ensures Collected(m, items) == seq(|items|, k requires 0 <= k < |items| => SelectedItem(items[k], All, true))
    decreases items
  {
    if items != [] {
      WorkListAllSelected(m, items[1..]);
    }
  }

  /** Every top-level node `none`: the work list is empty. */
  lemma {:induction false} WorkListNoneSelected(m: States, items: seq<Node>)
    requires forall k :: 0 <= k < |items| ==> StateOf(m, items[k].id) == None
    ensures Collected(m, items) == []
    decreases items
  {
    if items != [] {
      WorkListNoneSelected(m, items[1..]);
    }
  }

  // ---------------------------------------------------------------------------
  // The manager object
  // ---------------------------------------------------------------------------

  /** `FolderManager`: owns the `selectionStates` map. */
  class FolderManager {
    var selectionStates: States

    constructor ()
      ensures selectionStates == map[]
    {
      selectionStates := map[];
    }

    /** `loadFolderStructure`, given the forest the listing returned: every node starts as `none`. */
    method LoadFolderStructure(fetched: seq<Node>) returns (structure: seq<Node>)
      modifies this
      ensures structure == fetched
      ensures selectionStates == Assigned(old(selectionStates), fetched, None)
    {
      structure := fetched;
      InitializeSelectionStates(structure);
    }

    /** `_initializeSelectionStates`: every node of `items`, at every depth, becomes `none`. */
    method InitializeSelectionStates(items: seq<Node>)
      modifies this
      ensures selectionStates == Assigned(old(selectionStates), items, None)
      decreases items
    {
      for i := 0 to |items|
        invariant selectionStates == Assigned(old(selectionStates), items[..i], None)
      {
        ghost var before := selectionStates;
        selectionStates := selectionStates[items[i].id := None];
        if |items[i].children| > 0 {
          InitializeSelectionStates(items[i].children);
        } else {
          AssignedNothing(before[items[i].id := None], None);
        }
        AssignedSnoc(old(selectionStates), items, i, None);
      }
      assert items[..|items|] == items;
    }

    /** `getSelectionState`: the recorded state, `none` for an unseen id. */
    function GetSelectionState(itemId: string): (r: SelectionState)
      reads this
      ensures itemId !in selectionStates ==> r == None
      ensures itemId in selectionStates ==> r == selectionStates[itemId]
    {
      StateOf(selectionStates, itemId)
    }

    /** `cycleSelection`: advance one node, force its subtree, recompute its ancestors. */
    method CycleSelection(itemId: string, structure: seq<Node>) returns (newState: SelectionState)
      requires UniqueIds(structure)
      modifies this
      ensures newState == CycleResult(old(selectionStates), itemId, structure)
      ensures selectionStates == Cycled(old(selectionStates), itemId, structure)
      ensures forall a :: itemId in DescendantIds(a, structure) ==>
        FollowsUpwardRule(selectionStates, old(selectionStates), a, structure)
    {
      CycleUpdatesAncestorsAll(selectionStates, itemId, structure);
      var currentState := GetSelectionState(itemId);
      var found := FindItemById(itemId, structure);
      if found.Nothing? {
        return currentState;
      }
      var item := found.value;
      if item.kind == Folder && |item.children| > 0 {
        match currentState
        case None => newState := All;
        case All => newState := FolderOnly;
        case FolderOnly => newState := None;
        case Partial => newState := All;
      } else {
        match currentState
        case None => newState := All;
        case All => newState := None;
        case _ => newState := All;
      }
      selectionStates := selectionStates[itemId := newState];
      UpdateChildrenStates(item, newState);
      UpdateParentStates(itemId, structure);
    }

    /** `_updateChildrenStates`: force every descendant of `item` to follow `parentState`. */
    method UpdateChildrenStates(item: Node, parentState: SelectionState)
      modifies this
      ensures selectionStates == ForcedBelow(old(selectionStates), item, parentState)
      decreases item
    {
      for i := 0 to |item.children|
        invariant selectionStates == match Forced(parentState)
          case Nothing => old(selectionStates)
          case Just(t) => Assigned(old(selectionStates), item.children[..i], t)
      {
        var child := item.children[i];
        if parentState == All {
          selectionStates := selectionStates[child.id := All];
          UpdateChildrenStates(child, All);
          AssignedSnoc(old(selectionStates), item.children, i, All);
        } else if parentState == None || parentState == FolderOnly {
          selectionStates := selectionStates[child.id := None];
          UpdateChildrenStates(child, None);
          AssignedSnoc(old(selectionStates), item.children, i, None);
        }
      }
      assert item.children[..|item.children|] == item.children;
    }

    /** `_updateParentStates`: recompute the parent of `itemId`, then climb. */
    method UpdateParentStates(itemId: string, structure: seq<Node>)
      requires UniqueIds(structure)
      modifies this
      ensures selectionStates == UpdatedAncestors(old(selectionStates), itemId, structure)
      ensures forall a :: itemId in DescendantIds(a, structure) ==>
        FollowsUpwardRule(selectionStates, old(selectionStates), a, structure)
      decreases Depth(itemId, structure)
    {
      AncestorsFollowRuleAll(selectionStates, itemId, structure);
      var found := FindParentOfItem(itemId, structure, Nothing);
      if found.Nothing? {
        return;
      }
      var parent := found.value;
      var childrenStates := ChildStates(selectionStates, parent.children);
      var allSelected := forall i :: 0 <= i < |childrenStates| ==> childrenStates[i] == All;
      var noneSelected := forall i :: 0 <= i < |childrenStates| ==> childrenStates[i] == None;
      var parentFolderState := GetSelectionState(parent.id);
      if allSelected && (parentFolderState == FolderOnly || parentFolderState == All) {
        selectionStates := selectionStates[parent.id := All];
      } else if noneSelected && parentFolderState != FolderOnly {
        selectionStates := selectionStates[parent.id := None];
      } else {
        var hasAnySelection := exists i :: 0 <= i < |childrenStates| && childrenStates[i] != None;
        if hasAnySelection || parentFolderState == FolderOnly {
          selectionStates := selectionStates[parent.id := Partial];
        }
      }
      ParentDepth(itemId, structure, Nothing, parent);
      UpdateParentStates(parent.id, structure);
    }

    /** `getSelectedItems`: the work list of the forest. */
    method GetSelectedItems(structure: seq<Node>) returns (selected: seq<SelectedItem>)
      ensures selected == Collected(selectionStates, structure)
    {
      selected := CollectSelectedItems(structure, []);
    }

    /** `_collectSelectedItems`: push the work list of `items` after `selected`. */
    method CollectSelectedItems(items: seq<Node>, selected: seq<SelectedItem>) returns (out: seq<SelectedItem>)
      ensures out == selected + Collected(selectionStates, items)
      decreases items
    {
      out := selected;
      for i := 0 to |items|
        invariant out == selected + Collected(selectionStates, items[..i])
      {
        var item := items[i];
        ghost var before := out;
        var state := GetSelectionState(item.id);
        if state == All || state == FolderOnly {
          out := out + [SelectedItem(item, state, state == All)];
        } else if state == Partial {
          var hasSelectedChildren := HasSelectedChild(selectionStates, item);
          ghost var mark := if hasSelectedChildren then [SelectedItem(item, FolderOnly, false)] else [];
          if hasSelectedChildren {
            out := out + [SelectedItem(item, FolderOnly, false)];
          }
          assert out == before + mark;
          out := CollectSelectedItems(item.children, out);
          AppendStep(before, mark, Collected(selectionStates, item.children), Emitted(selectionStates, item));
        }
        assert out == before + Emitted(selectionStates, item);
        CollectedSnoc(selectionStates, items, i);
        AppendStep(selected, Collected(selectionStates, items[..i]), Emitted(selectionStates, item), Collected(selectionStates, items[..i + 1]));
      }
      assert items[..|items|] == items;
    }
  }
}
