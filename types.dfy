/**
 * The folder tree and the selection vocabulary shared by every component
 * (src/types/index.ts), plus the forest functions the rest of the model is
 * specified with.
 */
module Types {

  /** `T | null` of the source. */
  datatype Maybe<T> = Nothing | Just(value: T)

  /** `Result`-style outcome of an operation that can throw. */
  datatype Result<T> = Success(value: T) | Failure(error: string)

  /** `FolderItem.type` */
  datatype Kind = File | Folder

  /** `SelectionState`: 'none' | 'all' | 'folder-only' | 'partial' */
  datatype SelectionState = None | All | FolderOnly | Partial

  /** `FolderItem`: one file or folder of the source tree; `children` is empty for files. */
  datatype Node = Node(id: string, name: string, kind: Kind, path: string, children: seq<Node>)

  /** `SelectedItem`: one entry of the copy work list. */
  datatype SelectedItem = SelectedItem(item: Node, selectionType: SelectionState, includeChildren: bool)

  /** The `selectionStates` map, node id to state. */
  type States = map<string, SelectionState>

  /** `selectionStates.get(id) || 'none'`: unseen ids read as `none`. */
  function StateOf(m: States, id: string): SelectionState
  {
    if id in m then m[id] else None
  }

  /** The ids of every node of a forest, at every depth. */
  function IdSet(items: seq<Node>): set<string>
    decreases items
  {
    if items == [] then {} else {items[0].id} + IdSet(items[0].children) + IdSet(items[1..])
  }

  /** `n` is one of the nodes of the forest, at any depth. */
  predicate Contains(items: seq<Node>, n: Node)
    decreases items
  {
    items != [] && (items[0] == n || Contains(items[0].children, n) || Contains(items[1..], n))
  }

  /** No id occurs twice in the forest (Drive ids are unique). */
  predicate UniqueIds(items: seq<Node>)
    decreases items
  {
    items != [] ==>
      && items[0].id !in IdSet(items[0].children)
      && items[0].id !in IdSet(items[1..])
      && IdSet(items[0].children) !! IdSet(items[1..])
      && UniqueIds(items[0].children)
      && UniqueIds(items[1..])
  }

  /** Files carry no children, as the folder listing builds them. */
  ghost predicate FilesAreLeaves(items: seq<Node>)
  {
    forall n :: Contains(items, n) && n.kind == File ==> n.children == []
  }

  /** The map after every node id of `items`, at every depth, has been set to `s`. */
  function Assigned(m: States, items: seq<Node>, s: SelectionState): States
  {
    map id | id in m.Keys + IdSet(items) :: if id in IdSet(items) then s else m[id]
  }

  /** The ids of a forest are those of its two halves. */
  lemma {:induction false} IdSetAppend(a: seq<Node>, b: seq<Node>)
    ensures IdSet(a + b) == IdSet(a) + IdSet(b)
    decreases a
  {
    if a == [] {
      assert a + b == b;
    } else {
      assert (a + b)[0] == a[0];
      assert (a + b)[1..] == a[1..] + b;
      IdSetAppend(a[1..], b);
    }
  }

  /** The ids of `items[..i+1]`: those of `items[..i]` and of the subtree of `items[i]`. */
  lemma IdSetSnoc(items: seq<Node>, i: nat)
    requires i < |items|
    ensures IdSet(items[..i + 1]) == IdSet(items[..i]) + {items[i].id} + IdSet(items[i].children)
  {
    assert items[..i + 1] == items[..i] + [items[i]];
    IdSetAppend(items[..i], [items[i]]);
    assert [items[i]][1..] == [];
  }

  /** Every node of a forest carries one of its ids, and so do all the nodes below it. */
  lemma {:induction false} ContainedIds(items: seq<Node>, n: Node)
    requires Contains(items, n)
    ensures n.id in IdSet(items)
    ensures IdSet(n.children) <= IdSet(items)
    decreases items
  {
    if items[0] == n {
    } else if Contains(items[0].children, n) {
      ContainedIds(items[0].children, n);
    } else {
      ContainedIds(items[1..], n);
    }
  }

  /** A node below a node of the forest is a node of the forest. */
  lemma {:induction false} ContainsTransitive(items: seq<Node>, n: Node, q: Node)
    requires Contains(items, n) && Contains(n.children, q)
    ensures Contains(items, q)
    decreases items
  {
    if items[0] == n {
    } else if Contains(items[0].children, n) {
      ContainsTransitive(items[0].children, n, q);
    } else {
      ContainsTransitive(items[1..], n, q);
    }
  }

  /** In a forest with unique ids, a node's own id does not recur below it, and its subtree has unique ids. */
  lemma {:induction false} UniqueBelow(items: seq<Node>, n: Node)
    requires UniqueIds(items) && Contains(items, n)
    ensures n.id !in IdSet(n.children)
    ensures UniqueIds(n.children)
    decreases items
  {
    if items[0] == n {
    } else if Contains(items[0].children, n) {
      UniqueBelow(items[0].children, n);
    } else {
      UniqueBelow(items[1..], n);
    }
  }

  /** In a forest with unique ids, two nodes with the same id are the same node. */
  lemma {:induction false} SameIdSameNode(items: seq<Node>, n: Node, q: Node)
    requires UniqueIds(items) && Contains(items, n) && Contains(items, q) && n.id == q.id
    ensures n == q
    decreases items
  {
    var x := items[0];
    if x == n {
      if x != q {
        if Contains(x.children, q) {
          ContainedIds(x.children, q);
        } else {
          ContainedIds(items[1..], q);
        }
      }
    } else if x == q {
      if Contains(x.children, n) {
        ContainedIds(x.children, n);
      } else {
        ContainedIds(items[1..], n);
      }
    } else if Contains(x.children, n) {
      if Contains(x.children, q) {
        SameIdSameNode(x.children, n, q);
      } else {
        ContainedIds(x.children, n);
        ContainedIds(items[1..], q);
      }
    } else {
      if Contains(x.children, q) {
        ContainedIds(items[1..], n);
        ContainedIds(x.children, q);
      } else {
        SameIdSameNode(items[1..], n, q);
      }
    }
  }

  /** The map after `Assigned`, key by key. */
  lemma AssignedAt(m: States, items: seq<Node>, s: SelectionState, id: string)
    ensures id in IdSet(items) ==> id in Assigned(m, items, s) && Assigned(m, items, s)[id] == s
    ensures id !in IdSet(items) ==> (id in Assigned(m, items, s) <==> id in m)
    ensures id !in IdSet(items) && id in m ==> Assigned(m, items, s)[id] == m[id]
  {
  }

  /** Setting the next node of a forest and then its subtree extends the assignment by one item. */
  lemma AssignedSnoc(m: States, items: seq<Node>, i: nat, s: SelectionState)
    requires i < |items|
    ensures Assigned(Assigned(m, items[..i], s)[items[i].id := s], items[i].children, s)
         == Assigned(m, items[..i + 1], s)
  {
    IdSetSnoc(items, i);
  }

  /** Assigning an empty forest changes nothing. */
  lemma AssignedNothing(m: States, s: SelectionState)
    ensures Assigned(m, [], s) == m
  {
  }

  /** Appending a step to what followed `x` is appending the extended tail to `x`. */
  lemma AppendStep<T>(x: seq<T>, p: seq<T>, step: seq<T>, q: seq<T>)
    requires q == p + step
    ensures (x + p) + step == x + q
  {
  }
}
