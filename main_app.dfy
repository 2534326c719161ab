/**
 * The application controller (src/main.ts): the bulk state writes of
 * "select all", "deselect all" and the language-model selection, and the
 * copy run that walks the work list and issues `createFolder`/`copyFile`
 * requests through the copy manager.
 *
 * The Drive client is the `Api` oracle of module Drive; a copy run records
 * the requests it issues, in order, as a trace.
 */
module App {
  import opened Types
  import opened Drive
  import opened CopyManager
  import FolderManager
  import LlmService
  import JsText

  // ---------------------------------------------------------------------------
  // The requests a copy run issues
  // ---------------------------------------------------------------------------

  /** `findParentId`: the folder recorded under 'root', whatever the item; '' when there is none. */
  function FindParentId(item: Node, createdFolders: map<string, string>): (parentId: string)
    ensures "root" in createdFolders ==> parentId == createdFolders["root"]
    ensures "root" !in createdFolders ==> parentId == ""
  {
    if "root" in createdFolders then createdFolders["root"] else ""
  }

  /** The ids of a node and of everything below it. */
  function SubtreeIds(n: Node): set<string>
  {
    {n.id} + IdSet(n.children)
  }

  /** The one request `processSelectedItem` issues for a node itself. */
  function RequestFor(n: Node, root: string): Call
  {
    if n.kind == Folder then CreateFolderCall(n.name, root) else CopyFileCall(n.id, root)
  }

  /**
   * The requests `processSelectedItem` issues for a work-list entry when all
   * of them succeed, every one placed in `root`: the entry's own request,
   * then, for a folder whose children are included, the children recorded
   * `none`, each walked as an `all` entry with its children.
   */
  function Plan(m: States, sel: SelectedItem, root: string): seq<Call>
    decreases sel.item, 1
  {
    [RequestFor(sel.item, root)]
    + (if sel.item.kind == Folder && sel.includeChildren then ChildrenPlan(m, sel.item.children, root) else [])
  }

  /** The requests for the children walked under an included folder. */
  function ChildrenPlan(m: States, children: seq<Node>, root: string): seq<Call>
    decreases children, 0
  {
    if children == [] then []
    else
      (if StateOf(m, children[0].id) == None then Plan(m, SelectedItem(children[0], All, true), root) else [])
      + ChildrenPlan(m, children[1..], root)
  }

  /** The requests for a whole work list, entry after entry. */
  function AllPlans(m: States, work: seq<SelectedItem>, root: string): seq<Call>
  {
    if work == [] then [] else AllPlans(m, work[..|work| - 1], root) + Plan(m, work[|work| - 1], root)
  }

  /** Every request of `calls` places its result in `root`. */
  predicate AllUnder(calls: seq<Call>, root: string)
  {
    forall k :: 0 <= k < |calls| ==> ParentOf(calls[k]) == root
  }

  lemma {:induction false} ChildrenPlanAppend(m: States, a: seq<Node>, b: seq<Node>, root: string)
    ensures ChildrenPlan(m, a + b, root) == ChildrenPlan(m, a, root) + ChildrenPlan(m, b, root)
    decreases a
  {
    if a == [] {
      assert a + b == b;
    } else {
      assert (a + b)[0] == a[0];
      assert (a + b)[1..] == a[1..] + b;
      ChildrenPlanAppend(m, a[1..], b, root);
    }
  }

  /** The requests for `children[..i+1]`: those for `children[..i]`, then those for `children[i]`. */
  lemma ChildrenPlanSnoc(m: States, children: seq<Node>, i: nat, root: string)
    requires i < |children|
    ensures ChildrenPlan(m, children[..i + 1], root)
         == ChildrenPlan(m, children[..i], root)
            + (if StateOf(m, children[i].id) == None then Plan(m, SelectedItem(children[i], All, true), root) else [])
  {
    assert children[..i + 1] == children[..i] + [children[i]];
    ChildrenPlanAppend(m, children[..i], [children[i]], root);
    assert [children[i]][1..] == [];
  }

  /** The plans of the first children are a prefix of the plans of all of them. */
  lemma ChildrenPlanPrefix(m: States, children: seq<Node>, i: nat, root: string)
    requires i <= |children|
    ensures ChildrenPlan(m, children[..i], root) <= ChildrenPlan(m, children, root)
  {
    assert children == children[..i] + children[i..];
    ChildrenPlanAppend(m, children[..i], children[i..], root);
  }

  /** Every request of an entry's plan is placed in `root`. */
  lemma {:induction false} PlanUnder(m: States, sel: SelectedItem, root: string)
    ensures AllUnder(Plan(m, sel, root), root)
    decreases sel.item, 1
  {
    if sel.item.kind == Folder && sel.includeChildren {
      ChildrenPlanUnder(m, sel.item.children, root);
    }
  }

  lemma {:induction false} ChildrenPlanUnder(m: States, children: seq<Node>, root: string)
    ensures AllUnder(ChildrenPlan(m, children, root), root)
    decreases children, 0
  {
    if children != [] {
      PlanUnder(m, SelectedItem(children[0], All, true), root);
      ChildrenPlanUnder(m, children[1..], root);
    }
  }

  /** Every request of a work list's plans is placed in `root`. */
  lemma {:induction false} AllPlansUnder(m: States, work: seq<SelectedItem>, root: string)
    ensures AllUnder(AllPlans(m, work, root), root)
  {
    if work != [] {
      AllPlansUnder(m, work[..|work| - 1], root);
      PlanUnder(m, work[|work| - 1], root);
    }
  }

  /** A prefix of `x + p` is a prefix of `x + q` when `p` is a prefix of `q`. */
  lemma PrefixWithin(y: seq<Call>, x: seq<Call>, p: seq<Call>, q: seq<Call>)
    requires y <= x + p && p <= q
    ensures y <= x + q
  {
    assert x + q == (x + p) + q[|p|..];
  }

  /** The plans of a shorter prefix of the work list are a prefix of those of a longer one. */
  lemma {:induction false} AllPlansMonotone(m: States, work: seq<SelectedItem>, i: nat, j: nat, root: string)
    requires i <= j <= |work|
    ensures AllPlans(m, work[..i], root) <= AllPlans(m, work[..j], root)
    decreases j - i
  {
    if i < j {
      AllPlansMonotone(m, work, i, j - 1, root);
      assert work[..j][..j - 1] == work[..j - 1];
    }
  }

  /** One more entry processed: its requests extend the plans of the entries before it. */
  lemma AllPlansStep(m: States, work: seq<SelectedItem>, i: nat, root: string, calls: seq<Call>, calls': seq<Call>)
    requires i < |work| && calls == AllPlans(m, work[..i], root)
    requires calls < calls' <= calls + Plan(m, work[i], root)
    ensures AllPlans(m, work[..i], root) < calls' <= AllPlans(m, work[..i + 1], root)
    ensures calls' == calls + Plan(m, work[i], root) ==> calls' == AllPlans(m, work[..i + 1], root)
  {
    assert work[..i + 1][..i] == work[..i];
  }

  /** No entry of the work list has the id "root" in its subtree. */
  ghost predicate AvoidsRoot(work: seq<SelectedItem>)
  {
    forall e :: e in work ==> "root" !in SubtreeIds(e.item)
  }

  /** When no node of the forest has the id "root", no entry of its work list has it in its subtree. */
  lemma WorkAvoidsRoot(m: States, structure: seq<Node>)
    requires "root" !in IdSet(structure)
    ensures AvoidsRoot(FolderManager.Collected(m, structure))
  {
    forall e | e in FolderManager.Collected(m, structure)
      ensures "root" !in SubtreeIds(e.item)
    {
      ContainedIds(structure, e.item);
    }
  }

  /**
   * A folder entry with its children: the folder's own request, then its
   * children's walk, which started from the map with the new folder recorded.
   */
  lemma FolderStep(m: States, sel: SelectedItem, createdFolders: map<string, string>, newId: string,
                   created: map<string, string>, calls: seq<Call>, calls': seq<Call>, success: bool)
    requires sel.item.kind == Folder && sel.includeChildren
    requires KeepsOutside(createdFolders[sel.item.id := newId], created, IdSet(sel.item.children))
    requires "root" !in IdSet(sel.item.children) ==>
      var mid := calls + [CreateFolderCall(sel.item.name, FindParentId(sel.item, createdFolders))];
      var plan := ChildrenPlan(m, sel.item.children, FindParentId(sel.item, createdFolders[sel.item.id := newId]));
      calls' <= mid + plan && (success ==> calls' == mid + plan)
    ensures KeepsOutside(createdFolders, created, SubtreeIds(sel.item))
    ensures sel.item.id !in IdSet(sel.item.children) ==> sel.item.id in created && created[sel.item.id] == newId
    ensures "root" !in SubtreeIds(sel.item) ==>
      var plan := Plan(m, sel, FindParentId(sel.item, createdFolders));
      calls' <= calls + plan && (success ==> calls' == calls + plan)
  {
    var item := sel.item;
    var createdMid := createdFolders[item.id := newId];
    assert KeepsOutside(createdFolders, createdMid, SubtreeIds(item));
    KeepsOutsideTrans(createdFolders, createdMid, created, IdSet(item.children), SubtreeIds(item));
    if item.id !in IdSet(item.children) {
      assert Lookup(created, item.id) == Lookup(createdMid, item.id);
    }
    if "root" !in SubtreeIds(item) {
      var parentId := FindParentId(item, createdFolders);
      assert Lookup(createdMid, "root") == Lookup(createdFolders, "root");
      assert FindParentId(item, createdMid) == parentId;
      var mid := calls + [CreateFolderCall(item.name, parentId)];
      var cp := ChildrenPlan(m, item.children, parentId);
      assert Plan(m, sel, parentId) == [CreateFolderCall(item.name, parentId)] + cp;
      AppendStep(calls, [CreateFolderCall(item.name, parentId)], cp, Plan(m, sel, parentId));
    }
  }

  /**
   * One entry of `startCopy`'s loop processed: when no entry has "root" in
   * its subtree, "root" still maps to the destination and the requests so
   * far are those of the entries processed, up to a failure in this one.
   */
  lemma EntryStep(m: States, work: seq<SelectedItem>, i: nat, root: string,
                  createdBefore: map<string, string>, created: map<string, string>,
                  before: seq<Call>, calls: seq<Call>, success: bool)
    requires i < |work| && before < calls
    requires AvoidsRoot(work) ==> Lookup(createdBefore, "root") == Just(root) && before == AllPlans(m, work[..i], root)
    requires KeepsOutside(createdBefore, created, SubtreeIds(work[i].item))
    requires "root" !in SubtreeIds(work[i].item) ==>
      var plan := Plan(m, work[i], FindParentId(work[i].item, createdBefore));
      calls <= before + plan && (success ==> calls == before + plan)
    ensures AvoidsRoot(work) ==>
      && Lookup(created, "root") == Just(root)
      && AllPlans(m, work[..i], root) < calls <= AllPlans(m, work[..i + 1], root)
      && (success ==> calls == AllPlans(m, work[..i + 1], root))
  {
    if AvoidsRoot(work) {
      assert work[i] in work;
      assert Lookup(created, "root") == Lookup(createdBefore, "root");
      AllPlansStep(m, work, i, root, before, calls);
    }
  }

  /** A prefix of requests all placed in `root` is placed in `root`. */
  lemma PrefixUnder(calls: seq<Call>, longer: seq<Call>, root: string)
    requires calls <= longer && AllUnder(longer, root)
    ensures AllUnder(calls, root)
  {
    forall k | 0 <= k < |calls|
      ensures ParentOf(calls[k]) == root
    {
      assert calls[k] == longer[k];
    }
  }

  // ---------------------------------------------------------------------------
  // The contents of a folder selected by clicking are never copied
  // ---------------------------------------------------------------------------

  /** Children none of which is recorded `none` are all skipped. */
  lemma {:induction false} ChildrenPlanSkipsMarked(m: States, children: seq<Node>, root: string)
    requires forall k :: 0 <= k < |children| ==> StateOf(m, children[k].id) != None
    ensures ChildrenPlan(m, children, root) == []
    decreases children
  {
    if children != [] {
      ChildrenPlanSkipsMarked(m, children[1..], root);
    }
  }

  /**
   * As written: once a folder with children is cycled to `all`, its entry
   * yields the one `createFolder` request and nothing else, because the
   * cycle forced every child to `all` and only `none` children are walked.
   */
  lemma ClickedFolderCopiedEmpty(m: States, id: string, structure: seq<Node>, root: string)
    requires UniqueIds(structure)
    requires FolderManager.FindItemById(id, structure).Just?
    requires FolderManager.FindItemById(id, structure).value.kind == Folder
    requires FolderManager.CycleResult(m, id, structure) == All
    ensures var n := FolderManager.FindItemById(id, structure).value;
      Plan(FolderManager.Cycled(m, id, structure), SelectedItem(n, All, true), root) == [CreateFolderCall(n.name, root)]
  {
    var n := FolderManager.FindItemById(id, structure).value;
    var m' := FolderManager.Cycled(m, id, structure);
    forall k | 0 <= k < |n.children|
      ensures StateOf(m', n.children[k].id) != None
    {
      FolderManager.ContainsChild(n, k);
      ContainedIds(n.children, n.children[k]);
      FolderManager.CycleForcesDescendants(m, id, structure, n.children[k].id);
    }
    ChildrenPlanSkipsMarked(m', n.children, root);
  }

  /**
   * The smallest case: a folder "A" holding one file "f". After one click on
   * "A" the work list is the single entry for "A", and the run issues one
   * `createFolder` and no request for "f".
   */
  lemma ClickedFolderExample(root: string)
    ensures var f := Node("f", "f.txt", File, "A/f.txt", []);
      var a := Node("A", "A", Folder, "A", [f]);
      && UniqueIds([a])
      && var m := FolderManager.Cycled(Assigned(map[], [a], None), "A", [a]);
      && FolderManager.Collected(m, [a]) == [SelectedItem(a, All, true)]
      && AllPlans(m, FolderManager.Collected(m, [a]), root) == [CreateFolderCall("A", root)]
      && CopyFileCall("f", root) !in AllPlans(m, FolderManager.Collected(m, [a]), root)
  {
    var f := Node("f", "f.txt", File, "A/f.txt", []);
    var a := Node("A", "A", Folder, "A", [f]);
    var m0 := Assigned(map[], [a], None);
    assert IdSet([f]) == {"f"};
    assert IdSet([a]) == {"A", "f"};
    assert [a][1..] == [] && [f][1..] == [];
    assert UniqueIds([f]);
    assert UniqueIds([a]);
    assert FolderManager.FindItemById("A", [a]) == Just(a);
    AssignedAt(map[], [a], None, "A");
    assert FolderManager.CycleResult(m0, "A", [a]) == All;
    var m := FolderManager.Cycled(m0, "A", [a]);
    FolderManager.CycleOwnState(m0, "A", [a]);
    FolderManager.WorkListAllSelected(m, [a]);
    ClickedFolderCopiedEmpty(m0, "A", [a], root);
    assert [SelectedItem(a, All, true)][..0] == [];
  }

  // ---------------------------------------------------------------------------
  // The walk as evidently intended: every child of an included folder
  // ---------------------------------------------------------------------------

  /** The requests for an entry when the children of an included folder are all walked. */
  function IntendedPlan(sel: SelectedItem, root: string): seq<Call>
    decreases sel.item, 1
  {
    [RequestFor(sel.item, root)]
    + (if sel.item.kind == Folder && sel.includeChildren then IntendedChildrenPlan(sel.item.children, root) else [])
  }

  function IntendedChildrenPlan(children: seq<Node>, root: string): seq<Call>
    decreases children, 0
  {
    if children == [] then []
    else IntendedPlan(SelectedItem(children[0], All, true), root) + IntendedChildrenPlan(children[1..], root)
  }

  /** Corrected: every node below an included folder gets its request. */
  lemma {:induction false} IntendedPlanCoversSubtree(sel: SelectedItem, root: string, n: Node)
    requires sel.item.kind == Folder && sel.includeChildren
    requires FilesAreLeaves(sel.item.children) && Contains(sel.item.children, n)
    ensures RequestFor(n, root) in IntendedPlan(sel, root)
    decreases sel.item, 1
  {
    IntendedChildrenCover(sel.item.children, root, n);
  }

  lemma {:induction false} IntendedChildrenCover(children: seq<Node>, root: string, n: Node)
    requires FilesAreLeaves(children) && Contains(children, n)
    ensures RequestFor(n, root) in IntendedChildrenPlan(children, root)
    decreases children, 0
  {
    var c := children[0];
    var head := IntendedPlan(SelectedItem(c, All, true), root);
    if c == n {
      assert head[0] == RequestFor(n, root);
    } else if Contains(c.children, n) {
      assert Contains(children, c);
      forall x | Contains(c.children, x)
        ensures Contains(children, x)
      {
        ContainsTransitive(children, c, x);
      }
      IntendedPlanCoversSubtree(SelectedItem(c, All, true), root, n);
    } else {
      IntendedChildrenCover(children[1..], root, n);
    }
  }

  /** Corrected: every request is for the entry's node or a node below it, placed in `root`. */
  lemma {:induction false} IntendedPlanOnlySubtree(sel: SelectedItem, root: string, c: Call)
    requires c in IntendedPlan(sel, root)
    ensures exists n :: (n == sel.item || Contains(sel.item.children, n)) && c == RequestFor(n, root)
    decreases sel.item, 1
  {
    if c != RequestFor(sel.item, root) {
      IntendedChildrenOnly(sel.item.children, root, c);
    }
  }

  lemma {:induction false} IntendedChildrenOnly(children: seq<Node>, root: string, c: Call)
    requires c in IntendedChildrenPlan(children, root)
    ensures exists n :: Contains(children, n) && c == RequestFor(n, root)
    decreases children, 0
  {
    var head := children[0];
    if c in IntendedPlan(SelectedItem(head, All, true), root) {
      IntendedPlanOnlySubtree(SelectedItem(head, All, true), root, c);
      var n :| (n == head || Contains(head.children, n)) && c == RequestFor(n, root);
      assert Contains(children, n);
    } else {
      IntendedChildrenOnly(children[1..], root, c);
      var n :| Contains(children[1..], n) && c == RequestFor(n, root);
      assert Contains(children, n);
    }
  }

  /** The two walks agree as long as nothing below the entry is recorded as selected. */
  lemma {:induction false} PlansAgreeWhenUnmarked(m: States, sel: SelectedItem, root: string)
    requires forall id :: id in IdSet(sel.item.children) ==> StateOf(m, id) == None
    ensures Plan(m, sel, root) == IntendedPlan(sel, root)
    decreases sel.item, 1
  {
    ChildrenPlansAgree(m, sel.item.children, root);
  }

  lemma {:induction false} ChildrenPlansAgree(m: States, children: seq<Node>, root: string)
    requires forall id :: id in IdSet(children) ==> StateOf(m, id) == None
    ensures ChildrenPlan(m, children, root) == IntendedChildrenPlan(children, root)
    decreases children, 0
  {
    if children != [] {
      PlansAgreeWhenUnmarked(m, SelectedItem(children[0], All, true), root);
      ChildrenPlansAgree(m, children[1..], root);
    }
  }

  lemma {:induction false} IntendedChildrenAppend(a: seq<Node>, b: seq<Node>, root: string)
    ensures IntendedChildrenPlan(a + b, root) == IntendedChildrenPlan(a, root) + IntendedChildrenPlan(b, root)
    decreases a
  {
    if a == [] {
      assert a + b == b;
    } else {
      assert (a + b)[0] == a[0];
      assert (a + b)[1..] == a[1..] + b;
      IntendedChildrenAppend(a[1..], b, root);
    }
  }

  /** The corrected requests for `children[..i+1]`: those for `children[..i]`, then the whole walk of `children[i]`. */
  lemma IntendedChildrenSnoc(children: seq<Node>, i: nat, root: string)
    requires i < |children|
    ensures IntendedChildrenPlan(children[..i + 1], root)
         == IntendedChildrenPlan(children[..i], root) + IntendedPlan(SelectedItem(children[i], All, true), root)
  {
    assert children[..i + 1] == children[..i] + [children[i]];
    IntendedChildrenAppend(children[..i], [children[i]], root);
    assert [children[i]][1..] == [];
  }

  lemma IntendedChildrenPrefix(children: seq<Node>, i: nat, root: string)
    requires i <= |children|
    ensures IntendedChildrenPlan(children[..i], root) <= IntendedChildrenPlan(children, root)
  {
    assert children == children[..i] + children[i..];
    IntendedChildrenAppend(children[..i], children[i..], root);
  }

  /** `FolderStep` for the corrected walk. */
  lemma IntendedFolderStep(sel: SelectedItem, createdFolders: map<string, string>, newId: string,
                           created: map<string, string>, calls: seq<Call>, calls': seq<Call>, success: bool)
    requires sel.item.kind == Folder && sel.includeChildren
    requires KeepsOutside(createdFolders[sel.item.id := newId], created, IdSet(sel.item.children))
    requires "root" !in IdSet(sel.item.children) ==>
      var mid := calls + [CreateFolderCall(sel.item.name, FindParentId(sel.item, createdFolders))];
      var plan := IntendedChildrenPlan(sel.item.children, FindParentId(sel.item, createdFolders[sel.item.id := newId]));
      calls' <= mid + plan && (success ==> calls' == mid + plan)
    ensures KeepsOutside(createdFolders, created, SubtreeIds(sel.item))
    ensures "root" !in SubtreeIds(sel.item) ==>
      var plan := IntendedPlan(sel, FindParentId(sel.item, createdFolders));
      calls' <= calls + plan && (success ==> calls' == calls + plan)
  {
    var item := sel.item;
    var createdMid := createdFolders[item.id := newId];
    assert KeepsOutside(createdFolders, createdMid, SubtreeIds(item));
    KeepsOutsideTrans(createdFolders, createdMid, created, IdSet(item.children), SubtreeIds(item));
    if "root" !in SubtreeIds(item) {
      var parentId := FindParentId(item, createdFolders);
      assert Lookup(createdMid, "root") == Lookup(createdFolders, "root");
      assert FindParentId(item, createdMid) == parentId;
      var cp := IntendedChildrenPlan(item.children, parentId);
      assert IntendedPlan(sel, parentId) == [CreateFolderCall(item.name, parentId)] + cp;
      AppendStep(calls, [CreateFolderCall(item.name, parentId)], cp, IntendedPlan(sel, parentId));
    }
  }

  // ---------------------------------------------------------------------------
  // The controller object
  // ---------------------------------------------------------------------------

  /** Every request from number `from` up to `to` of the run returned. */
  predicate AllReturned(api: Api, from: nat, to: nat)
  {
    forall k :: from <= k < to ==> api(k).Returned?
  }

  /**
   * The requests from number `from` to the end of `calls` all returned but
   * the last, which threw, and `message` is what the manager rethrew for it.
   */
  predicate EndsInFailure(api: Api, from: nat, calls: seq<Call>, message: string)
  {
    && from < |calls|
    && AllReturned(api, from, |calls| - 1)
    && api(|calls| - 1).Threw?
    && message == FailureMessage(calls[|calls| - 1], api(|calls| - 1).thrown)
  }

  /** A failure after requests that all returned is a failure of the longer run. */
  lemma FailureExtends(api: Api, from: nat, mid: nat, calls: seq<Call>, message: string)
    requires from <= mid && AllReturned(api, from, mid) && EndsInFailure(api, mid, calls, message)
    ensures EndsInFailure(api, from, calls, message)
  {
  }

  /** Success after success is success. */
  lemma ReturnedExtends(api: Api, from: nat, mid: nat, to: nat)
    requires from <= mid <= to && AllReturned(api, from, mid) && AllReturned(api, mid, to)
    ensures AllReturned(api, from, to)
  {
  }

  /** `createdFolders.get(k)` */
  function Lookup(createdFolders: map<string, string>, k: string): Maybe<string>
  {
    if k in createdFolders then Just(createdFolders[k]) else Nothing
  }

  /** `after` agrees with `before` on every key outside `ids`: entries are added or replaced only inside `ids`. */
  ghost predicate KeepsOutside(before: map<string, string>, after: map<string, string>, ids: set<string>)
  {
    forall k :: k !in ids ==> Lookup(after, k) == Lookup(before, k)
  }

  /** Keeping outside a part of `ids`, then outside `ids`, keeps outside `ids`. */
  lemma KeepsOutsideTrans(a: map<string, string>, b: map<string, string>, c: map<string, string>, inner: set<string>, ids: set<string>)
    requires inner <= ids && KeepsOutside(a, b, ids) && KeepsOutside(b, c, inner)
    ensures KeepsOutside(a, c, ids)
  {
  }

  /** Writing one more entry of `selections` over `base` extends the entries already written. */
  lemma WriteEntry(base: States, selections: States, done: set<string>, k: string)
    requires done <= selections.Keys && k in selections
    ensures (base + map x | x in done :: selections[x])[k := selections[k]]
         == base + map x | x in done + {k} :: selections[x]
  {
  }

  /** How `startCopy` ends. */
  datatype CopyOutcome =
    | NotLoaded
    | NothingSelected
    | NoDestination
    | NotAuthenticated
    | Completed(copiedCount: nat)
    | Failed(copiedCount: nat, error: string)
  {
    predicate Ran() { Completed? || Failed? }
  }

  /** The status `startCopy` shows for each outcome. */
  function Status(outcome: CopyOutcome): (text: string)
    ensures outcome.Failed? <==> |text| >= 13 && text[..13] == "Copy failed: "
    ensures outcome.Failed? ==> text[13..] == outcome.error
  {
    if outcome.Failed? then "Copy failed: " + outcome.error
    else
      var text := match outcome
        case NotLoaded => "Please load folder structure first"
        case NothingSelected => "Please select at least one item to copy"
        case NoDestination => "Please enter a destination folder ID"
        case NotAuthenticated => "Please authenticate with Google Drive first"
        case Completed(n) => "Successfully processed " + JsText.NatText(n) + " items";
      assert text[0] != 'C';
      text
  }

  /** `App` */
  class App {
    const folderManager: FolderManager.FolderManager
    const llmService: LlmService.LlmService
    var isAuthenticated: bool
    var folderStructure: Maybe<seq<Node>>

    constructor ()
      ensures fresh(folderManager) && fresh(llmService)
      ensures folderManager.selectionStates == map[]
      ensures llmService.apiKey == Nothing && llmService.mockMode
      ensures !isAuthenticated && folderStructure == Nothing
    {
      folderManager := new FolderManager.FolderManager();
      llmService := new LlmService.LlmService();
      isAuthenticated := false;
      folderStructure := Nothing;
    }

    /** `loadFolderStructure`, given what the listing returned: refused without a source id or before sign-in. */
    method LoadFolderStructure(sourceFolderId: string, fetched: seq<Node>) returns (loaded: bool)
      modifies this, folderManager
      ensures loaded <==> sourceFolderId != "" && isAuthenticated
      ensures isAuthenticated == old(isAuthenticated)
      ensures loaded ==> folderStructure == Just(fetched)
      ensures loaded ==> folderManager.selectionStates == Assigned(old(folderManager.selectionStates), fetched, None)
      ensures !loaded ==> folderStructure == old(folderStructure)
      ensures !loaded ==> folderManager.selectionStates == old(folderManager.selectionStates)
    {
      if sourceFolderId == "" || !isAuthenticated {
        return false;
      }
      var structure := folderManager.LoadFolderStructure(fetched);
      folderStructure := Just(structure);
      loaded := true;
    }

    /** `handleItemClick`: cycle the clicked node, once a forest is loaded. */
    method HandleItemClick(itemId: string)
      requires folderStructure.Just? ==> UniqueIds(folderStructure.value)
      modifies folderManager
      ensures folderStructure.Nothing? ==> folderManager.selectionStates == old(folderManager.selectionStates)
      ensures folderStructure.Just? ==>
        folderManager.selectionStates == FolderManager.Cycled(old(folderManager.selectionStates), itemId, folderStructure.value)
    {
      if folderStructure.Nothing? {
        return;
      }
      var _ := folderManager.CycleSelection(itemId, folderStructure.value);
    }

    /** `selectAll`: every node of the loaded forest becomes `all`. */
    method SelectAll()
      modifies folderManager
      ensures folderStructure.Nothing? ==> folderManager.selectionStates == old(folderManager.selectionStates)
      ensures folderStructure.Just? ==>
        folderManager.selectionStates == Assigned(old(folderManager.selectionStates), folderStructure.value, All)
    {
      if folderStructure.Nothing? {
        return;
      }
      SetAllStates(folderStructure.value, All);
    }

    /** `deselectAll`: every node of the loaded forest becomes `none`. */
    method DeselectAll()
      modifies folderManager
      ensures folderStructure.Nothing? ==> folderManager.selectionStates == old(folderManager.selectionStates)
      ensures folderStructure.Just? ==>
        folderManager.selectionStates == Assigned(old(folderManager.selectionStates), folderStructure.value, None)
    {
      if folderStructure.Nothing? {
        return;
      }
      SetAllStates(folderStructure.value, None);
    }

    /** `_setAllStates`: write `state` for every node of `items`, at every depth, with no propagation. */
    method SetAllStates(items: seq<Node>, state: SelectionState)
      modifies folderManager
      ensures folderManager.selectionStates == Assigned(old(folderManager.selectionStates), items, state)
      decreases items
    {
      for i := 0 to |items|
        invariant folderManager.selectionStates == Assigned(old(folderManager.selectionStates), items[..i], state)
      {
        var item := items[i];
        folderManager.selectionStates := folderManager.selectionStates[item.id := state];
        SetAllStates(item.children, state);
        AssignedSnoc(old(folderManager.selectionStates), items, i, state);
      }
      assert items[..|items|] == items;
    }

    /**
     * `applyLLMSelection`: set the key (empty when the model is disabled,
     * forcing mock mode), ask for a selection, and write each of its entries
     * into the selection map as is, with no propagation.
     */
    method ApplyLlmSelection(enableLlm: bool, openaiKey: string, reply: LlmService.LlmReply) returns (applied: bool)
      modifies folderManager, llmService
      ensures applied <==> folderStructure.Just?
      ensures !applied ==> folderManager.selectionStates == old(folderManager.selectionStates)
      ensures !applied ==> llmService.apiKey == old(llmService.apiKey) && llmService.mockMode == old(llmService.mockMode)
      ensures applied ==> llmService.apiKey == Just(if enableLlm then openaiKey else "")
      ensures applied ==>
        (llmService.mockMode <==> !enableLlm || forall i :: 0 <= i < |openaiKey| ==> JsText.IsWhiteSpace(openaiKey[i]))
      ensures applied ==> (folderManager.selectionStates ==
        old(folderManager.selectionStates) + LlmService.SelectionOf(llmService.mockMode, reply, folderStructure.value))
    {
      if folderStructure.Nothing? {
        return false;
      }
      if enableLlm {
        llmService.SetApiKey(openaiKey);
      } else {
        llmService.SetApiKey("");
      }
      var selections := llmService.SelectFiles(folderStructure.value, reply);
      var pending := selections.Keys;
      ghost var done: set<string> := {};
      while pending != {}
        invariant pending + done == selections.Keys && pending !! done
        invariant folderManager.selectionStates == old(folderManager.selectionStates) + map k | k in done :: selections[k]
        modifies folderManager
        decreases pending
      {
        var itemId :| itemId in pending;
        WriteEntry(old(folderManager.selectionStates), selections, done, itemId);
        folderManager.selectionStates := folderManager.selectionStates[itemId := selections[itemId]];
        pending := pending - {itemId};
        done := done + {itemId};
      }
      assert (map k | k in done :: selections[k]) == selections;
      applied := true;
    }

    /**
     * `processSelectedItem`: a folder is created under the destination
     * root and recorded, then its children are walked if included; a file
     * is copied under the destination root. The first failing request ends
     * the walk with the manager's message.
     */
    method ProcessSelectedItem(api: Api, selectedItem: SelectedItem, createdFolders: map<string, string>, calls: seq<Call>)
      returns (created: map<string, string>, calls': seq<Call>, failure: Maybe<string>)
      ensures calls < calls'
      ensures calls'[|calls|] == RequestFor(selectedItem.item, FindParentId(selectedItem.item, createdFolders))
      ensures failure.Nothing? ==> AllReturned(api, |calls|, |calls'|)
      ensures failure.Just? ==> EndsInFailure(api, |calls|, calls', failure.value)
      ensures KeepsOutside(createdFolders, created, SubtreeIds(selectedItem.item))
      ensures selectedItem.item.kind == Folder && api(|calls|).Returned?
              && selectedItem.item.id !in IdSet(selectedItem.item.children) ==>
        selectedItem.item.id in created && created[selectedItem.item.id] == api(|calls|).id
      ensures "root" !in SubtreeIds(selectedItem.item) ==>
        var plan := Plan(folderManager.selectionStates, selectedItem, FindParentId(selectedItem.item, createdFolders));
        calls' <= calls + plan && (failure.Nothing? ==> calls' == calls + plan)
      decreases selectedItem.item, 2
    {
      var item := selectedItem.item;
      created, failure := createdFolders, Nothing;
      if item.kind == Folder {
        var parentId := FindParentId(item, created);
        var r;
        r, calls' := CreateFolder(api, calls, item.name, parentId);
        if r.Failure? {
          failure := Just(r.error);
          return;
        }
        created := created[item.id := r.value];
        if selectedItem.includeChildren {
          ghost var mid := calls';
          created, calls', failure := ProcessChildren(api, item, created, calls');
          FolderStep(folderManager.selectionStates, selectedItem, createdFolders, r.value, created, calls, calls', failure.Nothing?);
          if failure.Just? {
            FailureExtends(api, |calls|, |mid|, calls', failure.value);
          } else {
            ReturnedExtends(api, |calls|, |mid|, |calls'|);
          }
        }
      } else {
        var parentId := FindParentId(item, created);
        var r;
        r, calls' := CopyFile(api, calls, item.id, parentId);
        if r.Failure? {
          failure := Just(r.error);
        }
      }
    }

    /**
     * The children loop of `processSelectedItem`: each child recorded `none`
     * is walked as an `all` entry with its children; the others are skipped.
     */
    method ProcessChildren(api: Api, item: Node, createdFolders: map<string, string>, calls: seq<Call>)
      returns (created: map<string, string>, calls': seq<Call>, failure: Maybe<string>)
      ensures calls <= calls'
      ensures failure.Nothing? ==> AllReturned(api, |calls|, |calls'|)
      ensures failure.Just? ==> EndsInFailure(api, |calls|, calls', failure.value)
      ensures KeepsOutside(createdFolders, created, IdSet(item.children))
      ensures "root" !in IdSet(item.children) ==>
        var plan := ChildrenPlan(folderManager.selectionStates, item.children, FindParentId(item, createdFolders));
        calls' <= calls + plan && (failure.Nothing? ==> calls' == calls + plan)
      decreases item, 1
    {
      ghost var m := folderManager.selectionStates;
      ghost var root := FindParentId(item, createdFolders);
      created, calls', failure := createdFolders, calls, Nothing;
      for i := 0 to |item.children|
        invariant failure.Nothing?
        invariant calls <= calls' && AllReturned(api, |calls|, |calls'|)
        invariant KeepsOutside(createdFolders, created, IdSet(item.children))
        invariant "root" !in IdSet(item.children) ==> calls' == calls + ChildrenPlan(m, item.children[..i], root)
      {
        ghost var before := calls';
        ghost var createdBefore := created;
        created, calls', failure := ProcessChild(api, item, i, created, calls');
        KeepsOutsideTrans(createdFolders, createdBefore, created, IdSet(item.children), IdSet(item.children));
        if failure.Just? {
          FailureExtends(api, |calls|, |before|, calls', failure.value);
        } else {
          ReturnedExtends(api, |calls|, |before|, |calls'|);
        }
        if "root" !in IdSet(item.children) {
          assert Lookup(createdBefore, "root") == Lookup(createdFolders, "root");
          assert FindParentId(item, createdBefore) == root;
          ChildrenPlanSnoc(m, item.children, i, root);
          ChildrenPlanPrefix(m, item.children, i + 1, root);
          ghost var child := item.children[i];
          ghost var step := if StateOf(m, child.id) == None then Plan(m, SelectedItem(child, All, true), root) else [];
          assert calls' <= before + step;
          AppendStep(calls, ChildrenPlan(m, item.children[..i], root), step, ChildrenPlan(m, item.children[..i + 1], root));
          if failure.Just? {
            PrefixWithin(calls', calls, ChildrenPlan(m, item.children[..i + 1], root), ChildrenPlan(m, item.children, root));
            return;
          }
        }
        if failure.Just? {
          return;
        }
      }
      assert item.children[..|item.children|] == item.children;
    }

    /** One pass of the children loop: the `i`-th child, walked if it is recorded `none`. */
    method ProcessChild(api: Api, item: Node, i: nat, createdFolders: map<string, string>, calls: seq<Call>)
      returns (created: map<string, string>, calls': seq<Call>, failure: Maybe<string>)
      requires i < |item.children|
      ensures calls <= calls'
      ensures failure.Nothing? ==> AllReturned(api, |calls|, |calls'|)
      ensures failure.Just? ==> EndsInFailure(api, |calls|, calls', failure.value)
      ensures KeepsOutside(createdFolders, created, IdSet(item.children))
      ensures "root" !in IdSet(item.children) ==>
        var child := item.children[i];
        var step := if StateOf(folderManager.selectionStates, child.id) == None
                    then Plan(folderManager.selectionStates, SelectedItem(child, All, true), FindParentId(item, createdFolders))
                    else [];
        calls' <= calls + step && (failure.Nothing? ==> calls' == calls + step)
      decreases item, 0
    {
      var child := item.children[i];
      var childSelection := folderManager.GetSelectionState(child.id);
      created, calls', failure := createdFolders, calls, Nothing;
      if childSelection == None {
        FolderManager.ContainsChild(item, i);
        ContainedIds(item.children, child);
        created, calls', failure := ProcessSelectedItem(api, SelectedItem(child, All, true), createdFolders, calls);
      }
    }

    /**
     * `processSelectedItem` as evidently intended: the same requests, but
     * every child of an included folder is walked, whatever its recorded state.
     */
    method ProcessSelectedItemIntended(api: Api, selectedItem: SelectedItem, createdFolders: map<string, string>, calls: seq<Call>)
      returns (created: map<string, string>, calls': seq<Call>, failure: Maybe<string>)
      ensures calls < calls'
      ensures calls'[|calls|] == RequestFor(selectedItem.item, FindParentId(selectedItem.item, createdFolders))
      ensures failure.Nothing? ==> AllReturned(api, |calls|, |calls'|)
      ensures failure.Just? ==> EndsInFailure(api, |calls|, calls', failure.value)
      ensures KeepsOutside(createdFolders, created, SubtreeIds(selectedItem.item))
      ensures "root" !in SubtreeIds(selectedItem.item) ==>
        var plan := IntendedPlan(selectedItem, FindParentId(selectedItem.item, createdFolders));
        calls' <= calls + plan && (failure.Nothing? ==> calls' == calls + plan)
      decreases selectedItem.item, 1
    {
      var item := selectedItem.item;
      created, failure := createdFolders, Nothing;
      if item.kind == Folder {
        var parentId := FindParentId(item, created);
        var r;
        r, calls' := CreateFolder(api, calls, item.name, parentId);
        if r.Failure? {
          failure := Just(r.error);
          return;
        }
        created := created[item.id := r.value];
        if selectedItem.includeChildren {
          ghost var mid := calls';
          created, calls', failure := ProcessChildrenIntended(api, item, created, calls');
          IntendedFolderStep(selectedItem, createdFolders, r.value, created, calls, calls', failure.Nothing?);
          if failure.Just? {
            FailureExtends(api, |calls|, |mid|, calls', failure.value);
          } else {
            ReturnedExtends(api, |calls|, |mid|, |calls'|);
          }
        }
      } else {
        var parentId := FindParentId(item, created);
        var r;
        r, calls' := CopyFile(api, calls, item.id, parentId);
        if r.Failure? {
          failure := Just(r.error);
        }
      }
    }

    /** The corrected children loop: every child is walked as an `all` entry with its children. */
    method ProcessChildrenIntended(api: Api, item: Node, createdFolders: map<string, string>, calls: seq<Call>)
      returns (created: map<string, string>, calls': seq<Call>, failure: Maybe<string>)
      ensures calls <= calls'
      ensures failure.Nothing? ==> AllReturned(api, |calls|, |calls'|)
      ensures failure.Just? ==> EndsInFailure(api, |calls|, calls', failure.value)
      ensures KeepsOutside(createdFolders, created, IdSet(item.children))
      ensures "root" !in IdSet(item.children) ==>
        var plan := IntendedChildrenPlan(item.children, FindParentId(item, createdFolders));
        calls' <= calls + plan && (failure.Nothing? ==> calls' == calls + plan)
      decreases item, 0
    {
      ghost var root := FindParentId(item, createdFolders);
      created, calls', failure := createdFolders, calls, Nothing;
      for i := 0 to |item.children|
        invariant failure.Nothing?
        invariant calls <= calls' && AllReturned(api, |calls|, |calls'|)
        invariant KeepsOutside(createdFolders, created, IdSet(item.children))
        invariant "root" !in IdSet(item.children) ==> calls' == calls + IntendedChildrenPlan(item.children[..i], root)
      {
        ghost var before := calls';
        ghost var createdBefore := created;
        var child := item.children[i];
        FolderManager.ContainsChild(item, i);
        ContainedIds(item.children, child);
        created, calls', failure := ProcessSelectedItemIntended(api, SelectedItem(child, All, true), created, calls');
        KeepsOutsideTrans(createdFolders, createdBefore, created, IdSet(item.children), IdSet(item.children));
        if failure.Just? {
          FailureExtends(api, |calls|, |before|, calls', failure.value);
        } else {
          ReturnedExtends(api, |calls|, |before|, |calls'|);
        }
        if "root" !in IdSet(item.children) {
          assert Lookup(createdBefore, "root") == Lookup(createdFolders, "root");
          assert FindParentId(child, createdBefore) == root;
          IntendedChildrenSnoc(item.children, i, root);
          IntendedChildrenPrefix(item.children, i + 1, root);
          ghost var step := IntendedPlan(SelectedItem(child, All, true), root);
          AppendStep(calls, IntendedChildrenPlan(item.children[..i], root), step, IntendedChildrenPlan(item.children[..i + 1], root));
          if failure.Just? {
            PrefixWithin(calls', calls, IntendedChildrenPlan(item.children[..i + 1], root), IntendedChildrenPlan(item.children, root));
            return;
          }
        }
        if failure.Just? {
          return;
        }
      }
      assert item.children[..|item.children|] == item.children;
    }

    /**
     * `startCopy`: check that a forest is loaded, that something is
     * selected, that a destination is given and that the user is signed in,
     * in that order, issuing nothing on a refusal; then copy the work list.
     */
    method StartCopy(api: Api, destinationFolderId: string)
      returns (outcome: CopyOutcome, calls: seq<Call>, progress: seq<(nat, nat)>)
      ensures folderStructure.Nothing? ==> outcome == NotLoaded
      ensures folderStructure.Just? ==>
        var work := FolderManager.Collected(folderManager.selectionStates, folderStructure.value);
        && (work == [] ==> outcome == NothingSelected)
        && (work != [] && destinationFolderId == "" ==> outcome == NoDestination)
        && (work != [] && destinationFolderId != "" && !isAuthenticated ==> outcome == NotAuthenticated)
        && (work != [] && destinationFolderId != "" && isAuthenticated ==> outcome.Ran())
        && (outcome.Completed? ==> outcome.copiedCount == |work|)
        && (outcome.Failed? ==> outcome.copiedCount < |work|)
        && (outcome.Ran() ==> forall k :: 0 <= k < |progress| ==> progress[k] == (k + 1, |work|))
      ensures !outcome.Ran() ==> calls == [] && progress == []
      ensures outcome.Ran() ==> |progress| == outcome.copiedCount
      ensures outcome.Completed? ==> AllReturned(api, 0, |calls|)
      ensures outcome.Failed? ==> EndsInFailure(api, 0, calls, outcome.error)
      ensures folderStructure.Just? && "root" !in IdSet(folderStructure.value) ==>
        var m := folderManager.selectionStates;
        var work := FolderManager.Collected(m, folderStructure.value);
        && (outcome.Completed? ==> calls == AllPlans(m, work, destinationFolderId))
        && (outcome.Failed? ==>
              AllPlans(m, work[..outcome.copiedCount], destinationFolderId) < calls
              <= AllPlans(m, work[..outcome.copiedCount + 1], destinationFolderId))
        && AllUnder(calls, destinationFolderId)
    {
      calls, progress := [], [];
      if folderStructure.Nothing? {
        return NotLoaded, calls, progress;
      }
      var selectedItems := folderManager.GetSelectedItems(folderStructure.value);
      if |selectedItems| == 0 {
        return NothingSelected, calls, progress;
      }
      if destinationFolderId == "" {
        return NoDestination, calls, progress;
      }
      if !isAuthenticated {
        return NotAuthenticated, calls, progress;
      }
      if "root" !in IdSet(folderStructure.value) {
        WorkAvoidsRoot(folderManager.selectionStates, folderStructure.value);
      }
      outcome, calls, progress := CopySelectedItems(api, selectedItems, destinationFolderId);
      if "root" !in IdSet(folderStructure.value) {
        if outcome.Completed? {
          AllPlansUnder(folderManager.selectionStates, selectedItems, destinationFolderId);
        } else {
          var next := selectedItems[..outcome.copiedCount + 1];
          AllPlansUnder(folderManager.selectionStates, next, destinationFolderId);
          PrefixUnder(calls, AllPlans(folderManager.selectionStates, next, destinationFolderId), destinationFolderId);
        }
      }
    }

    /**
     * The `try` block of `startCopy`: process the work list entry by entry
     * with `root` mapped to the destination, counting and reporting each
     * processed entry, and stop at the first failure with its message.
     */
    method CopySelectedItems(api: Api, selectedItems: seq<SelectedItem>, destinationFolderId: string)
      returns (outcome: CopyOutcome, calls: seq<Call>, progress: seq<(nat, nat)>)
      ensures outcome.Ran() && |progress| == outcome.copiedCount
      ensures forall k :: 0 <= k < |progress| ==> progress[k] == (k + 1, |selectedItems|)
      ensures outcome.Completed? ==> outcome.copiedCount == |selectedItems| && AllReturned(api, 0, |calls|)
      ensures outcome.Failed? ==> outcome.copiedCount < |selectedItems| && EndsInFailure(api, 0, calls, outcome.error)
      ensures AvoidsRoot(selectedItems) ==>
        var m := folderManager.selectionStates;
        && (outcome.Completed? ==> calls == AllPlans(m, selectedItems, destinationFolderId))
        && (outcome.Failed? ==>
              AllPlans(m, selectedItems[..outcome.copiedCount], destinationFolderId) < calls
              <= AllPlans(m, selectedItems[..outcome.copiedCount + 1], destinationFolderId))
    {
      calls, progress := [], [];
      var copiedCount: nat := 0;
      var totalItems := |selectedItems|;
      var createdFolders := map["root" := destinationFolderId];
      ghost var m := folderManager.selectionStates;
      for i := 0 to |selectedItems|
        invariant copiedCount == i == |progress|
        invariant forall k :: 0 <= k < i ==> progress[k] == (k + 1, totalItems)
        invariant AllReturned(api, 0, |calls|)
        invariant AvoidsRoot(selectedItems) ==>
          Lookup(createdFolders, "root") == Just(destinationFolderId) && calls == AllPlans(m, selectedItems[..i], destinationFolderId)
      {
        var failure;
        ghost var before := calls;
        ghost var createdBefore := createdFolders;
        createdFolders, calls, failure := ProcessSelectedItem(api, selectedItems[i], createdFolders, calls);
        EntryStep(m, selectedItems, i, destinationFolderId, createdBefore, createdFolders, before, calls, failure.Nothing?);
        if failure.Just? {
          return Failed(copiedCount, failure.value), calls, progress;
        }
        copiedCount := copiedCount + 1;
        progress := progress + [(copiedCount, totalItems)];
      }
      assert selectedItems[..|selectedItems|] == selectedItems;
      outcome := Completed(copiedCount);
    }
  }
}
