/**
 * The language-model selection service (src/services/llmService.ts): a key
 * that switches mock mode on and off, a mock that selects everything, and the
 * filter-and-fill applied to the object the model answered with.
 *
 * The request itself (`_callOpenAI`) and `JSON.parse` are not modelled: their
 * outcome is an input, either a failure or the entries of the parsed object.
 */
module LlmService {
  import opened Types
  import opened JsText

  /** What `JSON.parse` made of the model's answer: a throw, or the object's `Object.entries`. */
  datatype ParsedReply = Unparseable | Entries(pairs: seq<(string, string)>)

  /** The outcome of `_callOpenAI`: it threw (missing key, network, HTTP status), or it answered. */
  datatype LlmReply = CallFailed | Answered(parsed: ParsedReply)

  /** The string a `SelectionState` is written as. */
  function StateName(s: SelectionState): string
  {
    match s
    case None => "none"
    case All => "all"
    case FolderOnly => "folder-only"
    case Partial => "partial"
  }

  /** `_isValidSelectionState`: the string names one of the four states. */
  function IsValidSelectionState(selection: string): (r: bool)
    ensures r <==> exists s :: StateName(s) == selection
  {
    assert StateName(None) == "none" && StateName(All) == "all";
    assert StateName(FolderOnly) == "folder-only" && StateName(Partial) == "partial";
    selection in ["none", "all", "folder-only", "partial"]
  }

  /** `selection as SelectionState`, for a string that names a state. */
  function ToState(selection: string): (s: SelectionState)
    requires IsValidSelectionState(selection)
    ensures StateName(s) == selection
  {
    if selection == "none" then None
    else if selection == "all" then All
    else if selection == "folder-only" then FolderOnly
    else Partial
  }

  /** Reading back the name of a state gives the state. */
  lemma StateNameRoundTrip(s: SelectionState)
    ensures IsValidSelectionState(StateName(s)) && ToState(StateName(s)) == s
  {
  }

  /** The selection `_mockSelection` returns for a forest. */
  function MockOf(structure: seq<Node>): States
  {
    Assigned(map[], structure, All)
  }

  /** The mock selects every node of the forest, at every depth, and nothing else. */
  lemma MockSelectsEverything(structure: seq<Node>)
    ensures MockOf(structure).Keys == IdSet(structure)
    ensures forall id :: id in MockOf(structure) ==> MockOf(structure)[id] == All
  {
  }

  /** The entries `_parseSelection` keeps, in order, later entries overwriting earlier ones. */
  function Kept(pairs: seq<(string, string)>, ids: set<string>): States
  {
    if pairs == [] then map[]
    else
      var m := Kept(pairs[..|pairs| - 1], ids);
      var (id, selection) := pairs[|pairs| - 1];
      if id in ids && IsValidSelectionState(selection) then m[id := ToState(selection)] else m
  }

  /** Entry `k` is the last entry for `id` whose value names a state. */
  predicate LastValidAt(pairs: seq<(string, string)>, id: string, k: int)
  {
    && 0 <= k < |pairs|
    && pairs[k].0 == id
    && IsValidSelectionState(pairs[k].1)
    && forall j :: k < j < |pairs| && pairs[j].0 == id ==> !IsValidSelectionState(pairs[j].1)
  }

  /** An id is kept exactly when it is in the forest and one of its entries is valid; its state is that of the last one. */
  lemma {:induction false} KeptAt(pairs: seq<(string, string)>, ids: set<string>, id: string)
    ensures id in Kept(pairs, ids) <==>
      id in ids && exists k :: 0 <= k < |pairs| && pairs[k].0 == id && IsValidSelectionState(pairs[k].1)
    ensures id in Kept(pairs, ids) ==>
      exists k :: LastValidAt(pairs, id, k) && Kept(pairs, ids)[id] == ToState(pairs[k].1)
  {
    if pairs != [] {
      var n := |pairs| - 1;
      var front := pairs[..n];
      KeptAt(front, ids, id);
      if pairs[n].0 == id && id in ids && IsValidSelectionState(pairs[n].1) {
        assert LastValidAt(pairs, id, n);
      } else if id in Kept(front, ids) {
        var k :| LastValidAt(front, id, k) && Kept(front, ids)[id] == ToState(front[k].1);
        assert LastValidAt(pairs, id, k);
      } else if id in ids {
        assert forall k :: 0 <= k < n ==> front[k] == pairs[k];
      }
    }
  }

  /** `selectionMap` after the fill: every forest id present, `none` where nothing was kept. */
  function Filled(kept: States, ids: set<string>): States
  {
    map id | id in ids :: if id in kept then kept[id] else None
  }

  /** The outcome of `_parseSelection`. */
  function ParseOf(response: ParsedReply, structure: seq<Node>): Result<States>
  {
    match response
    case Unparseable => Failure("Invalid LLM response format")
    case Entries(pairs) => Success(Filled(Kept(pairs, IdSet(structure)), IdSet(structure)))
  }

  /**
   * What `_parseSelection` promises: it fails exactly on an unparseable
   * answer; otherwise the keys are the forest's ids, an id with a valid entry
   * gets the state of its last valid entry, and every other id gets `none`.
   */
  lemma ParseSelectionMeaning(response: ParsedReply, structure: seq<Node>)
    ensures ParseOf(response, structure).Failure? <==> response.Unparseable?
    ensures response.Unparseable? ==> ParseOf(response, structure).error == "Invalid LLM response format"
    ensures response.Entries? ==>
      var r := ParseOf(response, structure).value;
      && r.Keys == IdSet(structure)
      && forall id :: id in r ==>
        if exists k :: 0 <= k < |response.pairs| && response.pairs[k].0 == id && IsValidSelectionState(response.pairs[k].1)
        then exists k :: LastValidAt(response.pairs, id, k) && r[id] == ToState(response.pairs[k].1)
        else r[id] == None
  {
    if response.Entries? {
      var ids := IdSet(structure);
      forall id | id in ids {
        KeptAt(response.pairs, ids, id);
      }
    }
  }

  /** With distinct keys, as `Object.entries` yields, every valid entry for a forest id is taken as is. */
  lemma ParseSelectionDistinct(pairs: seq<(string, string)>, structure: seq<Node>, k: nat)
    requires forall i, j :: 0 <= i < j < |pairs| ==> pairs[i].0 != pairs[j].0
    requires k < |pairs| && pairs[k].0 in IdSet(structure) && IsValidSelectionState(pairs[k].1)
    ensures ParseOf(Entries(pairs), structure).value[pairs[k].0] == ToState(pairs[k].1)
  {
    var ids := IdSet(structure);
    KeptAt(pairs, ids, pairs[k].0);
    var k' :| LastValidAt(pairs, pairs[k].0, k') && Kept(pairs, ids)[pairs[k].0] == ToState(pairs[k'].1);
    assert k' == k;
  }

  /** The selection `selectFiles` resolves to. */
  function SelectionOf(mockMode: bool, reply: LlmReply, structure: seq<Node>): States
  {
    if mockMode || reply.CallFailed? || ParseOf(reply.parsed, structure).Failure? then MockOf(structure)
    else ParseOf(reply.parsed, structure).value
  }

  /** `selectFiles` falls back to the mock in mock mode and on every failure, and otherwise keys the forest's ids. */
  lemma SelectFilesFallback(mockMode: bool, reply: LlmReply, structure: seq<Node>)
    ensures mockMode || reply == CallFailed || reply == Answered(Unparseable) ==>
      SelectionOf(mockMode, reply, structure) == MockOf(structure)
    ensures !mockMode && reply.Answered? && reply.parsed.Entries? ==>
      SelectionOf(mockMode, reply, structure) == ParseOf(reply.parsed, structure).value
    ensures SelectionOf(mockMode, reply, structure).Keys == IdSet(structure)
  {
  }

  /** `LLMService` */
  class LlmService {
    var apiKey: Maybe<string>
    var mockMode: bool

    constructor ()
      ensures apiKey == Nothing && mockMode
    {
      apiKey := Nothing;
      mockMode := true;
    }

    /** `setApiKey`: store the key; mock mode is on exactly when the key is empty or blank. */
    method SetApiKey(key: string)
      modifies this
      ensures apiKey == Just(key)
      ensures mockMode <==> forall i :: 0 <= i < |key| ==> IsWhiteSpace(key[i])
    {
      apiKey := Just(key);
      mockMode := key == "" || Trim(key) == "";
      TrimEmpty(key);
    }

    /** `selectFiles`: the mock in mock mode or when the request or its parse fails, else the parsed selection. */
    method SelectFiles(folderStructure: seq<Node>, reply: LlmReply) returns (selections: States)
      ensures selections == SelectionOf(mockMode, reply, folderStructure)
    {
      if mockMode {
        selections := MockSelection(folderStructure);
        return;
      }
      match reply {
        case CallFailed =>
          selections := MockSelection(folderStructure);
        case Answered(response) =>
          var parsed := ParseSelection(response, folderStructure);
          match parsed {
            case Failure(_) => selections := MockSelection(folderStructure);
            case Success(m) => selections := m;
          }
      }
    }

    /** `_mockSelection`: every node of the forest, at every depth, as `all`. */
    method MockSelection(folderStructure: seq<Node>) returns (selections: States)
      ensures selections == MockOf(folderStructure)
    {
      selections := SelectAll(folderStructure, map[]);
    }

    /** The `selectAll` closure of `_mockSelection`, with the map it writes threaded through. */
    method SelectAll(items: seq<Node>, selections: States) returns (selections': States)
      ensures selections' == Assigned(selections, items, All)
      decreases items
    {
      selections' := selections;
      for i := 0 to |items|
        invariant selections' == Assigned(selections, items[..i], All)
      {
        ghost var before := selections';
        selections' := selections'[items[i].id := All];
        if |items[i].children| > 0 {
          selections' := SelectAll(items[i].children, selections');
        } else {
          AssignedNothing(before[items[i].id := All], All);
        }
        AssignedSnoc(selections, items, i, All);
      }
      assert items[..|items|] == items;
    }

    /** The `collectIds` closure of `_parseSelection`, with the set it fills threaded through. */
    method CollectIds(items: seq<Node>, allIds: set<string>) returns (allIds': set<string>)
      ensures allIds' == allIds + IdSet(items)
      decreases items
    {
      allIds' := allIds;
      for i := 0 to |items|
        invariant allIds' == allIds + IdSet(items[..i])
      {
        allIds' := allIds' + {items[i].id};
        allIds' := CollectIds(items[i].children, allIds');
        IdSetSnoc(items, i);
      }
      assert items[..|items|] == items;
    }

    /** `_parseSelection`, after `JSON.parse`: keep the valid entries for forest ids, then fill the rest with `none`. */
    method ParseSelection(response: ParsedReply, folderStructure: seq<Node>) returns (r: Result<States>)
      ensures r == ParseOf(response, folderStructure)
    {
      if response.Unparseable? {
        return Failure("Invalid LLM response format");
      }
      var pairs := response.pairs;
      var selectionMap: States := map[];
      var allIds := CollectIds(folderStructure, {});
      for i := 0 to |pairs|
        invariant selectionMap == Kept(pairs[..i], allIds)
      {
        var (id, selection) := pairs[i];
        assert pairs[..i + 1][..i] == pairs[..i];
        if id in allIds && IsValidSelectionState(selection) {
          selectionMap := selectionMap[id := ToState(selection)];
        }
      }
      assert pairs[..|pairs|] == pairs;
      ghost var kept := selectionMap;
      KeptWithin(pairs, allIds);
      var remaining := allIds;
      while remaining != {}
        invariant remaining <= allIds
        invariant selectionMap == map id | id in kept.Keys + (allIds - remaining) ::
          if id in kept then kept[id] else None
        decreases remaining
      {
        var id :| id in remaining;
        if id !in selectionMap {
          selectionMap := selectionMap[id := None];
        }
        remaining := remaining - {id};
      }
      assert kept.Keys + (allIds - remaining) == allIds;
      assert selectionMap == Filled(kept, allIds);
      assert kept == Kept(pairs, allIds);
      assert allIds == IdSet(folderStructure);
      r := Success(selectionMap);
    }
  }

  /** Only forest ids are ever kept. */
  lemma {:induction false} KeptWithin(pairs: seq<(string, string)>, ids: set<string>)
    ensures Kept(pairs, ids).Keys <= ids
  {
    if pairs != [] {
      KeptWithin(pairs[..|pairs| - 1], ids);
    }
  }
}
