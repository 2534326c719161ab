/**
 * The earlier JavaScript copy manager (src/services/copyManager.js): one
 * wrapper, `copyItem`, and the same batch loop as the TypeScript version,
 * with its own prefix and plain `error.message` in place of the
 * `instanceof Error` test.
 */
module CopyManagerLegacy {
  import opened Types
  import opened Drive
  import opened CopyManager

  const CopyItemPrefix := "Failed to copy item: "

  /** `error.message`: a thrown value that is not an `Error` has no message, which renders as "undefined". */
  function JsMessageOf(t: Thrown): string
  {
    match t
    case ErrorValue(message) => message
    case OtherValue => "undefined"
  }

  /** `copyItem`: one copy request; its id, or the failure rethrown with its prefix. */
  method CopyItem(api: Api, calls: seq<Call>, fileId: string, destinationFolderId: string)
    returns (r: Result<string>, calls': seq<Call>)
    ensures calls' == calls + [CopyFileCall(fileId, destinationFolderId)]
    ensures api(|calls|).Returned? ==> r == Success(api(|calls|).id)
    ensures api(|calls|).Threw? ==> r == Failure(CopyItemPrefix + JsMessageOf(api(|calls|).thrown))
  {
    calls' := calls + [CopyFileCall(fileId, destinationFolderId)];
    match api(|calls|)
    case Returned(id) => r := Success(id);
    case Threw(error) => r := Failure(CopyItemPrefix + JsMessageOf(error));
  }

  /** The result the JavaScript batch records for `fileId` when its request got `reply`. */
  function LegacyResultFor(fileId: string, reply: Reply): (r: CopyResult)
    ensures r.fileId == fileId && (r.success <==> reply.Returned?)
    ensures r.success <==> r.result.Just? && r.error.Nothing?
  {
    match reply
    case Returned(id) => CopyResult(fileId, true, Just(id), Nothing)
    case Threw(t) => CopyResult(fileId, false, Nothing, Just(CopyItemPrefix + JsMessageOf(t)))
  }

  /** The two versions agree on which ids succeed, and differ at most in the failure text. */
  lemma VersionsAgreeOnOutcome(fileId: string, reply: Reply)
    ensures LegacyResultFor(fileId, reply).success == ResultFor(fileId, reply).success
    ensures reply.Returned? <==> LegacyResultFor(fileId, reply) == ResultFor(fileId, reply)
  {
    if reply.Threw? {
      assert LegacyResultFor(fileId, reply).error.value[15] == 'i';
      assert ResultFor(fileId, reply).error.value[15] == 'f';
    }
  }

  /** The first `|results|` ids were requested in order, each with the result its reply gives. */
  predicate LegacyRecorded(api: Api, fileIds: seq<string>, destinationFolderId: string, results: seq<CopyResult>, calls: seq<Call>)
  {
    && |results| == |calls| <= |fileIds|
    && forall k :: 0 <= k < |results| ==>
      calls[k] == CopyFileCall(fileIds[k], destinationFolderId) && results[k] == LegacyResultFor(fileIds[k], api(k))
  }

  lemma LegacyRecordedSnoc(api: Api, fileIds: seq<string>, destinationFolderId: string, results: seq<CopyResult>, calls: seq<Call>)
    requires LegacyRecorded(api, fileIds, destinationFolderId, results, calls) && |results| < |fileIds|
    ensures LegacyRecorded(api, fileIds, destinationFolderId,
      results + [LegacyResultFor(fileIds[|results|], api(|results|))],
      calls + [CopyFileCall(fileIds[|results|], destinationFolderId)])
  {
  }

  /**
   * `copyMultipleItems`: copy each id in turn, recording one result per id
   * and carrying on past failures; when `onProgress` is given (it defaults to
   * `null`) it is called after every id with (successes so far, total).
   */
  method CopyMultipleItems(api: Api, fileIds: seq<string>, destinationFolderId: string, onProgress: bool)
    returns (results: seq<CopyResult>, calls: seq<Call>, progress: seq<(nat, nat)>)
    ensures |results| == |fileIds| && |calls| == |fileIds|
    ensures forall k :: 0 <= k < |fileIds| ==>
      && calls[k] == CopyFileCall(fileIds[k], destinationFolderId)
      && results[k].fileId == fileIds[k]
      && (results[k].success <==> api(k).Returned?)
      && results[k] == LegacyResultFor(fileIds[k], api(k))
    ensures onProgress ==> |progress| == |fileIds|
    ensures !onProgress ==> progress == []
    ensures forall k :: 0 <= k < |progress| ==>
      progress[k] == (Successes(results[..k + 1]), |fileIds|) && progress[k].0 <= k + 1 <= progress[k].1
    ensures forall j, k :: 0 <= j <= k < |progress| ==> progress[j].0 <= progress[k].0
  {
    results, calls, progress := [], [], [];
    var copiedCount: nat := 0;
    for i := 0 to |fileIds|
      invariant |results| == i && |calls| == i && LegacyRecorded(api, fileIds, destinationFolderId, results, calls) && Outcomes(api, results)
      invariant copiedCount == Returns(api, i)
      invariant |progress| == (if onProgress then i else 0) && Reported(api, |fileIds|, progress)
    {
      var fileId := fileIds[i];
      var r;
      LegacyRecordedSnoc(api, fileIds, destinationFolderId, results, calls);
      OutcomesSnoc(api, results, LegacyResultFor(fileId, api(i)));
      r, calls := CopyItem(api, calls, fileId, destinationFolderId);
      var entry := match r
        case Success(result) => CopyResult(fileId, true, Just(result), Nothing)
        case Failure(error) => CopyResult(fileId, false, Nothing, Just(error));
      results := results + [entry];
      CountStep(api, i, copiedCount, r.Success?);
      copiedCount := copiedCount + if r.Success? then 1 else 0;
      if onProgress {
        ReportedSnoc(api, |fileIds|, progress, copiedCount);
        progress := progress + [(copiedCount, |fileIds|)];
      }
    }
    ProgressCounts(api, |fileIds|, results, progress);
  }
}
