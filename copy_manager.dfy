/**
 * The copy manager (src/services/copyManager.ts): thin wrappers around the
 * Drive client that rethrow failures with a prefix, and a batch copy that
 * records one result per id and carries on past failures.
 *
 * The client is the `Api` oracle of module Drive; `calls` is the list of
 * requests issued so far in the run, so the next request gets `api(|calls|)`.
 */
module CopyManager {
  import opened Types
  import opened Drive

  const CreateFolderPrefix := "Failed to create folder: "
  const CopyFilePrefix := "Failed to copy file: "

  /** `error instanceof Error ? error.message : 'Unknown error'` */
  function MessageOf(t: Thrown): string
  {
    match t
    case ErrorValue(message) => message
    case OtherValue => "Unknown error"
  }

  /** The message of the `Error` a wrapper rethrows when request `c` throws `t`. */
  function FailureMessage(c: Call, t: Thrown): string
  {
    match c
    case CreateFolderCall(_, _) => CreateFolderPrefix + MessageOf(t)
    case CopyFileCall(_, _) => CopyFilePrefix + MessageOf(t)
  }

  /**
   * The rethrown message starts with the prefix of the request's kind, which
   * tells the two kinds apart, and ends with the original message.
   */
  lemma FailureMessageKeepsCause(c: Call, t: Thrown)
    ensures var msg := FailureMessage(c, t);
      && |msg| >= |CopyFilePrefix|
      && msg[|msg| - |MessageOf(t)|..] == MessageOf(t)
      && (c.CreateFolderCall? <==> |msg| >= |CreateFolderPrefix| && msg[..|CreateFolderPrefix|] == CreateFolderPrefix)
      && (c.CopyFileCall? ==> msg[..|CopyFilePrefix|] == CopyFilePrefix)
  {
    var msg := FailureMessage(c, t);
    if c.CopyFileCall? && |msg| >= |CreateFolderPrefix| {
      assert msg[11] == 'o' && CreateFolderPrefix[11] == 'r';
      assert msg[..|CreateFolderPrefix|][11] != CreateFolderPrefix[11];
    }
  }

  /** `CopyResult`: the outcome of one id of a batch. */
  datatype CopyResult = CopyResult(fileId: string, success: bool, result: Maybe<string>, error: Maybe<string>)

  /** `createFolder`: one request; the new folder's id, or the failure rethrown with its prefix. */
  method CreateFolder(api: Api, calls: seq<Call>, name: string, parentFolderId: string)
    returns (r: Result<string>, calls': seq<Call>)
    ensures calls' == calls + [CreateFolderCall(name, parentFolderId)]
    ensures api(|calls|).Returned? ==> r == Success(api(|calls|).id)
    ensures api(|calls|).Threw? ==> r == Failure(FailureMessage(calls'[|calls|], api(|calls|).thrown))
  {
    calls' := calls + [CreateFolderCall(name, parentFolderId)];
    match api(|calls|)
    case Returned(id) => r := Success(id);
    case Threw(error) => r := Failure(CreateFolderPrefix + MessageOf(error));
  }

  /** `copyFile`: one request; the copy's id, or the failure rethrown with its prefix. */
  method CopyFile(api: Api, calls: seq<Call>, fileId: string, destinationFolderId: string)
    returns (r: Result<string>, calls': seq<Call>)
    ensures calls' == calls + [CopyFileCall(fileId, destinationFolderId)]
    ensures api(|calls|).Returned? ==> r == Success(api(|calls|).id)
    ensures api(|calls|).Threw? ==> r == Failure(FailureMessage(calls'[|calls|], api(|calls|).thrown))
  {
    calls' := calls + [CopyFileCall(fileId, destinationFolderId)];
    match api(|calls|)
    case Returned(id) => r := Success(id);
    case Threw(error) => r := Failure(CopyFilePrefix + MessageOf(error));
  }

  /** `copyItem`: kept for compatibility, it is `copyFile` unchanged. */
  method CopyItem(api: Api, calls: seq<Call>, fileId: string, destinationFolderId: string)
    returns (r: Result<string>, calls': seq<Call>)
    ensures calls' == calls + [CopyFileCall(fileId, destinationFolderId)]
    ensures api(|calls|).Returned? ==> r == Success(api(|calls|).id)
    ensures api(|calls|).Threw? ==> r == Failure(CopyFilePrefix + MessageOf(api(|calls|).thrown))
  {
    r, calls' := CopyFile(api, calls, fileId, destinationFolderId);
  }

  /** The number of successful results. */
  function Successes(results: seq<CopyResult>): (n: nat)
    ensures n <= |results|
  {
    if results == [] then 0
    else Successes(results[..|results| - 1]) + (if results[|results| - 1].success then 1 else 0)
  }

  /** The success count of a prefix never exceeds that of a longer prefix. */
  lemma {:induction false} SuccessesMonotone(results: seq<CopyResult>, i: nat, j: nat)
    requires i <= j <= |results|
    ensures Successes(results[..i]) <= Successes(results[..j])
    decreases j - i
  {
    if i < j {
      SuccessesMonotone(results, i, j - 1);
      assert results[..j][..j - 1] == results[..j - 1];
    }
  }

  /** The result `copyMultipleItems` records for `fileId` when its request got `reply`. */
  function ResultFor(fileId: string, reply: Reply): (r: CopyResult)
    ensures r.fileId == fileId && (r.success <==> reply.Returned?)
    ensures r.success <==> r.result.Just? && r.error.Nothing?
  {
    match reply
    case Returned(id) => CopyResult(fileId, true, Just(id), Nothing)
    case Threw(t) => CopyResult(fileId, false, Nothing, Just(CopyFilePrefix + MessageOf(t)))
  }

  /** The number of the first `n` requests of a run that succeed. */
  function Returns(api: Api, n: nat): nat
  {
    if n == 0 then 0 else Returns(api, n - 1) + (if api(n - 1).Returned? then 1 else 0)
  }

  /** Results recorded request by request count the requests that succeeded. */
  lemma {:induction false} SuccessesAreReturns(api: Api, results: seq<CopyResult>, n: nat)
    requires n <= |results|
    requires forall k :: 0 <= k < |results| ==> (results[k].success <==> api(k).Returned?)
    ensures Successes(results[..n]) == Returns(api, n)
  {
    if n > 0 {
      SuccessesAreReturns(api, results, n - 1);
      assert results[..n][..n - 1] == results[..n - 1];
    }
  }

  /** Each recorded result succeeded exactly when the request in its position returned. */
  predicate Outcomes(api: Api, results: seq<CopyResult>)
  {
    forall k :: 0 <= k < |results| ==> (results[k].success <==> api(k).Returned?)
  }

  lemma OutcomesSnoc(api: Api, results: seq<CopyResult>, r: CopyResult)
    requires Outcomes(api, results) && (r.success <==> api(|results|).Returned?)
    ensures Outcomes(api, results + [r])
  {
  }

  /** Counting one more request's outcome gives the count over one more request. */
  lemma CountStep(api: Api, i: nat, count: nat, success: bool)
    requires count == Returns(api, i) && (success <==> api(i).Returned?)
    ensures count + (if success then 1 else 0) == Returns(api, i + 1)
  {
  }

  /** Every report so far was the running count of successful requests, with the total. */
  predicate Reported(api: Api, total: nat, progress: seq<(nat, nat)>)
  {
    forall k :: 0 <= k < |progress| ==> progress[k] == (Returns(api, k + 1), total)
  }

  lemma ReportedSnoc(api: Api, total: nat, progress: seq<(nat, nat)>, count: nat)
    requires Reported(api, total, progress) && count == Returns(api, |progress| + 1)
    ensures Reported(api, total, progress + [(count, total)])
  {
  }

  /** Progress reported as the running count of successes counts the recorded results, and only grows. */
  lemma ProgressCounts(api: Api, total: nat, results: seq<CopyResult>, progress: seq<(nat, nat)>)
    requires |progress| <= |results| == total && Outcomes(api, results) && Reported(api, total, progress)
    ensures forall k :: 0 <= k < |progress| ==>
      progress[k] == (Successes(results[..k + 1]), total) && progress[k].0 <= k + 1 <= progress[k].1
    ensures forall j, k :: 0 <= j <= k < |progress| ==> progress[j].0 <= progress[k].0
  {
    forall k | 0 <= k < |progress|
      ensures progress[k] == (Successes(results[..k + 1]), total)
    {
      SuccessesAreReturns(api, results, k + 1);
    }
    forall j, k | 0 <= j <= k < |progress|
      ensures progress[j].0 <= progress[k].0
    {
      SuccessesMonotone(results, j + 1, k + 1);
    }
  }

  /** The first `|results|` ids were requested in order, each with the result its reply gives. */
  predicate Recorded(api: Api, fileIds: seq<string>, destinationFolderId: string, results: seq<CopyResult>, calls: seq<Call>)
  {
    && |results| == |calls| <= |fileIds|
    && forall k :: 0 <= k < |results| ==>
      calls[k] == CopyFileCall(fileIds[k], destinationFolderId) && results[k] == ResultFor(fileIds[k], api(k))
  }

  lemma RecordedSnoc(api: Api, fileIds: seq<string>, destinationFolderId: string, results: seq<CopyResult>, calls: seq<Call>)
    requires Recorded(api, fileIds, destinationFolderId, results, calls) && |results| < |fileIds|
    ensures Recorded(api, fileIds, destinationFolderId,
      results + [ResultFor(fileIds[|results|], api(|results|))],
      calls + [CopyFileCall(fileIds[|results|], destinationFolderId)])
  {
  }

  /**
   * `copyMultipleItems`: copy each id in turn into the destination, recording
   * one result per id and carrying on past failures; when `onProgress` is
   * given it is called after every id with (successes so far, total).
   */
  method CopyMultipleItems(api: Api, fileIds: seq<string>, destinationFolderId: string, onProgress: bool)
    returns (results: seq<CopyResult>, calls: seq<Call>, progress: seq<(nat, nat)>)
    ensures |results| == |fileIds| && |calls| == |fileIds|
    ensures forall k :: 0 <= k < |fileIds| ==>
      && calls[k] == CopyFileCall(fileIds[k], destinationFolderId)
      && results[k].fileId == fileIds[k]
      && (results[k].success <==> api(k).Returned?)
      && results[k] == ResultFor(fileIds[k], api(k))
    ensures onProgress ==> |progress| == |fileIds|
    ensures !onProgress ==> progress == []
    ensures forall k :: 0 <= k < |progress| ==>
      progress[k] == (Successes(results[..k + 1]), |fileIds|) && progress[k].0 <= k + 1 <= progress[k].1
    ensures forall j, k :: 0 <= j <= k < |progress| ==> progress[j].0 <= progress[k].0
  {
    results, calls, progress := [], [], [];
    var copiedCount: nat := 0;
    for i := 0 to |fileIds|
      invariant |results| == i && |calls| == i && Recorded(api, fileIds, destinationFolderId, results, calls) && Outcomes(api, results)
      invariant copiedCount == Returns(api, i)
      invariant |progress| == (if onProgress then i else 0) && Reported(api, |fileIds|, progress)
    {
      var fileId := fileIds[i];
      var r;
      RecordedSnoc(api, fileIds, destinationFolderId, results, calls);
      OutcomesSnoc(api, results, ResultFor(fileId, api(i)));
      r, calls := CopyItem(api, calls, fileId, destinationFolderId);
      var entry := match r
        case Success(result) => CopyResult(fileId, true, Just(result), Nothing)
        case Failure(error) => CopyResult(fileId, false, Nothing, Just(error));
      results := results + [entry];
      CountStep(api, i, copiedCount, r.Success?);
      copiedCount := copiedCount + if r.Success? then 1 else 0;
      if onProgress {
        ReportedSnoc(api, |fileIds|, progress, copiedCount);
        progress := progress + [(copiedCount, |fileIds|)];
      }
    }
    ProgressCounts(api, |fileIds|, results, progress);
  }
}
