/** The static work partition: a list of input files cut into contiguous
    batches, one per worker, the last worker taking whatever remains. */
module Distribute {
  import opened Results
  import opened Tables

  /** `math.ceil(n / k)` for a positive k. */
  function CeilDiv(n: nat, k: int): (b: nat)
    requires k > 0
    ensures b * k >= n && (b == 0 || (b - 1) * k < n)
  {
    (n + k - 1) / k
  }

  /** An index clamped to a list of length n, as a slice bound is. */
  function Clamp(x: nat, n: nat): (c: nat)
    ensures c <= n && (x <= n ==> c == x) && (x > n ==> c == n)
  {
    if x > n then n else x
  }

  /** The files of worker i out of k with batch size b: `files[i*b:(i+1)*b]`,
      and `files[(k-1)*b:]` for the last worker. */
  function Selection<T>(files: seq<T>, k: int, b: nat, i: nat): seq<T>
    requires 0 <= i < k
  {
    var n := |files|;
    if i == k - 1 then files[Clamp(i * b, n)..]
    else
      assert i * b <= (i + 1) * b;
      files[Clamp(i * b, n)..Clamp((i + 1) * b, n)]
  }

  /** The selections of the first m workers. */
  function Selections<T>(files: seq<T>, k: int, b: nat, m: nat): (r: seq<seq<T>>)
    requires m <= k
    ensures |r| == m && forall i :: 0 <= i < m ==> r[i] == Selection(files, k, b, i)
  {
    seq(m, i requires 0 <= i < m => Selection(files, k, b, i))
  }

  /** A worker of `distribute`. */
  datatype Parallel = Parallel(inputFiles: seq<string>, fileSizeLimit: int, gtfsDb: Option<string>)

  /** The `worker_cnt` argument: absent, an integer (a bool is one), or
      something else. */
  datatype WorkerCount = Unset | Count(n: int) | NotAnInt

  /** The number of workers: the given integer, else the number of cores; any
      other value fails the assertion. */
  function CoreCount(workerCnt: WorkerCount, cpuCount: int): (r: Result<int>)
    ensures workerCnt.Count? ==> r == Ok(workerCnt.n)
    ensures workerCnt.Unset? ==> r == Ok(cpuCount)
    ensures workerCnt.NotAnInt? ==> r == Err(AssertionError)
  {
    match workerCnt
    case Count(n) => Ok(n)
    case Unset => Ok(cpuCount)
    case NotAnInt => Err(AssertionError)
  }

  /** The workers `create_workers` builds: none for a negative count (the
      range is empty), a division error for zero, otherwise one per batch. */
  function WorkersOf(inputFiles: seq<string>, workerCnt: WorkerCount, cpuCount: int, gtfsDb: Option<string>,
                     fileSizeLimit: int): Result<seq<Parallel>>
  {
    match CoreCount(workerCnt, cpuCount)
    case Err(e) => Err(e)
    case Ok(k) =>
      if k == 0 then Err(ZeroDivisionError)
      else if k < 0 then Ok([])
      else
        var b := CeilDiv(|inputFiles|, k);
        Ok(seq(k, i requires 0 <= i < k => Parallel(Selection(inputFiles, k, b, i), fileSizeLimit, gtfsDb)))
  }

  /** `create_workers`. */
  method CreateWorkers(inputFiles: seq<string>, workerCnt: WorkerCount, cpuCount: int, gtfsDb: Option<string>,
                       fileSizeLimit: int) returns (r: Result<seq<Parallel>>)
    ensures r == WorkersOf(inputFiles, workerCnt, cpuCount, gtfsDb, fileSizeLimit)
  {
    var coreCnt := CoreCount(workerCnt, cpuCount);
    if coreCnt.Err? {
      return Err(coreCnt.error);
    }
    var k := coreCnt.value;
    if k == 0 {
      return Err(ZeroDivisionError);
    }
    if k < 0 {
      return Ok([]);
    }
    var batchSize := CeilDiv(|inputFiles|, k);
    var workers := BuildWorkers(inputFiles, k, batchSize, gtfsDb, fileSizeLimit);
    r := Ok(workers);
  }

  /** The loop of `create_workers`: start and end index advance by one batch
      per worker. */
  method BuildWorkers(inputFiles: seq<string>, k: int, batchSize: nat, gtfsDb: Option<string>, fileSizeLimit: int)
    returns (workers: seq<Parallel>)
    requires k > 0
    ensures workers == seq(k, i requires 0 <= i < k => Parallel(Selection(inputFiles, k, batchSize, i), fileSizeLimit, gtfsDb))
  {
    var fileCnt := |inputFiles|;
    workers := [];
    var startI: nat := 0;
    var endI: nat := batchSize;
    for i := 0 to k
      invariant |workers| == i
      invariant startI == i * batchSize && endI == startI + batchSize
      invariant forall j :: 0 <= j < i ==>
        workers[j] == Parallel(Selection(inputFiles, k, batchSize, j), fileSizeLimit, gtfsDb)
    {
      var selection;
      MulSucc(i, batchSize);
      if i == k - 1 {
        selection := inputFiles[Clamp(startI, fileCnt)..];
      } else {
        selection := inputFiles[Clamp(startI, fileCnt)..Clamp(endI, fileCnt)];
      }
      workers := workers + [Parallel(selection, fileSizeLimit, gtfsDb)];
      startI := startI + batchSize;
      endI := endI + batchSize;
    }
  }

  lemma MulSucc(i: nat, b: nat)
    ensures (i + 1) * b == i * b + b
  {
  }

  // ---------------------------------------------------------------------------
  // Properties

  /** The first m non-last workers together hold the first m batches. */
  lemma {:induction false} PrefixSelections<T>(files: seq<T>, k: int, b: nat, m: nat)
    requires m < k
    ensures Concat(Selections(files, k, b, m)) == files[..Clamp(m * b, |files|)]
    decreases m
  {
    var n := |files|;
    if m > 0 {
      PrefixSelections(files, k, b, m - 1);
      assert Selections(files, k, b, m)[..m - 1] == Selections(files, k, b, m - 1);
      assert (m - 1) * b <= m * b;
      assert m * b == (m - 1) * b + b;
      var lo, hi := Clamp((m - 1) * b, n), Clamp(m * b, n);
      assert files[..lo] + files[lo..hi] == files[..hi];
    } else {
      assert Selections(files, k, b, 0) == [];
    }
  }

  /** Concatenating the workers' selections in order gives the input back:
      no file is lost and none is given twice. */
  lemma PartitionConcat<T>(files: seq<T>, k: int, b: nat)
    requires k > 0
    ensures Concat(Selections(files, k, b, k)) == files
  {
    var n := |files|;
    PrefixSelections(files, k, b, k - 1);
    assert Selections(files, k, b, k)[..k - 1] == Selections(files, k, b, k - 1);
    var lo := Clamp((k - 1) * b, n);
    assert files[..lo] + files[lo..] == files;
  }

  /** Every worker but the last gets at most one batch; with the ceiling
      batch size the last one gets at most a batch too. */
  lemma SelectionSizes<T>(files: seq<T>, k: int, i: nat)
    requires 0 <= i < k
    ensures |Selection(files, k, CeilDiv(|files|, k), i)| <= CeilDiv(|files|, k)
  {
    var n, b := |files|, CeilDiv(|files|, k);
    assert (i + 1) * b == i * b + b;
    if i == k - 1 {
      assert b * k == (k - 1) * b + b;
    }
  }

  /** The workers of `create_workers` share the size limit and the database,
      and their files are the input, in order. */
  lemma CreateWorkersPartition(inputFiles: seq<string>, workerCnt: WorkerCount, cpuCount: int,
                               gtfsDb: Option<string>, fileSizeLimit: int)
    requires CoreCount(workerCnt, cpuCount) == Ok(cpuCount) || workerCnt.Count?
    ensures var r := WorkersOf(inputFiles, workerCnt, cpuCount, gtfsDb, fileSizeLimit);
      r.Ok? && |r.value| > 0 ==>
        && (forall i :: 0 <= i < |r.value| ==> r.value[i].fileSizeLimit == fileSizeLimit && r.value[i].gtfsDb == gtfsDb)
        && Concat(seq(|r.value|, i requires 0 <= i < |r.value| => r.value[i].inputFiles)) == inputFiles
  {
    var r := WorkersOf(inputFiles, workerCnt, cpuCount, gtfsDb, fileSizeLimit);
    if r.Ok? && |r.value| > 0 {
      var k := CoreCount(workerCnt, cpuCount).value;
      var b := CeilDiv(|inputFiles|, k);
      PartitionConcat(inputFiles, k, b);
      assert seq(|r.value|, i requires 0 <= i < |r.value| => r.value[i].inputFiles) == Selections(inputFiles, k, b, k);
    }
  }

  /** Five files on two workers: three, then two. */
  lemma FiveFilesTwoWorkers(files: seq<string>)
    requires |files| == 5
    ensures WorkersOf(files, Count(2), 4, None, 1000) ==
      Ok([Parallel(files[..3], 1000, None), Parallel(files[3..], 1000, None)])
  {
    assert CeilDiv(5, 2) == 3;
    assert Selection(files, 2, 3, 0) == files[..3];
    assert Selection(files, 2, 3, 1) == files[3..];
    var w := WorkersOf(files, Count(2), 4, None, 1000).value;
    assert |w| == 2 && w[0] == Parallel(files[..3], 1000, None) && w[1] == Parallel(files[3..], 1000, None);
    assert w == [Parallel(files[..3], 1000, None), Parallel(files[3..], 1000, None)];
  }
}
