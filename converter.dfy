/** The worker partition of the converter: every core gets a contiguous batch
    of the input files, the last core whatever remains. */
module Converter {
  import opened Results
  import opened Tables
  import opened Distribute

  /** A worker of the converter. */
  datatype ConverterWorker = ConverterWorker(
    inputFiles: seq<string>, fileSizeLimit: int, stopsFp: Option<string>, gtfsDb: Option<string>)

  /** The workers for `coreCount` cores; `cpu_count()` is at least one. */
  function ConverterWorkersOf(inputFiles: seq<string>, coreCount: int, stopsFp: Option<string>, gtfsDb: Option<string>,
                              fileSizeLimit: int): seq<ConverterWorker>
    requires coreCount >= 1
  {
    var b := CeilDiv(|inputFiles|, coreCount);
    seq(coreCount, i requires 0 <= i < coreCount =>
      ConverterWorker(Selection(inputFiles, coreCount, b, i), fileSizeLimit, stopsFp, gtfsDb))
  }

  /** `create_workers` of the converter, with the core count as a parameter. */
  method CreateWorkers(inputFiles: seq<string>, coreCount: int, stopsFp: Option<string>, gtfsDb: Option<string>,
                       fileSizeLimit: int) returns (workers: seq<ConverterWorker>)
    requires coreCount >= 1
    ensures workers == ConverterWorkersOf(inputFiles, coreCount, stopsFp, gtfsDb, fileSizeLimit)
  {
    var coreCnt := coreCount;
    var fileCnt := |inputFiles|;
    var batchSize := CeilDiv(fileCnt, coreCnt);
    workers := [];
    var startI: nat := 0;
    var endI: nat := batchSize;
    for i := 0 to coreCnt
      invariant |workers| == i
      invariant startI == i * batchSize && endI == startI + batchSize
      invariant forall j :: 0 <= j < i ==>
        workers[j] == ConverterWorker(Selection(inputFiles, coreCnt, batchSize, j), fileSizeLimit, stopsFp, gtfsDb)
    {
      var selection;
      MulSucc(i, batchSize);
      if i == coreCnt - 1 {
        selection := inputFiles[Clamp(startI, fileCnt)..];
      } else {
        selection := inputFiles[Clamp(startI, fileCnt)..Clamp(endI, fileCnt)];
      }
      workers := workers + [ConverterWorker(selection, fileSizeLimit, stopsFp, gtfsDb)];
      startI := startI + batchSize;
      endI := endI + batchSize;
    }
  }

  /** One worker per core, all sharing the size limit, the stops file and the
      database, and together holding exactly the input files in order. */
  lemma ConverterPartition(inputFiles: seq<string>, coreCount: int, stopsFp: Option<string>, gtfsDb: Option<string>,
                           fileSizeLimit: int)
    requires coreCount >= 1
    ensures var w := ConverterWorkersOf(inputFiles, coreCount, stopsFp, gtfsDb, fileSizeLimit);
      && |w| == coreCount
      && (forall i :: 0 <= i < |w| ==> w[i].fileSizeLimit == fileSizeLimit && w[i].stopsFp == stopsFp && w[i].gtfsDb == gtfsDb)
      && Concat(seq(|w|, i requires 0 <= i < |w| => w[i].inputFiles)) == inputFiles
  {
    var w := ConverterWorkersOf(inputFiles, coreCount, stopsFp, gtfsDb, fileSizeLimit);
    var b := CeilDiv(|inputFiles|, coreCount);
    PartitionConcat(inputFiles, coreCount, b);
    assert seq(|w|, i requires 0 <= i < |w| => w[i].inputFiles) == Selections(inputFiles, coreCount, b, coreCount);
  }
}
