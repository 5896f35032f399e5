/** ApplicationRunner: finds the JSON files under the input directory, runs one
    processor per file over the shared counter, prints the total of processed
    orders and hands the sorted snapshot to the report. The worker pool is
    replaced by running the processors one after the other. */
module Runner {
  import opened Wrappers
  import opened Exceptions
  import opened Strings
  import opened Config
  import opened Statistics
  import opened Processor

  // ---- File discovery ----

  datatype EntryKind = RegularFile | Directory | OtherKind

  /** One path that Files.walk reports, with what Files.isRegularFile says of it. */
  datatype PathEntry = PathEntry(path: string, kind: EntryKind)

  const JsonExtension := ".json"
  const NoJsonFilesMessage := "Json files in directory are required"

  /** A regular file whose path, lower-cased, ends in ".json". */
  predicate IsJsonFile(e: PathEntry)
  {
    e.kind == RegularFile && EndsWith(Lower(e.path), JsonExtension)
  }

  /** The positions of the walked entries that are JSON files, in walk order. */
  ghost function JsonPositions(entries: seq<PathEntry>): seq<nat>
    decreases |entries|
  {
    if entries == [] then []
    else
      var n := |entries| - 1;
      JsonPositions(entries[..n]) + (if IsJsonFile(entries[n]) then [n] else [])
  }

  /** `files` holds one path per JSON entry, in walk order: `positions` are
      increasing, each is a JSON entry whose path is the matching file, and
      every JSON entry's position is among them. */
  ghost predicate OneForOne(entries: seq<PathEntry>, files: seq<string>, positions: seq<nat>)
  {
    && |positions| == |files|
    && (forall k :: 0 <= k < |positions| ==>
          positions[k] < |entries| && IsJsonFile(entries[positions[k]]) && files[k] == entries[positions[k]].path)
    && (forall k, l :: 0 <= k < l < |positions| ==> positions[k] < positions[l])
    && (forall j :: 0 <= j < |entries| && IsJsonFile(entries[j]) ==> j in positions)
  }

  /** findJsonFiles: the walked paths that are JSON files, in walk order. */
  function FindJsonFiles(entries: seq<PathEntry>): (files: seq<string>)
    ensures |files| <= |entries|
    ensures forall p :: p in files ==> exists e :: e in entries && IsJsonFile(e) && e.path == p
    decreases |entries|
  {
    if entries == [] then []
    else
      var n := |entries| - 1;
      assert forall e :: e in entries[..n] ==> e in entries;
      FindJsonFiles(entries[..n]) + (if IsJsonFile(entries[n]) then [entries[n].path] else [])
  }

  /** Each JSON entry of the walk gives exactly one file, in walk order, and
      nothing else does: so a path is found exactly when some walked regular
      file has it and ends in ".json", and there are as many files as JSON
      entries. */
  lemma {:induction false} FindJsonFilesOneForOne(entries: seq<PathEntry>)
    ensures OneForOne(entries, FindJsonFiles(entries), JsonPositions(entries))
    ensures forall p :: p in FindJsonFiles(entries) <==> exists e :: e in entries && IsJsonFile(e) && e.path == p
    decreases |entries|
  {
    if entries != [] {
      var n := |entries| - 1;
      var init := entries[..n];
      FindJsonFilesOneForOne(init);
      var files := FindJsonFiles(entries);
      var positions := JsonPositions(entries);
      assert forall j :: 0 <= j < n ==> entries[j] == init[j];
      assert OneForOne(entries, files, positions);
      forall e | e in entries && IsJsonFile(e) ensures e.path in files {
        var j :| 0 <= j < |entries| && entries[j] == e;
        var k :| 0 <= k < |positions| && positions[k] == j;
        assert files[k] == e.path;
      }
    }
  }

  /** The extension is matched whatever its case; only regular files qualify. */
  lemma JsonExtensionIgnoresCase(stem: string, extension: string, kind: EntryKind)
    requires Lower(extension) == JsonExtension
    ensures IsJsonFile(PathEntry(stem + extension, kind)) <==> kind == RegularFile
  {
    var p := stem + extension;
    assert Lower(p)[|p| - |JsonExtension|..] == Lower(extension);
  }

  lemma {:induction false} FindJsonFilesConcat(a: seq<PathEntry>, b: seq<PathEntry>)
    ensures FindJsonFiles(a + b) == FindJsonFiles(a) + FindJsonFiles(b)
    decreases |b|
  {
    if b != [] {
      var n := |b| - 1;
      assert (a + b)[..|a + b| - 1] == a + b[..n] && (a + b)[|a + b| - 1] == b[n];
      FindJsonFilesConcat(a, b[..n]);
    } else {
      assert a + b == a;
    }
  }

  lemma FindJsonFilesCons(e: PathEntry, rest: seq<PathEntry>)
    ensures FindJsonFiles([e] + rest) == (if IsJsonFile(e) then [e.path] else []) + FindJsonFiles(rest)
  {
    FindJsonFilesConcat([e], rest);
    assert [e][..0] == [];
  }

  /** A file whose extension differs, in any case, from the tail of ".json"
      at some position `i` is left out. */
  lemma OtherExtensionExcluded(stem: string, extension: string, kind: EntryKind, i: nat)
    requires i < |extension| <= |JsonExtension|
    requires LowerChar(extension[i]) != JsonExtension[|JsonExtension| - |extension| + i]
    ensures !IsJsonFile(PathEntry(stem + extension, kind))
  {
    var p := stem + extension;
    var n := |p| - |extension| + i;
    assert Lower(p)[n] == LowerChar(extension[i]);
    if |JsonExtension| <= |p| {
      assert Lower(p)[|p| - |JsonExtension|..][|JsonExtension| - |extension| + i] == Lower(p)[n];
    }
  }

  /** The directory of the discovery test, under any root: five JSON files
      in three directories, upper-case extensions among them, next to a text
      file, an XML file and four directories, none of which is picked. */
  function SampleTree(root: string): seq<PathEntry>
  {
    [
      PathEntry(root, Directory),
      PathEntry(root + "/order_root_1" + ".json", RegularFile),
      PathEntry(root + "/ignore" + ".txt", RegularFile),
      PathEntry(root + "/order_root_2" + ".JSON", RegularFile),
      PathEntry(root + "/data_x", Directory),
      PathEntry(root + "/data_x/order_a_1" + ".json", RegularFile),
      PathEntry(root + "/data_x/report" + ".xml", RegularFile),
      PathEntry(root + "/data_y", Directory),
      PathEntry(root + "/data_y/order_b_1" + ".json", RegularFile),
      PathEntry(root + "/data_y/order_b_2" + ".JSON", RegularFile),
      PathEntry(root + "/empty_dir", Directory)
    ]
  }

  lemma SampleTreeVerdicts(root: string)
    ensures IsJsonFile(SampleTree(root)[1]) && IsJsonFile(SampleTree(root)[3]) && IsJsonFile(SampleTree(root)[5])
    ensures IsJsonFile(SampleTree(root)[8]) && IsJsonFile(SampleTree(root)[9])
  {
    JsonExtensionIgnoresCase(root + "/order_root_1", ".json", RegularFile);
    JsonExtensionIgnoresCase(root + "/order_root_2", ".JSON", RegularFile);
    JsonExtensionIgnoresCase(root + "/data_x/order_a_1", ".json", RegularFile);
    JsonExtensionIgnoresCase(root + "/data_y/order_b_1", ".json", RegularFile);
    JsonExtensionIgnoresCase(root + "/data_y/order_b_2", ".JSON", RegularFile);
  }

  lemma SampleTreeOtherFiles(root: string)
    ensures !IsJsonFile(SampleTree(root)[2]) && !IsJsonFile(SampleTree(root)[6])
  {
    OtherExtensionExcluded(root + "/ignore", ".txt", RegularFile, 1);
    OtherExtensionExcluded(root + "/data_x/report", ".xml", RegularFile, 1);
  }

  /** The discovery test's tree: exactly its five JSON files are found, in
      walk order, upper-case extensions included. */
  lemma SampleTreeDiscovery(root: string)
    ensures FindJsonFiles(SampleTree(root)) == [
      root + "/order_root_1" + ".json", root + "/order_root_2" + ".JSON", root + "/data_x/order_a_1" + ".json",
      root + "/data_y/order_b_1" + ".json", root + "/data_y/order_b_2" + ".JSON"]
  {
    var t := SampleTree(root);
    SampleTreeVerdicts(root);
    SampleTreeOtherFiles(root);
    FindJsonFilesOfSample(t);
  }

  /** The walk of the sample tree, whatever the paths: the five entries that
      are JSON files are picked, in order. */
  lemma FindJsonFilesOfSample(t: seq<PathEntry>)
    requires |t| == 11 && !IsJsonFile(t[0]) && IsJsonFile(t[1]) && !IsJsonFile(t[2]) && IsJsonFile(t[3])
    requires t[4].kind == Directory && IsJsonFile(t[5]) && !IsJsonFile(t[6])
    requires t[7].kind == Directory && IsJsonFile(t[8]) && IsJsonFile(t[9]) && t[10].kind == Directory
    ensures FindJsonFiles(t) == [t[1].path, t[3].path, t[5].path, t[8].path, t[9].path]
  {
    assert t == t[..4] + t[4..];
    FindJsonFilesConcat(t[..4], t[4..]);
    FindJsonFilesPrefix(t);
    FindJsonFilesSuffix(t);
  }

  lemma FindJsonFilesPrefix(t: seq<PathEntry>)
    requires |t| == 11 && !IsJsonFile(t[0]) && IsJsonFile(t[1]) && !IsJsonFile(t[2]) && IsJsonFile(t[3])
    ensures FindJsonFiles(t[..4]) == [t[1].path, t[3].path]
  {
    FindJsonFilesCons(t[3], []);
    assert [t[3]] + [] == t[3..4];
    FindJsonFilesCons(t[2], t[3..4]);
    assert [t[2]] + t[3..4] == t[2..4];
    FindJsonFilesCons(t[1], t[2..4]);
    assert [t[1]] + t[2..4] == t[1..4];
    FindJsonFilesCons(t[0], t[1..4]);
    assert [t[0]] + t[1..4] == t[..4];
  }

  lemma FindJsonFilesSuffix(t: seq<PathEntry>)
    requires |t| == 11 && t[4].kind == Directory && IsJsonFile(t[5]) && !IsJsonFile(t[6])
    requires t[7].kind == Directory && IsJsonFile(t[8]) && IsJsonFile(t[9]) && t[10].kind == Directory
    ensures FindJsonFiles(t[4..]) == [t[5].path, t[8].path, t[9].path]
  {
    FindJsonFilesCons(t[10], []);
    assert [t[10]] + [] == t[10..];
    FindJsonFilesCons(t[9], t[10..]);
    assert [t[9]] + t[10..] == t[9..];
    FindJsonFilesCons(t[8], t[9..]);
    assert [t[8]] + t[9..] == t[8..];
    FindJsonFilesCons(t[7], t[8..]);
    assert [t[7]] + t[8..] == t[7..];
    FindJsonFilesCons(t[6], t[7..]);
    assert [t[6]] + t[7..] == t[6..];
    FindJsonFilesCons(t[5], t[6..]);
    assert [t[5]] + t[6..] == t[5..];
    FindJsonFilesCons(t[4], t[5..]);
    assert [t[4]] + t[5..] == t[4..];
  }

  // ---- Summing the per-file results ----

  /** The total of the counts of the tasks that succeeded; a failed task adds 0. */
  function SumSucceeded(results: seq<Result<nat, Error>>): nat
  {
    if results == [] then 0
    else
      var last := match results[|results| - 1] case Success(n) => n case Failure(_) => 0;
      SumSucceeded(results[..|results| - 1]) + last
  }

  lemma {:induction false} SumSucceededConcat(a: seq<Result<nat, Error>>, b: seq<Result<nat, Error>>)
    ensures SumSucceeded(a + b) == SumSucceeded(a) + SumSucceeded(b)
    decreases |b|
  {
    if b != [] {
      assert (a + b)[..|a + b| - 1] == a + b[..|b| - 1];
      SumSucceededConcat(a, b[..|b| - 1]);
    } else {
      assert a + b == a;
    }
  }

  /** A failed task contributes nothing and does not keep the others from
      being summed. */
  lemma FailedTaskAddsNothing(a: seq<Result<nat, Error>>, e: Error, b: seq<Result<nat, Error>>)
    ensures SumSucceeded(a + [Failure(e)] + b) == SumSucceeded(a + b)
  {
    SumSucceededConcat(a + [Failure(e)], b);
    SumSucceededConcat(a, [Failure(e)]);
    SumSucceededConcat(a, b);
    assert SumSucceeded([Failure(e)]) == SumSucceeded([]) + 0;
  }

  /** The line "Orders processed: n", which is printed only for a nonzero total. */
  function PrintedTotal(results: seq<Result<nat, Error>>): Option<nat>
  {
    if SumSucceeded(results) != 0 then Some(SumSucceeded(results)) else None
  }

  // ---- Processing all files ----

  /** The table after the processors ran, and each processor's result. */
  datatype Processing = Processing(table: Table, results: seq<Result<nat, Error>>)

  /** The processors of `files` run one after another over one counter. */
  function ProcessFilesSpec(t: Table, files: seq<string>, decode: string -> OrderStream, attributeName: string): (p: Processing)
    ensures |p.results| == |files|
    decreases |files|
  {
    if files == [] then Processing(t, [])
    else
      var previous := ProcessFilesSpec(t, files[..|files| - 1], decode, attributeName);
      var last := CallSpec(previous.table, decode(files[|files| - 1]), attributeName);
      Processing(last.table, previous.results + [last.result])
  }

  /** The values one file adds to the counter: those before its first rejected value. */
  function FileValues(input: OrderStream, attributeName: string): seq<string>
  {
    AcceptedPrefix(AllItems(input.orders, attributeName))
  }

  function AllFileValues(files: seq<string>, decode: string -> OrderStream, attributeName: string): seq<string>
    decreases |files|
  {
    if files == [] then []
    else AllFileValues(files[..|files| - 1], decode, attributeName) + FileValues(decode(files[|files| - 1]), attributeName)
  }

  /** The result of a file's processor depends on that file alone, not on the
      table it finds nor on other files. */
  lemma CallResultIndependentOfTable(t1: Table, t2: Table, input: OrderStream, attributeName: string)
    ensures CallSpec(t1, input, attributeName).result == CallSpec(t2, input, attributeName).result
  {
    var items := AllItems(input.orders, attributeName);
    ApplyItemsMeaning(t1, items);
    ApplyItemsMeaning(t2, items);
  }

  lemma {:induction false} ProcessFilesTable(t: Table, files: seq<string>, decode: string -> OrderStream, attributeName: string)
    ensures ProcessFilesSpec(t, files, decode, attributeName).table == AddAll(t, AllFileValues(files, decode, attributeName))
    decreases |files|
  {
    if files != [] {
      var init := files[..|files| - 1];
      var previous := ProcessFilesSpec(t, init, decode, attributeName);
      ProcessFilesTable(t, init, decode, attributeName);
      var input := decode(files[|files| - 1]);
      CallKeepsEarlierIncrements(previous.table, input, attributeName);
      AddAllConcat(t, AllFileValues(init, decode, attributeName), FileValues(input, attributeName));
    }
  }

  lemma {:induction false} ProcessFilesResults(t: Table, files: seq<string>, decode: string -> OrderStream, attributeName: string)
    ensures forall i :: 0 <= i < |files| ==>
      ProcessFilesSpec(t, files, decode, attributeName).results[i] == CallSpec(map[], decode(files[i]), attributeName).result
    decreases |files|
  {
    if files != [] {
      var init := files[..|files| - 1];
      var previous := ProcessFilesSpec(t, init, decode, attributeName);
      ProcessFilesResults(t, init, decode, attributeName);
      var last := files[|files| - 1];
      CallResultIndependentOfTable(previous.table, map[], decode(last), attributeName);
      var results := ProcessFilesSpec(t, files, decode, attributeName).results;
      assert results == previous.results + [CallSpec(previous.table, decode(last), attributeName).result];
      forall i | 0 <= i < |files|
        ensures results[i] == CallSpec(map[], decode(files[i]), attributeName).result
      {
        if i < |init| {
          assert results[i] == previous.results[i] && files[i] == init[i];
        }
      }
    }
  }

  /** After all processors ran, the table holds the values each file
      contributed, and each result is that file's own result. */
  lemma ProcessFilesMeaning(t: Table, files: seq<string>, decode: string -> OrderStream, attributeName: string)
    ensures ProcessFilesSpec(t, files, decode, attributeName).table == AddAll(t, AllFileValues(files, decode, attributeName))
    ensures forall i :: 0 <= i < |files| ==>
      ProcessFilesSpec(t, files, decode, attributeName).results[i] == CallSpec(map[], decode(files[i]), attributeName).result
  {
    ProcessFilesTable(t, files, decode, attributeName);
    ProcessFilesResults(t, files, decode, attributeName);
  }

  /** Lemma used below: the values of a list of files, split anywhere. */
  lemma {:induction false} AllFileValuesConcat(a: seq<string>, b: seq<string>, decode: string -> OrderStream, attributeName: string)
    ensures AllFileValues(a + b, decode, attributeName) == AllFileValues(a, decode, attributeName) + AllFileValues(b, decode, attributeName)
    decreases |b|
  {
    if b != [] {
      assert (a + b)[..|a + b| - 1] == a + b[..|b| - 1];
      AllFileValuesConcat(a, b[..|b| - 1], decode, attributeName);
    } else {
      assert a + b == a;
    }
  }

  lemma AllFileValuesAround(p: seq<string>, x: string, q: seq<string>, decode: string -> OrderStream, attributeName: string)
    ensures AllFileValues(p + [x] + q, decode, attributeName) ==
      AllFileValues(p, decode, attributeName) + FileValues(decode(x), attributeName) + AllFileValues(q, decode, attributeName)
  {
    assert AllFileValues([x], decode, attributeName) == FileValues(decode(x), attributeName) by {
      assert [x][..0] == [];
    }
    AllFileValuesConcat(p + [x], q, decode, attributeName);
    AllFileValuesConcat(p, [x], decode, attributeName);
  }

  /** Taking the same element out of two equal multisets. */
  lemma RemoveOccurrence<T>(init: seq<T>, x: T, p: seq<T>, q: seq<T>)
    requires multiset(init + [x]) == multiset(p + [x] + q)
    ensures multiset(p + q) == multiset(init)
  {
    forall y ensures multiset(p + q)[y] == multiset(init)[y] {
      assert multiset(init + [x])[y] == multiset(init)[y] + multiset{x}[y];
      assert multiset(p + [x] + q)[y] == multiset(p)[y] + multiset{x}[y] + multiset(q)[y];
      assert multiset(p + q)[y] == multiset(p)[y] + multiset(q)[y];
    }
  }

  /** The values of the files depend on which files there are, not on their order. */
  lemma {:induction false} AllFileValuesPermutation(f1: seq<string>, f2: seq<string>, decode: string -> OrderStream, attributeName: string)
    requires multiset(f1) == multiset(f2)
    ensures multiset(AllFileValues(f1, decode, attributeName)) == multiset(AllFileValues(f2, decode, attributeName))
    decreases |f1|
  {
    if f1 == [] {
      assert |multiset(f2)| == |f2|;
    } else {
      var x := f1[|f1| - 1];
      var init := f1[..|f1| - 1];
      assert f1 == init + [x];
      assert x in multiset(f2);
      var j :| 0 <= j < |f2| && f2[j] == x;
      var p, q := f2[..j], f2[j + 1..];
      assert f2 == p + [x] + q;
      RemoveOccurrence(init, x, p, q);
      AllFileValuesPermutation(init, p + q, decode, attributeName);
      var vx := FileValues(decode(x), attributeName);
      var vp, vq := AllFileValues(p, decode, attributeName), AllFileValues(q, decode, attributeName);
      assert AllFileValues(f1, decode, attributeName) == AllFileValues(init, decode, attributeName) + vx;
      AllFileValuesAround(p, x, q, decode, attributeName);
      AllFileValuesConcat(p, q, decode, attributeName);
      assert multiset(vp + vx + vq) == multiset(vp + vq) + multiset(vx);
    }
  }

  /** Whatever order the worker pool happens to run the files in, the final
      table is the same: it depends only on which files were found. */
  lemma FileOrderIrrelevant(t: Table, f1: seq<string>, f2: seq<string>, decode: string -> OrderStream, attributeName: string)
    requires multiset(f1) == multiset(f2)
    ensures ProcessFilesSpec(t, f1, decode, attributeName).table == ProcessFilesSpec(t, f2, decode, attributeName).table
  {
    ProcessFilesMeaning(t, f1, decode, attributeName);
    ProcessFilesMeaning(t, f2, decode, attributeName);
    AllFileValuesPermutation(f1, f2, decode, attributeName);
    AddAllPermutation(t, AllFileValues(f1, decode, attributeName), AllFileValues(f2, decode, attributeName));
  }

  // ---- The run ----

  /** The arguments of XmlReporterService.createReport. */
  datatype Report = Report(statistics: seq<Entry>, attributeName: string)

  /** What a completed run produces: the "Orders processed" line, if printed,
      and the report. */
  datatype RunOutput = RunOutput(ordersProcessed: Option<nat>, report: Report)

  class ApplicationRunner {
    const config: ApplicationConfig
    const statisticService: StatisticCalculatorService

    constructor (config: ApplicationConfig)
      ensures this.config == config
      ensures fresh(statisticService) && statisticService.attributeCountStatistic == map[]
    {
      this.config := config;
      this.statisticService := new StatisticCalculatorService();
    }

    /** run(): `walk` is what Files.walk gives for the input directory
        (`None` when it throws an IOException, which findJsonFiles rethrows
        wrapped in a RuntimeException) and `decode` what the decoder yields
        for each file. No JSON file is an
        IllegalArgumentException before anything is processed; otherwise one
        processor runs per file, and the report receives the snapshot of the
        table once they have all finished. */
    method Run(walk: Option<seq<PathEntry>>, decode: string -> OrderStream) returns (r: Result<RunOutput, Error>)
      modifies statisticService
      ensures walk.None? ==>
        r == Failure(WalkFailed) && statisticService.attributeCountStatistic == old(statisticService.attributeCountStatistic)
      ensures walk.Some? && FindJsonFiles(walk.value) == [] ==>
        r == Failure(IllegalArgument(NoJsonFilesMessage)) &&
        statisticService.attributeCountStatistic == old(statisticService.attributeCountStatistic)
      ensures walk.Some? && FindJsonFiles(walk.value) != [] ==>
        var p := ProcessFilesSpec(old(statisticService.attributeCountStatistic), FindJsonFiles(walk.value), decode, config.attributeName);
        statisticService.attributeCountStatistic == p.table &&
        r == Success(RunOutput(PrintedTotal(p.results), Report(Snapshot(p.table), config.attributeName)))
    {
      if walk.None? {
        return Failure(WalkFailed);
      }
      var jsonFiles := FindJsonFiles(walk.value);
      if jsonFiles == [] {
        return Failure(IllegalArgument(NoJsonFilesMessage));
      }
      var printed := ProcessJsonFiles(jsonFiles, decode);
      var report := Report(statisticService.GetStatisticSortedByCountThenByName(), config.attributeName);
      r := Success(RunOutput(printed, report));
    }

    /** processJsonFiles: one processor per file, each one's result
        collected in file order, then the total printed. */
    method ProcessJsonFiles(jsonFiles: seq<string>, decode: string -> OrderStream) returns (printed: Option<nat>)
      modifies statisticService
      ensures var p := ProcessFilesSpec(old(statisticService.attributeCountStatistic), jsonFiles, decode, config.attributeName);
        statisticService.attributeCountStatistic == p.table && printed == PrintedTotal(p.results)
    {
      ghost var t0 := statisticService.attributeCountStatistic;
      var futures: seq<Result<nat, Error>> := [];
      var i := 0;
      while i < |jsonFiles|
        invariant 0 <= i <= |jsonFiles|
        invariant ProcessFilesSpec(t0, jsonFiles[..i], decode, config.attributeName) ==
          Processing(statisticService.attributeCountStatistic, futures)
      {
        assert jsonFiles[..i + 1][..i] == jsonFiles[..i];
        var processor := new JsonFileProcessor(config, jsonFiles[i], statisticService);
        var result := processor.Call(decode(jsonFiles[i]));
        futures := futures + [result];
        i := i + 1;
      }
      assert jsonFiles[..i] == jsonFiles;
      printed := PrintProcessedOrdersSum(futures);
    }

    /** printProcessedOrdersSum: adds up the counts of the tasks that
        succeeded, skipping the failed ones, and prints a nonzero total. */
    static method PrintProcessedOrdersSum(futures: seq<Result<nat, Error>>) returns (printed: Option<nat>)
      ensures printed == PrintedTotal(futures)
      ensures printed.Some? ==> printed.value > 0
    {
      var sum := 0;
      for i := 0 to |futures|
        invariant sum == SumSucceeded(futures[..i])
      {
        assert futures[..i + 1][..i] == futures[..i];
        match futures[i]
        case Success(n) => sum := sum + n;
        case Failure(_) =>
      }
      assert futures[..|futures|] == futures;
      printed := if sum != 0 then Some(sum) else None;
    }
  }
}
