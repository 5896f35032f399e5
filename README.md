# Attribute-frequency pipeline of json-statistics-processor, in Dafny

The Java program walks a directory tree and picks out the `.json` files. It decodes
the burger orders in each file and counts how often one selected attribute occurs:
a burger name, an ingredient name or an ingredient unit price. Then it prints the
total number of orders processed and hands a snapshot of the counts to an XML
report, sorted by count (descending) and then by value (ascending).

This project models that pipeline one Java file per module:

- `Strings` (`strings.dfy`): the `java.lang` behaviour the pipeline relies on.
  That is `Character.isWhitespace` and `String.isBlank`, lower-casing,
  `endsWith`, and `String.compareTo` as a lexicographic order `StrLess`. Dafny's
  own `<` on strings means "proper prefix", so it is not used.
- `Model` (`model.dfy`): the records `Order`, `Burger` and `Ingredient`, whose
  `equals` and `hashCode` look at the identifier only. A `UUID` is its two
  64-bit halves, which `hashCode` folds as `UUID.hashCode` does. An `Instant`
  is its seconds and nanoseconds and plays no part in the pipeline. `BigDecimal`
  is opaque. A price is represented by the text
  `BigDecimal.toString` gives for it. A Java `null` field, list or list element is `None`.
- `Config` (`config.dfy`): `ApplicationConfig`. It holds the closed list of
  attribute names and the `statistic` directory name (the constant
  `StatisticDirectoryName`). It also builds the `statistic_by_<attribute>.xml`
  file name.
- `App` (`app.dfy`): `App.parseArguments`.
- `Statistics` (`statistics.dfy`): `StatisticCalculatorService` as a class. Its
  `map<string, nat>` field is updated in place by the guarded increment. The
  sorted snapshot is the pure function `Snapshot`.
- `Processor` (`processor.dfy`): `JsonFileProcessor` as a class whose `Call` and
  `ProcessOrder` loop over orders and extracted values. They are proved against
  the pure specification `CallSpec`.
- `Runner` (`runner.dfy`): `ApplicationRunner`. It holds the JSON-file filter,
  the "no JSON files" error and the per-file processing, run here as a
  sequential loop. It also holds the sum of the successful results and the
  report hand-off.
- `Exceptions` and `Wrappers`: the Java exceptions as values; `Option`,
  `Result` and `Outcome` (the result of a `void` call that may throw).

The I/O boundaries are parameters. `Run` receives what `Files.walk` reports
for the input directory: a list of path entries, or `None` when the walk
throws. It also
receives a function `decode` giving, for each file, the orders the Jackson
decoder yields. Those orders may end in a malformed record.

## Behaviour worth knowing

- A blank extracted value is not skipped. `incrementAttributeCount` throws, the
  exception leaves `processOrder` and `call()`, and that file's task fails. Its
  earlier increments stay in the table and its order count is lost from the
  printed total.
- A null burger list, a null burger, a null ingredient list, a null ingredient
  or a null unit price throws `NullPointerException` when the stream reaches it,
  with the same effect: earlier increments stay and the file's task fails.
- Zero JSON files raises `IllegalArgumentException("Json files in directory are
  required")`. A walk failure is the `IOException` wrapped in a
  `RuntimeException`; there is no separate "directory not found" check.
- A price is counted as whatever `BigDecimal.toString` yields, which may be
  scientific notation.

## Model

| member | source | states |
|---|---|---|
| `Strings.StrLessIsLexicographic` | src/main/java/com/fransua/service/StatisticCalculatorService.java:23 | `StrLess` (the key comparator) holds exactly when a is a proper prefix of b or has the smaller character at the first difference |
| `Strings.StrLessTotal` | src/main/java/com/fransua/service/StatisticCalculatorService.java:23 | two distinct strings are always ordered one way or the other |
| `Strings.StrLessTransitive` | src/main/java/com/fransua/service/StatisticCalculatorService.java:23 | the key order is transitive |
| `Strings.Lower` | src/main/java/com/fransua/ApplicationRunner.java:72 | lower-casing keeps the length and maps each character by itself |
| `Statistics.Incremented` | src/main/java/com/fransua/service/StatisticCalculatorService.java:17 | `merge(k, 1, Integer::sum)`: k's count becomes its old count plus 1 (1 if absent), k becomes a key, every other key keeps its count |
| `Statistics.StatisticCalculatorService.constructor` | src/main/java/com/fransua/service/StatisticCalculatorService.java:11 | a new counter has an empty table |
| `Statistics.StatisticCalculatorService.IncrementAttributeCount` | src/main/java/com/fransua/service/StatisticCalculatorService.java:13-18 | a null, empty or whitespace-only name throws `IllegalArgumentException` and leaves the table unchanged; any other name is incremented |
| `Statistics.AddAllCounts` | src/main/java/com/fransua/service/StatisticCalculatorService.java:11-18 | after a run of increments each key's count is its old count plus its number of occurrences; keys are only added, never removed |
| `Statistics.AddAllPermutation` | src/main/java/com/fransua/service/StatisticCalculatorService.java:11-18 | the final table depends only on how often each name was incremented, not on the order of the increments |
| `Statistics.AddAllCommutes` | src/main/java/com/fransua/service/StatisticCalculatorService.java:11-18 | two runs of increments give the same table in either order |
| `Statistics.RepeatedIncrements` | src/test/java/com/fransua/StatisticCalculatorServiceTest.java:116-139 | N increments of one name from an empty table give exactly that one key with count N |
| `Statistics.BeforeTransitive` | src/main/java/com/fransua/service/StatisticCalculatorService.java:21-23 | the report order (count descending, then value ascending) is transitive |
| `Statistics.BeforeTotal` | src/main/java/com/fransua/service/StatisticCalculatorService.java:21-23 | the report order ranks any two entries with distinct values |
| `Statistics.Snapshot` | src/main/java/com/fransua/service/StatisticCalculatorService.java:20-29 | the snapshot has one entry per key, each entry is a (key, count) pair of the table, every pair appears, and the sequence is in report order; an empty table gives an empty snapshot |
| `Statistics.StatisticCalculatorService.GetStatisticSortedByCountThenByName` | src/main/java/com/fransua/service/StatisticCalculatorService.java:20-29 | reads the table without changing it and returns exactly its pairs, each once, in report order |
| `Statistics.SortedArrangementUnique` | src/main/java/com/fransua/service/StatisticCalculatorService.java:21-28 | two sorted sequences holding the same pairs are equal, so the snapshot is deterministic |
| `Statistics.SnapshotCharacterized` | src/main/java/com/fransua/service/StatisticCalculatorService.java:21-28 | any sorted sequence holding exactly the table's pairs is the snapshot |
| `Statistics.SnapshotByCountDescending` | src/test/java/com/fransua/StatisticCalculatorServiceTest.java:72-89 | {A:1, B:3, C:2} is reported as B, C, A |
| `Statistics.SnapshotTiesByValueAscending` | src/test/java/com/fransua/StatisticCalculatorServiceTest.java:91-108 | {B:1, C:2, A:2} is reported as A, C, B |
| `Model.PriceToString` | src/main/java/com/fransua/processor/JsonFileProcessor.java:52 | the text of a price is never blank |
| `Model.OrderEqualsIffSameId` | src/main/java/com/fransua/model/Order.java:20-26 | two orders are equal iff their ids are equal (two null ids included); createdAt and burgers play no part |
| `Model.OrderNeverEqualsNullOrOtherClass` | src/main/java/com/fransua/model/Order.java:21-23 | an order never equals null or an object of another class |
| `Model.OrderEqualsIsEquivalence` | src/main/java/com/fransua/model/Order.java:20-26 | order equality is reflexive, symmetric and transitive |
| `Model.OrderHashConsistent` | src/main/java/com/fransua/model/Order.java:28-31 | equal orders have equal hash codes |
| `Model.BurgerEqualsIffSameId` | src/main/java/com/fransua/model/Burger.java:19-25 | two burgers are equal iff their ids are equal; name and ingredients play no part |
| `Model.BurgerNeverEqualsNullOrOtherClass` | src/main/java/com/fransua/model/Burger.java:20-22 | a burger never equals null or an object of another class |
| `Model.BurgerEqualsIsEquivalence` | src/main/java/com/fransua/model/Burger.java:19-25 | burger equality is reflexive, symmetric and transitive |
| `Model.BurgerHashConsistent` | src/main/java/com/fransua/model/Burger.java:27-30 | equal burgers have equal hash codes |
| `Model.IngredientEqualsIffSameId` | src/main/java/com/fransua/model/Ingredient.java:19-25 | two ingredients are equal iff their ids are equal; name and unitPrice play no part |
| `Model.IngredientNeverEqualsNullOrOtherClass` | src/main/java/com/fransua/model/Ingredient.java:20-22 | an ingredient never equals null or an object of another class |
| `Model.IngredientEqualsIsEquivalence` | src/main/java/com/fransua/model/Ingredient.java:19-25 | ingredient equality is reflexive, symmetric and transitive |
| `Model.IngredientHashConsistent` | src/main/java/com/fransua/model/Ingredient.java:27-30 | equal ingredients have equal hash codes |
| `Model.NullIdHashesToZero` | src/main/java/com/fransua/model/Order.java:28-31 | a record with a null id hashes to 0, as `Objects.hashCode(null)` does |
| `Config.AvailableAttributeNames` | src/main/java/com/fransua/config/ApplicationConfig.java:17-19 | exactly `burger-name`, `ingredient-name`, `ingredient-price`, in that order, distinct, lower-case and non-blank |
| `Config.GetStatisticFileNameFor` | src/main/java/com/fransua/config/ApplicationConfig.java:25-27 | the file name starts with `statistic_by_`, ends with `.xml` and holds the attribute name between them |
| `Config.StatisticFileNameRoundTrip` | src/main/java/com/fransua/config/ApplicationConfig.java:25-27 | removing the prefix and suffix from the file name gives back the attribute name |
| `Config.StatisticFileNameInjective` | src/main/java/com/fransua/config/ApplicationConfig.java:25-27 | distinct attribute names give distinct file names |
| `App.ParseArguments` | src/main/java/com/fransua/App.java:32-43 | fewer than 2 arguments, or a second argument not exactly one of the available names, fail with `IllegalArgumentException`; otherwise the input directory is `args[0]` read as a path and the attribute name is `args[1]` unchanged |
| `App.ExtraArgumentsIgnored` | src/main/java/com/fransua/App.java:33-42 | arguments after the second change nothing |
| `App.AttributeNameIsCaseSensitive` | src/main/java/com/fransua/App.java:37-41 | an attribute name containing an upper-case letter is refused |
| `App.ParsedAttributeIsLowerCase` | src/main/java/com/fransua/App.java:37-41 | an accepted attribute name is its own lower-case form |
| `Processor.ExtractSelects` | src/main/java/com/fransua/processor/JsonFileProcessor.java:34-56 | whatever the ASCII case of the name (under a default locale that lower-cases ASCII capitals to ASCII), `burger-name` gives one value per burger in order, `ingredient-name` the ingredient names flattened burger by burger, `ingredient-price` the price texts in the same order; for these three a null burger list throws at once; any other name gives nothing |
| `Processor.NullIngredientKeepsEarlierValues` | src/main/java/com/fransua/processor/JsonFileProcessor.java:41-54 | under `ingredient-name` or `ingredient-price`, a null at flattened position m (a null burger or ingredient list, a null ingredient, or for prices a null unit price) ends the order with `NullPointerException` after exactly the m earlier values have been counted |
| `Processor.NullBurgerPosition` | src/main/java/com/fransua/processor/JsonFileProcessor.java:42-43 | a null burger, or one with a null ingredient list, throws in the flattened stream right after the ingredients of the burgers before it |
| `Processor.NullBurgerKeepsEarlierNames` | src/main/java/com/fransua/processor/JsonFileProcessor.java:36-39 | under `burger-name`, a null burger at position n ends the order with `NullPointerException` after exactly the names of the n burgers before it have been counted |
| `Processor.IngredientPosition` | src/main/java/com/fransua/processor/JsonFileProcessor.java:42-44 | ingredient j of burger n sits right after all ingredients of the burgers before n |
| `Processor.AcceptedPrefix` | src/main/java/com/fransua/service/StatisticCalculatorService.java:14-17 | the values counted before the first rejected one: each is accepted, and the next one, if any, is rejected |
| `Processor.ApplyItemsMeaning` | src/main/java/com/fransua/processor/JsonFileProcessor.java:37-54 | feeding values to the counter adds exactly the accepted prefix, and fails, with that value's exception, exactly when some value is rejected |
| `Processor.CallSucceedsIff` | src/main/java/com/fransua/processor/JsonFileProcessor.java:19-31 | `call()` returns a count iff the file decodes fully and every value is accepted, and the count is the number of orders |
| `Processor.CallKeepsEarlierIncrements` | src/main/java/com/fransua/processor/JsonFileProcessor.java:23-28 | whatever the outcome, the increments made before the exception stay in the counter |
| `Processor.DecodeFailureAfterOrders` | src/main/java/com/fransua/processor/JsonFileProcessor.java:23-29 | a decode failure after k good orders fails the call and leaves exactly those orders' increments |
| `Processor.UnknownAttributeOnlyCountsOrders` | src/main/java/com/fransua/processor/JsonFileProcessor.java:35-55 | an unrecognised attribute name makes no increment, yet the orders are counted |
| `Processor.OrdersWithoutBurgersAreCounted` | src/main/java/com/fransua/processor/JsonFileProcessor.java:24-27 | orders with no burgers add nothing to the table but are counted |
| `Processor.JsonFileProcessor.constructor` | src/main/java/com/fransua/processor/JsonFileProcessor.java:13-16 | the processor holds its config, file and shared counter |
| `Processor.JsonFileProcessor.ProcessOrder` | src/main/java/com/fransua/processor/JsonFileProcessor.java:34-56 | the order's values go to the counter in turn until one throws; the new table and the outcome are those of the specification fold |
| `Processor.JsonFileProcessor.Call` | src/main/java/com/fransua/processor/JsonFileProcessor.java:18-32 | the loop over the decoded orders leaves the table and returns the result that `CallSpec` gives |
| `Runner.FindJsonFiles` | src/main/java/com/fransua/ApplicationRunner.java:68-78 | never more files than walked entries, and every returned path is that of a walked regular file whose lower-cased path ends in `.json` |
| `Runner.FindJsonFilesOneForOne` | src/main/java/com/fransua/ApplicationRunner.java:68-78 | each JSON entry of the walk gives exactly one file, in walk order, and no other entry gives one; so a path is found iff some walked regular file has it and its lower-cased form ends in `.json` |
| `Runner.JsonExtensionIgnoresCase` | src/main/java/com/fransua/ApplicationRunner.java:71-72 | a path with an extension that lower-cases to `.json` qualifies iff it is a regular file |
| `Runner.OtherExtensionExcluded` | src/main/java/com/fransua/ApplicationRunner.java:72 | a path whose extension differs from `.json` in some character, in any case, is excluded |
| `Runner.SampleTreeDiscovery` | src/test/java/com/fransua/ApplicationRunnerTest.java:23-70 | in the test's tree exactly the five JSON files are found, `.JSON` ones included; `ignore.txt`, `report.xml` and the directories are not |
| `Runner.FailedTaskAddsNothing` | src/main/java/com/fransua/ApplicationRunner.java:54-62 | a failed task adds nothing to the total and does not stop the other results from being summed |
| `Runner.ProcessFilesSpec` | src/main/java/com/fransua/ApplicationRunner.java:41-48 | exactly one result per file |
| `Runner.CallResultIndependentOfTable` | src/main/java/com/fransua/ApplicationRunner.java:44-47 | a file's result depends on that file alone, not on what other files put in the counter |
| `Runner.ProcessFilesMeaning` | src/main/java/com/fransua/ApplicationRunner.java:41-52 | after all files, the table holds the values each file contributed and each result is that file's own |
| `Runner.FileOrderIrrelevant` | src/main/java/com/fransua/ApplicationRunner.java:41-48 | whatever order the files are processed in, the final table is the same |
| `Runner.ApplicationRunner.constructor` | src/main/java/com/fransua/ApplicationRunner.java:24-27 | a runner starts with a fresh, empty counter |
| `Runner.ApplicationRunner.Run` | src/main/java/com/fransua/ApplicationRunner.java:29-39 | a walk failure (the wrapped `IOException` of lines 75-76) or zero JSON files fails before any increment; otherwise every file is processed and the report receives the snapshot of the final table |
| `Runner.ApplicationRunner.ProcessJsonFiles` | src/main/java/com/fransua/ApplicationRunner.java:41-52 | one processor per file in turn; the table and the printed total are those of the specification |
| `Runner.ApplicationRunner.PrintProcessedOrdersSum` | src/main/java/com/fransua/ApplicationRunner.java:54-66 | the total of the successful results, printed only when nonzero |

## Left out

- Concurrency. The cached thread pool, `Future.get`, `InterruptedException` and the atomicity of `ConcurrentHashMap` are not modelled. The files are processed one after the other. The thread-safety test becomes "N sequential increments give N" (`RepeatedIncrements`). `FileOrderIrrelevant` covers any order in which the pool runs whole files. Increments of different files interleaved with one another are covered by `AddAllPermutation` (the table depends only on the multiset of counted values) together with `CallResultIndependentOfTable` (what a file counts and returns does not depend on the table it finds).
- Jackson decoding. What the decoder yields for a file is given as `OrderStream`: a list of orders and whether a malformed record follows them. Exceptions from opening the file count as a malformed stream.
- Filesystem traversal. `Files.walk` and `Files.isRegularFile` are replaced by a given list of path entries, or `None` when the walk throws.
- `XmlReporterService` is not part of this model. `Run` returns the arguments it would receive: the sorted snapshot and the attribute name.
- App.ParseArguments: `Path.of(args[0])` is not modelled. It throws `InvalidPathException` (an `IllegalArgumentException`) for a string that is not a valid path, before the attribute check, and it normalises the path (`a//b/` becomes `a/b`). The model keeps `args[0]` as the directory's path text and accepts every string.
- The stderr line `printProcessedOrdersSum` writes for each failed task. A failed task is modelled only by its contributing 0 to the total.
- `App.main`. Its timing, printing and exception dispatch are I/O. Its `finally` block reads `args[1]` even when fewer than two arguments were given, and would then throw.
- The records' `toString` methods, and `BigDecimal.toString` itself. A price carries its text, which is known only to be non-blank and to start with a digit or a minus sign.
- Java `int` overflow of counts and of the summed total. Counts are unbounded `nat`s.
- Strings.Lower: lower-cases ASCII letters only. `toLowerCase(Locale.ROOT)` in `findJsonFiles` handles all of Unicode.
- Processor.ExtractSelects: `processOrder` lower-cases the attribute name with the JVM's default locale. The model assumes a locale in which ASCII capitals lower-case as `LowerChar` does and no other character lower-cases to ASCII. Under a Turkish or Azeri locale `I` becomes dotless `ı`, so `INGREDIENT-NAME` selects nothing in Java but ingredient names in the model. Configurations built by `App.ParseArguments` are unaffected: it admits only the three lower-case names, which every locale leaves unchanged (`App.ParsedAttributeIsLowerCase`).
- Processor.UnknownAttributeOnlyCountsOrders: for the same reason, under a Turkish or Azeri default locale `İNGREDİENT-NAME` lower-cases to `ingredient-name` in Java and selects ingredient names, while the model treats it as unknown. Configurations built by `App.ParseArguments` never hold such a name.
- Strings.StrLess: compares characters by code point. `String.compareTo` compares UTF-16 code units, which can order characters outside the Basic Multilingual Plane differently.
