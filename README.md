# Range partitioner of the Spring Batch CSV jobs

This project models the range partitioner of the Spring Batch sample. The
partitioned step splits an input file of `lines` lines into `gridSize`
line ranges. Each range goes into its own step execution context as
`fromLine` (inclusive) and `toLine` (exclusive), keyed `"partition1"` …
`"partition<gridSize>"`. Every range but the last spans `lines / gridSize`
lines, the last one also takes the remainder `lines % gridSize`, and each
range starts where the previous one ended.

The repository has two nearly identical copies of this algorithm:
the `partitioner` bean of `CsvPartitionProcessConfiguration` and the
`partitioner` bean of `JobConfig`. The second one also calls
`calculateBuckets`, which only logs. Both are modelled as Dafny methods that
keep the source's counter-updating `for` loop and its in-place `put` into a
map. Each method is proved to return what one closed-form specification
function, `Partitioning.Partitions`, says. The lemmas about that function
state the partitioner's properties:
- the key set and the size of the map;
- where each range starts and ends;
- contiguity;
- remainder placement;
- exact, disjoint coverage of `[0, lines)`;
- that every stored value fits a Java `int`.

Modules:
- `Decimal`: the decimal text of `"partition" + i`, with its parser and the round trip that makes the keys distinct.
- `JavaInt`: the Java `int` range and its wrap-around (`Wrap32`). The loops do their `int` arithmetic through it.
- `Partitioning`: the execution context, the result type, the closed-form specification and its lemmas.
- `CsvPartitionProcessConfiguration`: the partitioned CSV job's partitioner lambda.
- `JobConfig`: the simple job's partitioner lambda and `calculateBuckets`, plus a client showing that the two partitioners agree.
- `CsvPartitionProcessConfigurationTest`: the 59507-lines / 5-partitions test case.

Modelling decisions:
- The line count is a parameter. Counting the lines of the file is I/O.
- A grid size of 0 gives `Err(ArithmeticException)`, because `lines / gridSize` throws. A negative grid size gives an empty map, because the loop is never entered.
- Dafny's `/` and `%` agree with Java's here, because the dividend `lines` is never negative.
- Spring's `ExecutionContext` is a string-keyed map of objects. It is modelled as a record holding the two integers the partitioner puts into it.
- Both bounds are stored with `putInt` (32-bit), and the partition id is only the map key, so `ExecutionContext` holds two Java `int`s.

## Model

| member | source | states |
|---|---|---|
| `Decimal.NatToString` | src/main/java/com/apirus/springbatch/config/CsvPartitionProcessConfiguration.java:169 | the text appended to `"partition"` is a non-empty string of decimal digits without a leading zero (except for 0 itself), one digit long exactly for numbers below 10 |
| `Decimal.ParseNatToString` | src/main/java/com/apirus/springbatch/config/CsvPartitionProcessConfiguration.java:169 | reading the decimal text of `n` back gives `n` (round trip) |
| `Decimal.NatToStringInjective` | src/main/java/com/apirus/springbatch/config/CsvPartitionProcessConfiguration.java:169 | distinct numbers have distinct decimal texts |
| `JavaInt.Wrap32` | src/main/java/com/apirus/springbatch/config/CsvPartitionProcessConfiguration.java:162-168 | the stored `int` is in the 32-bit range, congruent to the exact value modulo 2^32, and equal to it when it fits |
| `Partitioning.Key` | src/main/java/com/apirus/springbatch/config/CsvPartitionProcessConfiguration.java:169 | every partition key begins with `"partition"` and continues with one or more decimal digits |
| `Partitioning.KeyInjective` | src/main/java/com/apirus/springbatch/config/CsvPartitionProcessConfiguration.java:169 | `"partition" + i` and `"partition" + j` are equal only when `i == j`, so no `put` overwrites an earlier partition |
| `Partitioning.Partitions` | src/main/java/com/apirus/springbatch/config/CsvPartitionProcessConfiguration.java:155-160 | the partitioner fails exactly when `gridSize` is 0 (division by zero), and a negative `gridSize` yields an empty map |
| `Partitioning.KeysUpTo` | src/main/java/com/apirus/springbatch/config/CsvPartitionProcessConfiguration.java:160-169 | after steps `1..n` the map's keys are exactly `"partition1"` … `"partition<n>"` |
| `Partitioning.LookupUpTo` | src/main/java/com/apirus/springbatch/config/CsvPartitionProcessConfiguration.java:160-169 | after steps `1..n` each key `"partition<k>"`, `k <= n`, still holds the range put at step `k` |
| `Partitioning.SizeUpTo` | src/main/java/com/apirus/springbatch/config/CsvPartitionProcessConfiguration.java:160-169 | after steps `1..n` the map has exactly `n` entries |
| `Partitioning.StepArithmetic` | src/main/java/com/apirus/springbatch/config/CsvPartitionProcessConfiguration.java:155-168 | at step `i` the counters stay within `[0, lines]`, `toLine += range` moves one range on, and adding `remains` at the last step reaches `lines` |
| `Partitioning.PartitionKeys` | src/main/java/com/apirus/springbatch/config/CsvPartitionProcessConfiguration.java:160-169 | for `gridSize >= 1` the result has exactly `gridSize` entries, keyed `"partition1"` … `"partition<gridSize>"` |
| `Partitioning.PartitionAt` | src/main/java/com/apirus/springbatch/config/CsvPartitionProcessConfiguration.java:155-168 | partition `i < gridSize` is `[(i-1)*range, i*range)` with `range = lines / gridSize`; the last is `[(gridSize-1)*range, lines)` |
| `Partitioning.FirstAndLast` | src/main/java/com/apirus/springbatch/config/CsvPartitionProcessConfiguration.java:157-163 | `partition1` starts at line 0 and the last partition ends at `lines` |
| `Partitioning.Contiguous` | src/main/java/com/apirus/springbatch/config/CsvPartitionProcessConfiguration.java:165-168 | for `i < gridSize`, the `fromLine` of partition `i+1` is the `toLine` of partition `i` |
| `Partitioning.PartitionSizes` | src/main/java/com/apirus/springbatch/config/CsvPartitionProcessConfiguration.java:155-163 | every range has `0 <= fromLine <= toLine <= lines`; all but the last hold `lines / gridSize` lines, the last that plus `lines % gridSize`, which is below `gridSize` |
| `Partitioning.FewerLinesThanPartitions` | src/main/java/com/apirus/springbatch/config/CsvPartitionProcessConfiguration.java:155-163 | when `lines < gridSize` every range but the last is `[0, 0)` and the last is `[0, lines)` |
| `Partitioning.EmptyFile` | src/main/java/com/apirus/springbatch/config/CsvPartitionProcessConfiguration.java:155-163 | an empty file gives `gridSize` ranges `[0, 0)` |
| `Partitioning.ValuesFitInt` | src/main/java/com/apirus/springbatch/config/CsvPartitionProcessConfiguration.java:165-166 | for `lines <= Integer.MAX_VALUE` every stored `fromLine`/`toLine` lies in `[0, lines]`, so `putInt` stores it unchanged |
| `Partitioning.PartitionNumber` | src/main/java/com/apirus/springbatch/config/CsvPartitionProcessConfiguration.java:160-169 | every key of the result is `"partition<i>"` for one `i` in `1..gridSize`, and it maps to the closed-form range `i` |
| `Partitioning.Owner` | src/main/java/com/apirus/springbatch/config/CsvPartitionProcessConfiguration.java:155-168 | every line in `[0, lines)` lies in the range of some partition `1..gridSize` |
| `Partitioning.ExactCover` | src/main/java/com/apirus/springbatch/config/CsvPartitionProcessConfiguration.java:155-170 | a line lies in some partition's range if and only if it is in `[0, lines)`: no gap and nothing outside the file |
| `Partitioning.Disjoint` | src/main/java/com/apirus/springbatch/config/CsvPartitionProcessConfiguration.java:155-170 | no line lies in the ranges of two different partitions |
| `CsvPartitionProcessConfiguration.Partition` | src/main/java/com/apirus/springbatch/config/CsvPartitionProcessConfiguration.java:153-172 | the loop over `i = 1..gridSize`, with Java `int` counters and `put` into the map, returns exactly the closed-form partition map (or the division-by-zero fault for `gridSize == 0`) |
| `JobConfig.CalculateBuckets` | src/main/java/com/apirus/springbatch/config/JobConfig.java:117-122 | logs its arguments and the 32-bit values `range * index` and `range * index + range`, exact when they fit; being a function it cannot touch the map being built |
| `JobConfig.BucketIsNextPartition` | src/main/java/com/apirus/springbatch/config/JobConfig.java:102-122 | the bucket logged at step `index < gridSize` starts where partition `index + 1` starts and spans `lines / gridSize` lines, so it is partition `index + 1` without the remainder |
| `JobConfig.BucketBounds` | src/main/java/com/apirus/springbatch/config/JobConfig.java:117-121 | at step `index < gridSize` the logged `start = range * index` and `end = start + range` fit in an `int` (no overflow), and at the step before the last `end` is `lines - remains` |
| `JobConfig.Partition` | src/main/java/com/apirus/springbatch/config/JobConfig.java:89-115 | the simple job's loop, with its `calculateBuckets` call, returns exactly the closed-form partition map (or the division-by-zero fault) |
| `JobConfig.PartitionersAgree` | src/main/java/com/apirus/springbatch/config/JobConfig.java:97-112 | for the same line count and grid size the two partitioner beans return the same map |
| `CsvPartitionProcessConfigurationTest.WorkedExample` | src/test/java/com/apirus/springbatch/config/CsvPartitionProcessConfigurationTest.java:19-31 | 59507 lines in 5 partitions give `[0,11901)`, `[11901,23802)`, `[23802,35703)`, `[35703,47604)`, `[47604,59507)` |
| `CsvPartitionProcessConfigurationTest.TestPartitioner` | src/test/java/com/apirus/springbatch/config/CsvPartitionProcessConfigurationTest.java:15-32 | the partitioner called with grid size 5 on a 59507-line file returns the expected, non-empty map |

## Left out

- Line counting: `countLines` (`Files.lines(...).count()`) and the simple job's `readLine` loop are file I/O. The count is a parameter, and the `IOException` wrapped in a `RuntimeException` is not modelled.
- `CsvPartitionProcessConfiguration.Partition`: does not model a line count above `Integer.MAX_VALUE`. There the `(int)` cast of `lines / gridSize` and the narrowing `toLine += remains` would truncate. It requires `lines <= Integer.MAX_VALUE`.
- `JobConfig.Partition`: requires `lines <= Integer.MAX_VALUE`. Counting beyond that would wrap `lines++`, and counting is I/O.
- `CsvPartitionProcessConfiguration.Partition`, `JobConfig.Partition`: require `gridSize < Integer.MAX_VALUE`. At `Integer.MAX_VALUE` the Java counter `i++` wraps and `i <= gridSize` never becomes false, so the loop would not terminate.
- `JobConfig.CalculateBuckets`: at the last step (`index == gridSize`), the logged `end = start + range` can exceed `Integer.MAX_VALUE` for line counts near it. It then wraps negative, and the model reproduces that through `Wrap32`. The value is only logged, so no lemma about the bucket covers that step.
- The final `toLine += range` after the last step of each loop may wrap. The model computes it with `Wrap32`, but the value is never stored.
- Logging: `log.info` calls are side effects. `CalculateBuckets` returns the values it would log.
- Reader and writer beans (`FlatFileItemReaderBuilder`, `currentItemCount`/`maxItemCount`, `FlatFileItemWriterBuilder`, `DelimitedLineAggregator`): their windowing and encoding live in Spring Batch, which is not part of this model. The partitioned reader's `maxItemCount(fromLine+2)` is therefore not modelled as honouring `toLine`.
- The chunk step, fault tolerance and skip limit (`chunk(1, ...)`, `skipLimit(1)`): that state machine is Spring Batch library code configured through builders.
- `ThreadPoolTaskExecutor`, `TaskExecutorPartitionHandler` and the concurrent execution of partitions: library concurrency.
- `ItemFieldSetMapper`, `CsvItemProcessor`, `JobCompletionNotificationListener` and `CsvProcessConfiguration`: field copying, identity with logging, profiler side effects and bean wiring, with no partitioning logic.
- `HashMap` iteration order: the result is modelled as a Dafny `map`, which has no order. Neither partitioner relies on an order.
