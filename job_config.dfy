/**
 The partitioner bean of the simple job, which counts the lines of its
 classpath resource itself and logs each step through `calculateBuckets`.
 */
module JobConfig {
  import JavaInt
  import opened Partitioning
  import CsvPartitionProcessConfiguration

  /** The values `calculateBuckets` writes to the log. */
  datatype BucketLog = BucketLog(index: int, total: int, range: int, remains: int, start: int, end: int)

  /**
   `calculateBuckets(index, total, range, remains)`: logs its arguments and
   the bucket `[range * index, range * index + range)`, in Java `int`
   arithmetic. It changes nothing, so the map being built is unaffected.
   */
  function CalculateBuckets(index: int, total: int, range: int, remains: int): (log: BucketLog)
    ensures log.index == index && log.total == total && log.range == range && log.remains == remains
    ensures JavaInt.InRange(log.start) && JavaInt.InRange(log.end)
    ensures JavaInt.InRange(range * index) && JavaInt.InRange(range * index + range)
      ==> log.start == range * index && log.end == range * index + range
  {
    var start := JavaInt.Wrap32(range * index);
    var end := JavaInt.Wrap32(start + range);
    BucketLog(index, total, range, remains, start, end)
  }

  /**
   The bucket logged at step `index < gridSize` is partition `index + 1`
   without the remainder: it starts where that partition starts and spans
   `lines / gridSize` lines. No value overflows on the way.
   */
  lemma BucketIsNextPartition(lines: nat, gridSize: int, index: int)
    requires lines <= JavaInt.INT_MAX && gridSize >= 1 && 1 <= index < gridSize
    ensures Key(index + 1) in Partitions(lines, gridSize).value
    ensures var log := CalculateBuckets(index, lines, lines / gridSize, lines % gridSize);
      && log.start == Partitions(lines, gridSize).value[Key(index + 1)].fromLine
      && log.end == log.start + lines / gridSize
      && (index + 1 < gridSize ==> log.end == Partitions(lines, gridSize).value[Key(index + 1)].toLine)
      && (index + 1 == gridSize ==> log.end == lines - lines % gridSize)
  {
    var range := lines / gridSize;
    PartitionAt(lines, gridSize, index + 1);
    var start := BucketBounds(lines, gridSize, index);
    var log := CalculateBuckets(index, lines, range, lines % gridSize);
    assert log.start == start && log.end == start + range;
  }

  /** The logged bucket's bounds at step `index < gridSize` fit in an `int`. */
  lemma BucketBounds(lines: nat, gridSize: int, index: int) returns (start: int)
    requires lines <= JavaInt.INT_MAX && gridSize >= 1 && 1 <= index < gridSize
    ensures start == (lines / gridSize) * index == index * (lines / gridSize)
    ensures JavaInt.InRange(start) && JavaInt.InRange(start + (lines / gridSize))
    ensures start + (lines / gridSize) == (index + 1) * (lines / gridSize)
    ensures index + 1 == gridSize ==> start + (lines / gridSize) == lines - lines % gridSize
  {
    StepArithmetic(lines, gridSize, index);
    StepArithmetic(lines, gridSize, index + 1);
    DivMod(lines, gridSize);
    start := index * (lines / gridSize);
  }

  /**
   `partition(gridSize)` for a resource of `lines` lines (the count the
   `readLine` loop reaches). The same loop as the partitioned CSV job's, with
   a call to `calculateBuckets` at the head of each step.
   */
  method Partition(lines: nat, gridSize: int) returns (r: Result<PartitionMap>)
    requires lines <= JavaInt.INT_MAX
    requires JavaInt.INT_MIN <= gridSize < JavaInt.INT_MAX
    ensures r == Partitions(lines, gridSize)
  {
    if gridSize == 0 {
      return Err(ArithmeticException);
    }
    var range := lines / gridSize;
    var remains := lines % gridSize;
    var fromLine := 0;
    var toLine := range;
    var result: PartitionMap := map[];
    var i := 1;
    while i <= gridSize
      invariant 1 <= i <= if gridSize >= 1 then gridSize + 1 else 1
      invariant gridSize >= 1 && i <= gridSize ==> fromLine == (i - 1) * range && toLine == i * range
      invariant result == PartitionsUpTo(lines, gridSize, i - 1)
    {
      var log := CalculateBuckets(i, lines, range, remains);
      StepArithmetic(lines, gridSize, i);
      if i == gridSize {
        toLine := JavaInt.Wrap32(toLine + remains);
      }
      assert ExecutionContext(fromLine, toLine) == Slot(lines, gridSize, i);
      result := result[Key(i) := ExecutionContext(fromLine, toLine)];
      fromLine := toLine;
      toLine := JavaInt.Wrap32(toLine + range);
      i := i + 1;
    }
    return Ok(result);
  }

  /** Both partitioner beans return the same map for the same line count and grid size. */
  method PartitionersAgree(lines: nat, gridSize: int)
    returns (csv: Result<PartitionMap>, simple: Result<PartitionMap>)
    requires lines <= JavaInt.INT_MAX
    requires JavaInt.INT_MIN <= gridSize < JavaInt.INT_MAX
    ensures csv == simple
    ensures csv == Partitions(lines, gridSize)
  {
    csv := CsvPartitionProcessConfiguration.Partition(lines, gridSize);
    simple := Partition(lines, gridSize);
  }
}
