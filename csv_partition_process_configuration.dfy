/**
 The partitioner bean of the partitioned CSV job: the lambda `gridSize -> {…}`
 that splits the input file's `lines` lines into `gridSize` ranges and puts
 each into its own execution context under `"partition" + i`.
 */
module CsvPartitionProcessConfiguration {
  import JavaInt
  import opened Partitioning

  /**
   `partition(gridSize)` for an input file of `lines` lines (the count
   `Files.lines(...).count()` returns). Java `int` arithmetic, including the
   narrowing `toLine += remains`, goes through `Wrap32`; for counts that fit
   in an `int` it never changes a stored value.
   */
  method Partition(lines: nat, gridSize: int) returns (r: Result<PartitionMap>)
    requires lines <= JavaInt.INT_MAX
    requires JavaInt.INT_MIN <= gridSize < JavaInt.INT_MAX
    ensures r == Partitions(lines, gridSize)
  {
    if gridSize == 0 {
      return Err(ArithmeticException);
    }
    var range := lines / gridSize;
    var remains := lines % gridSize;
    var fromLine := 0;
    var toLine := range;
    var result: PartitionMap := map[];
    var i := 1;
    while i <= gridSize
      invariant 1 <= i <= if gridSize >= 1 then gridSize + 1 else 1
      invariant gridSize >= 1 && i <= gridSize ==> fromLine == (i - 1) * range && toLine == i * range
      invariant result == PartitionsUpTo(lines, gridSize, i - 1)
    {
      StepArithmetic(lines, gridSize, i);
      if i == gridSize {
        toLine := JavaInt.Wrap32(toLine + remains);
      }
      assert ExecutionContext(fromLine, toLine) == Slot(lines, gridSize, i);
      result := result[Key(i) := ExecutionContext(fromLine, toLine)];
      fromLine := toLine;
      toLine := JavaInt.Wrap32(toLine + range);
      i := i + 1;
    }
    return Ok(result);
  }
}
