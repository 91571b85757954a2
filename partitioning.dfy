/**
 The range partitioner's specification: the map from `"partition1"` …
 `"partitionN"` to step execution contexts holding a `fromLine` (inclusive)
 and a `toLine` (exclusive) that both partitioner lambdas build, stated in
 closed form, and the properties of that map: its key set and size, where
 each range starts and ends, contiguity, the placement of the remainder and
 exact coverage of `[0, lines)`.
 */
module Partitioning {
  import Decimal
  import JavaInt

  /** The two entries a partitioner puts into each partition's context. */
  datatype ExecutionContext = ExecutionContext(fromLine: int, toLine: int)

  type PartitionMap = map<string, ExecutionContext>

  /** The exception Java raises for `lines / gridSize` when `gridSize` is 0. */
  datatype Fault = ArithmeticException

  datatype Result<T> = Ok(value: T) | Err(fault: Fault)

  /** The key of partition `i`: `"partition" + i`. */
  function Key(i: nat): (key: string)
    ensures |key| > 9 && key[..9] == "partition"
    ensures forall k :: 9 <= k < |key| ==> Decimal.IsDigit(key[k])
  {
    "partition" + Decimal.NatToString(i)
  }

  /** Distinct partition numbers give distinct keys. */
  lemma KeyInjective(i: nat, j: nat)
    ensures Key(i) == Key(j) ==> i == j
  {
    if Key(i) == Key(j) {
      assert Key(i)[9..] == Decimal.NatToString(i);
      assert Key(j)[9..] == Decimal.NatToString(j);
      Decimal.NatToStringInjective(i, j);
    }
  }

  /**
   Closed form of partition `i`: every partition covers `lines / gridSize`
   lines starting at `(i - 1) * (lines / gridSize)`, except that the last one
   ends at `lines`. (For `lines >= 0` Dafny's `/` agrees with Java's.)
   */
  function Slot(lines: nat, gridSize: int, i: int): ExecutionContext
    requires gridSize != 0
  {
    var range := lines / gridSize;
    ExecutionContext((i - 1) * range, if i == gridSize then lines else i * range)
  }

  /** The map after the partitions `1..n` have been put, in that order. */
  function PartitionsUpTo(lines: nat, gridSize: int, n: int): PartitionMap
    requires gridSize != 0
    decreases n
  {
    if n <= 0 then map[]
    else PartitionsUpTo(lines, gridSize, n - 1)[Key(n) := Slot(lines, gridSize, n)]
  }

  /**
   What `partition(gridSize)` returns for a file of `lines` lines: the
   division throws on a zero grid size, a negative one leaves the loop
   unentered and the map empty.
   */
  function Partitions(lines: nat, gridSize: int): (r: Result<PartitionMap>)
    ensures r.Err? <==> gridSize == 0
    ensures gridSize < 0 ==> r == Ok(map[])
  {
    if gridSize == 0 then Err(ArithmeticException)
    else Ok(PartitionsUpTo(lines, gridSize, gridSize))
  }

  // ---------------------------------------------------------------------
  // The map built step by step

  lemma {:induction false} KeysUpTo(lines: nat, gridSize: int, n: nat)
    requires gridSize != 0
    ensures PartitionsUpTo(lines, gridSize, n).Keys == set k: nat | 1 <= k <= n :: Key(k)
    decreases n
  {
    if n > 0 {
      KeysUpTo(lines, gridSize, n - 1);
      assert (set k: nat | 1 <= k <= n :: Key(k)) == (set k: nat | 1 <= k <= n - 1 :: Key(k)) + {Key(n)};
    }
  }

  lemma {:induction false} LookupUpTo(lines: nat, gridSize: int, n: int, k: int)
    requires gridSize != 0
    requires 1 <= k <= n
    ensures Key(k) in PartitionsUpTo(lines, gridSize, n)
    ensures PartitionsUpTo(lines, gridSize, n)[Key(k)] == Slot(lines, gridSize, k)
    decreases n
  {
    if k < n {
      LookupUpTo(lines, gridSize, n - 1, k);
      KeyInjective(k, n);
    }
  }

  lemma {:induction false} SizeUpTo(lines: nat, gridSize: int, n: nat)
    requires gridSize != 0
    ensures |PartitionsUpTo(lines, gridSize, n)| == n
    decreases n
  {
    if n > 0 {
      SizeUpTo(lines, gridSize, n - 1);
      KeysUpTo(lines, gridSize, n - 1);
      if Key(n) in PartitionsUpTo(lines, gridSize, n - 1) {
        var k :| 1 <= k <= n - 1 && Key(n) == Key(k);
        KeyInjective(k, n);
        assert false;
      }
    }
  }

  // ---------------------------------------------------------------------
  // Arithmetic of the closed form

  lemma MulMonotone(a: int, b: int, c: nat)
    requires a <= b
    ensures a * c <= b * c
  {
  }

  /** `lines` is `gridSize` ranges plus the remainder, and the remainder is below `gridSize`. */
  lemma DivMod(lines: nat, gridSize: int)
    requires gridSize >= 1
    ensures lines == gridSize * (lines / gridSize) + lines % gridSize
    ensures 0 <= lines % gridSize < gridSize
    ensures 0 <= gridSize * (lines / gridSize) <= lines
  {
  }

  /**
   The counters of the partitioner loop at step `i`: the range put before the
   remainder ends at `i * range` inside `[0, lines]`, the next one ends one
   `range` further, and the last one plus the remainder ends at `lines`.
   */
  lemma StepArithmetic(lines: nat, gridSize: int, i: int)
    requires gridSize >= 1 && 1 <= i <= gridSize
    ensures var range := lines / gridSize;
      && 0 <= range
      && 0 <= i * range <= lines
      && i * range + range == (i + 1) * range
      && (i < gridSize ==> (i + 1) * range <= lines)
      && (i == gridSize ==> i * range + lines % gridSize == lines)
  {
    var range := lines / gridSize;
    DivMod(lines, gridSize);
    MulMonotone(i, gridSize, range);
    MulPred(i + 1, range);
    if i < gridSize {
      MulMonotone(i + 1, gridSize, range);
    }
  }

  /** Every range lies inside `[0, lines]` and is not reversed. */
  lemma SlotBounds(lines: nat, gridSize: int, i: int)
    requires gridSize >= 1 && 1 <= i <= gridSize
    ensures 0 <= Slot(lines, gridSize, i).fromLine <= Slot(lines, gridSize, i).toLine <= lines
  {
    // Not needed for validity; without these steps the nonlinear goal is unstable across solver seeds.
    var range := lines / gridSize;
    DivMod(lines, gridSize);
    MulMonotone(0, i - 1, range);
    MulMonotone(i - 1, i, range);
    MulMonotone(i, gridSize, range);
  }

  /** A range that ends before another starts: partition `i`'s lines all precede partition `j`'s. */
  lemma SlotsOrdered(lines: nat, gridSize: int, i: int, j: int)
    requires gridSize >= 1 && 1 <= i < j <= gridSize
    ensures Slot(lines, gridSize, i).toLine <= Slot(lines, gridSize, j).fromLine
  {
    // Not needed for validity; without it the nonlinear step is unstable across solver seeds.
    MulMonotone(i, j - 1, lines / gridSize);
  }

  /** `r * (i - 1)` is `r * i` less one `r`. */
  lemma MulPred(i: int, r: int)
    ensures (i - 1) * r == i * r - r
  {
  }

  /** Line `n` lies in the `n / range`-th block of `range` lines. */
  lemma Block(n: nat, range: int)
    requires range >= 1
    ensures (n / range) * range <= n < (n / range + 1) * range
  {
  }

  /** The number of the partition whose range holds line `n`. */
  function Owner(lines: nat, gridSize: int, n: int): (i: int)
    requires gridSize >= 1 && 0 <= n < lines
    ensures 1 <= i <= gridSize
    ensures Slot(lines, gridSize, i).fromLine <= n < Slot(lines, gridSize, i).toLine
  {
    var range := lines / gridSize;
    if range == 0 then gridSize
    else
      var q := n / range;
      Block(n, range);
      if q + 1 < gridSize then q + 1
      else
        MulMonotone(gridSize - 1, q, range);
        gridSize
  }

  // ---------------------------------------------------------------------
  // Properties of the partition map

  predicate Holds(c: ExecutionContext, line: int) {
    c.fromLine <= line < c.toLine
  }

  /** The map has exactly `gridSize` entries, keyed `"partition1"` … `"partition<gridSize>"`. */
  lemma PartitionKeys(lines: nat, gridSize: int)
    requires gridSize >= 1
    ensures Partitions(lines, gridSize).Ok?
    ensures Partitions(lines, gridSize).value.Keys == set i: nat | 1 <= i <= gridSize :: Key(i)
    ensures |Partitions(lines, gridSize).value| == gridSize
  {
    KeysUpTo(lines, gridSize, gridSize);
    SizeUpTo(lines, gridSize, gridSize);
  }

  /**
   Partition `i` is `[(i - 1) * range, i * range)` with `range = lines / gridSize`,
   except the last, which runs to `lines`.
   */
  lemma PartitionAt(lines: nat, gridSize: int, i: int)
    requires gridSize >= 1 && 1 <= i <= gridSize
    ensures Key(i) in Partitions(lines, gridSize).value
    ensures Partitions(lines, gridSize).value[Key(i)].fromLine == (i - 1) * (lines / gridSize)
    ensures Partitions(lines, gridSize).value[Key(i)].toLine
         == if i < gridSize then i * (lines / gridSize) else lines
  {
    LookupUpTo(lines, gridSize, gridSize, i);
  }

  /** `partition1` starts at line 0 and the last partition ends at `lines`. */
  lemma FirstAndLast(lines: nat, gridSize: int)
    requires gridSize >= 1
    ensures Key(1) in Partitions(lines, gridSize).value
    ensures Partitions(lines, gridSize).value[Key(1)].fromLine == 0
    ensures Key(gridSize) in Partitions(lines, gridSize).value
    ensures Partitions(lines, gridSize).value[Key(gridSize)].toLine == lines
  {
    LookupUpTo(lines, gridSize, gridSize, 1);
    LookupUpTo(lines, gridSize, gridSize, gridSize);
  }

  /** Each partition starts where the previous one ends. */
  lemma Contiguous(lines: nat, gridSize: int, i: int)
    requires gridSize >= 1 && 1 <= i < gridSize
    ensures Key(i) in Partitions(lines, gridSize).value
    ensures Key(i + 1) in Partitions(lines, gridSize).value
    ensures Partitions(lines, gridSize).value[Key(i + 1)].fromLine
         == Partitions(lines, gridSize).value[Key(i)].toLine
  {
    LookupUpTo(lines, gridSize, gridSize, i);
    LookupUpTo(lines, gridSize, gridSize, i + 1);
  }

  /**
   Every partition but the last holds exactly `lines / gridSize` lines; the last
   holds that many plus the remainder `lines % gridSize`, which is below `gridSize`.
   */
  lemma PartitionSizes(lines: nat, gridSize: int, i: int)
    requires gridSize >= 1 && 1 <= i <= gridSize
    ensures Key(i) in Partitions(lines, gridSize).value
    ensures var c := Partitions(lines, gridSize).value[Key(i)];
      && 0 <= c.fromLine <= c.toLine <= lines
      && c.toLine - c.fromLine
         == if i < gridSize then lines / gridSize else lines / gridSize + lines % gridSize
    ensures lines % gridSize < gridSize
  {
    LookupUpTo(lines, gridSize, gridSize, i);
    SlotBounds(lines, gridSize, i);
    DivMod(lines, gridSize);
    MulPred(i, lines / gridSize);
  }

  lemma SmallQuotient(lines: nat, gridSize: int)
    requires 0 <= lines < gridSize
    ensures lines / gridSize == 0
  {
  }

  /** With fewer lines than partitions, all but the last range are `[0, 0)` and the last is `[0, lines)`. */
  lemma FewerLinesThanPartitions(lines: nat, gridSize: int, i: int)
    requires gridSize >= 1 && lines < gridSize && 1 <= i <= gridSize
    ensures Key(i) in Partitions(lines, gridSize).value
    ensures Partitions(lines, gridSize).value[Key(i)]
         == ExecutionContext(0, if i < gridSize then 0 else lines)
  {
    LookupUpTo(lines, gridSize, gridSize, i);
    SmallQuotient(lines, gridSize);
    var range := lines / gridSize;
    assert (i - 1) * range == 0 && i * range == 0;
  }

  /** Every stored value lies in `[0, lines]`, so `putInt` stores it unchanged for `lines <= Integer.MAX_VALUE`. */
  lemma ValuesFitInt(lines: nat, gridSize: int, key: string)
    requires gridSize >= 1 && lines <= JavaInt.INT_MAX
    requires key in Partitions(lines, gridSize).value
    ensures var c := Partitions(lines, gridSize).value[key];
      0 <= c.fromLine <= c.toLine <= lines && JavaInt.InRange(c.fromLine) && JavaInt.InRange(c.toLine)
  {
    var i := PartitionNumber(lines, gridSize, key);
    SlotBounds(lines, gridSize, i);
  }

  /** The partition number behind a key of the map. */
  lemma PartitionNumber(lines: nat, gridSize: int, key: string) returns (i: int)
    requires gridSize >= 1
    requires key in Partitions(lines, gridSize).value
    ensures 1 <= i <= gridSize && key == Key(i)
    ensures Partitions(lines, gridSize).value[key] == Slot(lines, gridSize, i)
  {
    KeysUpTo(lines, gridSize, gridSize);
    i :| 1 <= i <= gridSize && key == Key(i);
    LookupUpTo(lines, gridSize, gridSize, i);
  }

  /** A line is held by some partition exactly when it is one of the file's lines `[0, lines)`. */
  lemma ExactCover(lines: nat, gridSize: int, line: int)
    requires gridSize >= 1
    ensures var m := Partitions(lines, gridSize).value;
      (0 <= line < lines) <==> exists key :: key in m && Holds(m[key], line)
  {
    var m := Partitions(lines, gridSize).value;
    if 0 <= line < lines {
      var i := Owner(lines, gridSize, line);
      LookupUpTo(lines, gridSize, gridSize, i);
      assert Holds(m[Key(i)], line);
    }
    if exists key :: key in m && Holds(m[key], line) {
      var key :| key in m && Holds(m[key], line);
      var i := PartitionNumber(lines, gridSize, key);
      SlotBounds(lines, gridSize, i);
    }
  }

  /** No line is held by two partitions. */
  lemma Disjoint(lines: nat, gridSize: int, key1: string, key2: string, line: int)
    requires gridSize >= 1
    requires key1 in Partitions(lines, gridSize).value && key2 in Partitions(lines, gridSize).value
    requires Holds(Partitions(lines, gridSize).value[key1], line)
    requires Holds(Partitions(lines, gridSize).value[key2], line)
    ensures key1 == key2
  {
    var i := PartitionNumber(lines, gridSize, key1);
    var j := PartitionNumber(lines, gridSize, key2);
    if i < j {
      SlotsOrdered(lines, gridSize, i, j);
    } else if j < i {
      SlotsOrdered(lines, gridSize, j, i);
    }
  }

  /** An empty file gives `gridSize` empty ranges `[0, 0)`. */
  lemma EmptyFile(gridSize: int, key: string)
    requires gridSize >= 1
    requires key in Partitions(0, gridSize).value
    ensures Partitions(0, gridSize).value[key] == ExecutionContext(0, 0)
  {
    var i := PartitionNumber(0, gridSize, key);
  }
}
