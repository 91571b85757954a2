/**
 The partitioner test of the partitioned CSV job: the sample file of 59507
 lines split five ways.
 */
module CsvPartitionProcessConfigurationTest {
  import opened Partitioning
  import CsvPartitionProcessConfiguration

  function Expected(): PartitionMap {
    map[
      "partition1" := ExecutionContext(0, 11901),
      "partition2" := ExecutionContext(11901, 23802),
      "partition3" := ExecutionContext(23802, 35703),
      "partition4" := ExecutionContext(35703, 47604),
      "partition5" := ExecutionContext(47604, 59507)
    ]
  }

  /** 59507 lines in 5 partitions: four of 11901 lines and a last one of 11903. */
  lemma WorkedExample()
    ensures Partitions(59507, 5) == Ok(Expected())
  {
    assert Key(1) == "partition1" && Key(2) == "partition2" && Key(3) == "partition3";
    assert Key(4) == "partition4" && Key(5) == "partition5";
  }

  /** `testPartitioner`: the map returned for grid size 5 is the expected one and is not empty. */
  method TestPartitioner() returns (result: Result<PartitionMap>)
    ensures result == Ok(Expected())
    ensures result.Ok? && |result.value| == 5
  {
    result := CsvPartitionProcessConfiguration.Partition(59507, 5);
    WorkedExample();
  }
}
