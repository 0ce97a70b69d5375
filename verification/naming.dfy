/** Device names derived from the output of `losetup` (main.go:58-87). */
module Naming {
  import opened Results

  /** `attachLoopDevice`: `losetup --find --show` prints the device it bound
      followed by a newline, and the code drops the last character of that
      output, whatever it is. Go's slice expression panics on an empty
      output, so the caller must not pass one. */
  function LoopDeviceName(output: string): (device: string)
    requires |output| > 0
    ensures |device| + 1 == |output|
    ensures device + [output[|output| - 1]] == output
  {
    output[..|output| - 1]
  }

  /** Printing a device name and trimming the output gives the name back. */
  lemma LoopDeviceNameRoundTrip(device: string, terminator: char)
    ensures LoopDeviceName(device + [terminator]) == device
  {
    assert (device + [terminator])[..|device|] == device;
  }

  /** The suffix `mountLoopDevice` appends to name the first partition. */
  const FirstPartitionSuffix: string := "p1"

  /** `mountLoopDevice`: the partition mounted is the device name followed
      by "p1". */
  function PartitionName(device: string): (partition: string)
    ensures |partition| == |device| + |FirstPartitionSuffix|
    ensures partition[..|device|] == device
    ensures partition[|device|..] == FirstPartitionSuffix
  {
    device + FirstPartitionSuffix
  }

  /** The device a first-partition name belongs to, if it names one. */
  function DeviceOfPartition(partition: string): (device: Option<string>)
  {
    var n := |partition|;
    if n >= 2 && partition[n - 2..] == FirstPartitionSuffix then Some(partition[..n - 2])
    else None
  }

  /** `DeviceOfPartition` inverts `PartitionName`, in both directions. */
  lemma PartitionNameRoundTrip(device: string, partition: string)
    ensures DeviceOfPartition(PartitionName(device)) == Some(device)
    ensures DeviceOfPartition(partition) == Some(device) ==> PartitionName(device) == partition
  {
    var p := PartitionName(device);
    assert p[|p| - 2..] == FirstPartitionSuffix;
    assert p[..|p| - 2] == device;
    if DeviceOfPartition(partition) == Some(device) {
      var n := |partition|;
      assert partition == partition[..n - 2] + partition[n - 2..];
    }
  }

  /** Distinct devices never share a partition name. */
  lemma PartitionNameInjective(a: string, b: string)
    ensures PartitionName(a) == PartitionName(b) ==> a == b
  {
    if PartitionName(a) == PartitionName(b) {
      PartitionNameRoundTrip(a, PartitionName(a));
      PartitionNameRoundTrip(b, PartitionName(b));
    }
  }
}
