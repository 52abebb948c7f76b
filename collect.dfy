/**
 * `VirtData`: the parallel columns the sampler fills, one list per column, and
 * the storage pools of the URI being sampled. `Columns` is the same state as a
 * value; `Put` and `Replay` say what appending cells does to it.
 */
module Collect {
  /** A storage pool: its name and the names of its volumes. */
  datatype Pool = Pool(name: string, volumes: seq<string>)

  datatype Column =
    | VmId | Name | CpuTimes | MemActual | MemUnused | WriteBytes | ReadBytes
    | Macs | Ips | DiskReads | DiskWrites | SnapshotCounts | Uri | MemoryPool

  /** One `append` of a cell to a column. */
  datatype Step = Step(column: Column, cell: string)

  /** The columns of a `VirtData` as values. */
  datatype Columns = Columns(
    vmId: seq<string>, name: seq<string>, cpuTimes: seq<string>, memActual: seq<string>,
    memUnused: seq<string>, writeBytes: seq<string>, readBytes: seq<string>, macs: seq<string>,
    ips: seq<string>, diskReads: seq<string>, diskWrites: seq<string>,
    snapshotCounts: seq<string>, uri: seq<string>, memoryPool: seq<string>)

  function Col(cols: Columns, c: Column): seq<string>
  {
    match c
    case VmId => cols.vmId
    case Name => cols.name
    case CpuTimes => cols.cpuTimes
    case MemActual => cols.memActual
    case MemUnused => cols.memUnused
    case WriteBytes => cols.writeBytes
    case ReadBytes => cols.readBytes
    case Macs => cols.macs
    case Ips => cols.ips
    case DiskReads => cols.diskReads
    case DiskWrites => cols.diskWrites
    case SnapshotCounts => cols.snapshotCounts
    case Uri => cols.uri
    case MemoryPool => cols.memoryPool
  }

  /** The columns after one append. */
  function Put(cols: Columns, s: Step): (r: Columns)
    ensures Col(r, s.column) == Col(cols, s.column) + [s.cell]
    ensures forall c :: c != s.column ==> Col(r, c) == Col(cols, c)
  {
    var v := [s.cell];
    match s.column
    case VmId => cols.(vmId := cols.vmId + v)
    case Name => cols.(name := cols.name + v)
    case CpuTimes => cols.(cpuTimes := cols.cpuTimes + v)
    case MemActual => cols.(memActual := cols.memActual + v)
    case MemUnused => cols.(memUnused := cols.memUnused + v)
    case WriteBytes => cols.(writeBytes := cols.writeBytes + v)
    case ReadBytes => cols.(readBytes := cols.readBytes + v)
    case Macs => cols.(macs := cols.macs + v)
    case Ips => cols.(ips := cols.ips + v)
    case DiskReads => cols.(diskReads := cols.diskReads + v)
    case DiskWrites => cols.(diskWrites := cols.diskWrites + v)
    case SnapshotCounts => cols.(snapshotCounts := cols.snapshotCounts + v)
    case Uri => cols.(uri := cols.uri + v)
    case MemoryPool => cols.(memoryPool := cols.memoryPool + v)
  }

  /** The columns after a run of appends. */
  function Replay(cols: Columns, steps: seq<Step>): Columns
  {
    if steps == [] then cols else Put(Replay(cols, steps[..|steps| - 1]), steps[|steps| - 1])
  }

  lemma ReplaySnoc(cols: Columns, steps: seq<Step>, s: Step)
    ensures Replay(cols, steps + [s]) == Put(Replay(cols, steps), s)
  {
    assert (steps + [s])[..|steps|] == steps;
  }

  /** One more step of a run. */
  lemma ReplayPrefix(cols: Columns, steps: seq<Step>, k: nat)
    requires k < |steps|
    ensures Replay(cols, steps[..k + 1]) == Put(Replay(cols, steps[..k]), steps[k])
  {
    assert steps[..k + 1][..k] == steps[..k];
  }

  lemma {:induction false} ReplayAppend(cols: Columns, a: seq<Step>, b: seq<Step>)
    ensures Replay(cols, a + b) == Replay(Replay(cols, a), b)
  {
    if b != [] {
      var init := b[..|b| - 1];
      ReplayAppend(cols, a, init);
      assert (a + b)[..|a + b| - 1] == a + init;
    } else {
      assert a + b == a;
    }
  }

  /** The collected columns, and the pools of the current URI. */
  class VirtData {
    var vmId: seq<string>
    var name: seq<string>
    var cpuTimes: seq<string>
    var memActual: seq<string>
    var memUnused: seq<string>
    var writeBytes: seq<string>
    var readBytes: seq<string>
    var macs: seq<string>
    var ips: seq<string>
    var diskReads: seq<string>
    var diskWrites: seq<string>
    var snapshotCounts: seq<string>
    var uri: seq<string>
    var memoryPool: seq<string>
    var pools: seq<Pool>

    /** `VirtData()`: every list empty. */
    constructor ()
      ensures Snapshot() == Columns([], [], [], [], [], [], [], [], [], [], [], [], [], [])
      ensures pools == []
    {
      vmId, name, cpuTimes, memActual, memUnused, writeBytes, readBytes := [], [], [], [], [], [], [];
      macs, ips, diskReads, diskWrites, snapshotCounts, uri, memoryPool := [], [], [], [], [], [], [];
      pools := [];
    }

    function Snapshot(): Columns
      reads this
    {
      Columns(vmId, name, cpuTimes, memActual, memUnused, writeBytes, readBytes,
              macs, ips, diskReads, diskWrites, snapshotCounts, uri, memoryPool)
    }

    /** `virt_data.<column>.append(cell)`: the columns become `Put` of the columns before; the pools stay. */
    method Append(s: Step)
      modifies this
      ensures Columns(vmId, name, cpuTimes, memActual, memUnused, writeBytes, readBytes,
                      macs, ips, diskReads, diskWrites, snapshotCounts, uri, memoryPool)
        == Put(old(Columns(vmId, name, cpuTimes, memActual, memUnused, writeBytes, readBytes,
                           macs, ips, diskReads, diskWrites, snapshotCounts, uri, memoryPool)), s)
      ensures pools == old(pools)
    {
      var v := [s.cell];
      match s.column
      case VmId => vmId := vmId + v;
      case Name => name := name + v;
      case CpuTimes => cpuTimes := cpuTimes + v;
      case MemActual => memActual := memActual + v;
      case MemUnused => memUnused := memUnused + v;
      case WriteBytes => writeBytes := writeBytes + v;
      case ReadBytes => readBytes := readBytes + v;
      case Macs => macs := macs + v;
      case Ips => ips := ips + v;
      case DiskReads => diskReads := diskReads + v;
      case DiskWrites => diskWrites := diskWrites + v;
      case SnapshotCounts => snapshotCounts := snapshotCounts + v;
      case Uri => uri := uri + v;
      case MemoryPool => memoryPool := memoryPool + v;
    }

    /** Appends a run of cells in order. */
    method AppendAll(steps: seq<Step>)
      modifies this
      ensures Snapshot() == Replay(old(Snapshot()), steps)
      ensures pools == old(pools)
    {
      for k := 0 to |steps|
        invariant Snapshot() == Replay(old(Snapshot()), steps[..k])
        invariant pools == old(pools)
      {
        ReplayPrefix(old(Snapshot()), steps, k);
        Append(steps[k]);
      }
      assert steps[..|steps|] == steps;
    }
  }
}
