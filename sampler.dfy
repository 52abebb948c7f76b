/**
 * `VirtData` and `fill_virt_data_uri`: for each running domain of one URI, one
 * cell is appended to each of twelve parallel columns, and one or more cells to
 * `memory_pool`, in the order the source appends them. A domain is given as the
 * values libvirt reported for it; a failure that the source does not catch stops
 * the loop with the columns as far as they were filled.
 */
module Sampler {
  import opened Results
  import opened Text
  import opened Units
  import opened Descriptor
  import opened Collect
  import Arp
  import Layout

  /** Where `tree.find("devices/disk/source").get("file")` leads. */
  datatype DiskSource = NoSourceElement | NoFileAttribute | SourceFile(path: string)

  /** `dom.interfaceStats(iface)`: rx bytes, packets, errs, drop, tx bytes, packets, errs, drop. */
  type InterfaceStats = (int, int, int, int, int, int, int, int)

  /** `dom.blockStats(path)`: read requests, read bytes, write requests, write bytes, errors. */
  type BlockStats = (int, int, int, int, int)

  /**
   * What libvirt reports for one running domain. `getCPUStats`, `interfaceStats` and
   * `blockStats` are `None` where the call raises; the other calls are taken to succeed.
   */
  datatype DomainInfo = DomainInfo(
    name: string,
    snapshotCount: nat,
    cpuTimeNs: Option<nat>,
    memoryStats: map<string, int>,
    interfaceStats: Option<InterfaceStats>,
    diskSource: DiskSource,
    blockStats: Option<BlockStats>,
    descriptor: Document)

  /**
   * What one iteration reads about a domain: the libvirt reports, with the descriptor
   * read through `get_disk_info` and `get_network_info`.
   */
  datatype DomainView = DomainView(info: DomainInfo, diskInfo: map<string, string>, networkInfo: map<string, string>)

  function View(d: DomainInfo): DomainView
  {
    DomainView(d, Flatten(d.descriptor, DiskTag), Flatten(d.descriptor, InterfaceTag))
  }

  function Views(ds: seq<DomainInfo>): (r: seq<DomainView>)
    ensures |r| == |ds|
  {
    seq(|ds|, i requires 0 <= i < |ds| => View(ds[i]))
  }

  /** The exceptions that escape the per-domain loop. */
  datatype SampleError =
    | NoInterfaceStats  // no interface target in the descriptor, or interfaceStats raised
    | NoDiskSource      // no disk source element: AttributeError
    | DiskPathUnset     // source without a file attribute and at least one pool: TypeError in basename
    | NoDiskFile        // KeyError on disk_info["file"]
    | NoBlockStats      // blockStats raised
    | NoMacAddress      // KeyError on network_info["address"]

  /** The appends one run makes, in order, and the exception that ended it, if any. */
  datatype Trace = Trace(steps: seq<Step>, error: Option<SampleError>)

  const Failed: string := "n/a"
  const Missing: string := "N/A"

  /** `os.path.basename`: the part of the path after its last '/'. */
  function Basename(path: string): (r: string)
    ensures '/' !in r
    ensures |r| <= |path| && r == path[|path| - |r|..]
    ensures |r| < |path| ==> path[|path| - |r| - 1] == '/'
  {
    if path == [] || path[|path| - 1] == '/' then []
    else Basename(path[..|path| - 1]) + [path[|path| - 1]]
  }

  /** The names of the pools holding the volume, in pool order. */
  function MatchingNames(volume: string, pools: seq<Pool>): seq<string>
  {
    if pools == [] then []
    else
      var last := pools[|pools| - 1];
      MatchingNames(volume, pools[..|pools| - 1]) + (if volume in last.volumes then [last.name] else [])
  }

  /** The cells `memory_pool` receives for a volume: every matching pool's name, or "N/A". */
  function PoolEntries(volume: string, pools: seq<Pool>): (r: seq<string>)
    ensures |r| > 0
  {
    var names := MatchingNames(volume, pools);
    if names == [] then [Missing] else names
  }

  /** A name is listed exactly when a pool of that name holds the volume. */
  lemma {:induction false} MatchingNamesMember(volume: string, pools: seq<Pool>, x: string)
    ensures x in MatchingNames(volume, pools) <==>
      exists i :: 0 <= i < |pools| && pools[i].name == x && volume in pools[i].volumes
  {
    if pools != [] {
      var init := pools[..|pools| - 1];
      MatchingNamesMember(volume, init, x);
      if exists i :: 0 <= i < |pools| && pools[i].name == x && volume in pools[i].volumes {
        var i :| 0 <= i < |pools| && pools[i].name == x && volume in pools[i].volumes;
        if i < |pools| - 1 {
          assert init[i] == pools[i];
        }
      }
    }
  }

  /** Matching does not stop at the first pool: two matching pools give two entries. */
  lemma {:induction false} TwoMatches(volume: string, pools: seq<Pool>, i: nat, j: nat)
    requires i < j < |pools|
    requires volume in pools[i].volumes && volume in pools[j].volumes
    ensures |MatchingNames(volume, pools)| >= 2
  {
    var init := pools[..|pools| - 1];
    if j < |pools| - 1 {
      TwoMatches(volume, init, i, j);
    } else {
      MatchingNamesMember(volume, init, pools[i].name);
      assert init[i] == pools[i];
    }
  }

  /** One entry at most when no two pools hold the volume. */
  lemma {:induction false} AtMostOneMatch(volume: string, pools: seq<Pool>)
    requires forall i, j :: 0 <= i < j < |pools| && volume in pools[i].volumes ==> volume !in pools[j].volumes
    ensures |MatchingNames(volume, pools)| <= 1
  {
    if pools != [] {
      var init := pools[..|pools| - 1];
      AtMostOneMatch(volume, init);
      if volume in pools[|pools| - 1].volumes && MatchingNames(volume, init) != [] {
        MatchingNamesMember(volume, init, MatchingNames(volume, init)[0]);
        assert false;
      }
    }
  }

  /** The `cpu_times` cell: whole seconds and "s", or "n/a" when the statistics call raised. */
  function CpuCell(ns: Option<nat>): (r: string)
    ensures r == Failed <==> ns.None?
    ensures ns.Some? ==> (|r| > 1 && r[|r| - 1] == 's' &&
      (forall i :: 0 <= i < |r| - 1 ==> IsDigit(r[i])) && DecimalValue(r[..|r| - 1]) == ns.value / 1_000_000_000)
  {
    match ns
    case None => Failed
    case Some(t) =>
      var digits := Decimal(t / 1_000_000_000);
      DecimalRoundTrip(t / 1_000_000_000);
      assert (digits + "s")[..|digits|] == digits;
      digits + "s"
  }

  /**
   * `size_abr` never gives "n/a", so that cell marks a missing statistic without ambiguity;
   * it gives "N/A" only at or above its limit.
   */
  lemma SizeAbrSentinels(num: int, shiftBy: int, twoPlaces: real -> string)
    ensures SizeAbr(num, shiftBy, twoPlaces) != Failed
    ensures num * shiftBy < Limit ==> SizeAbr(num, shiftBy, twoPlaces) != Missing
  {
    var s := SizeAbr(num, shiftBy, twoPlaces);
    var a := Abbreviate(num, shiftBy);
    if a.Banded? && a.band == Raw {
      SizeAbrShape(num, shiftBy, twoPlaces);
    } else if a.Banded? {
      assert s[|s| - 1] == 'B';
    }
  }

  /** The `mem_actual` cell: the balloon size scaled from KiB, or "n/a" when not reported. */
  function MemActualCell(stats: map<string, int>, twoPlaces: real -> string): (r: string)
    ensures r == Failed <==> "actual" !in stats
  {
    if "actual" in stats then
      SizeAbrSentinels(stats["actual"], 1000, twoPlaces);
      SizeAbr(stats["actual"], 1000, twoPlaces)
    else Failed
  }

  /** The `mem_unused` cell: the available memory scaled from KiB, or "N/A" when not reported. */
  function MemUnusedCell(stats: map<string, int>, twoPlaces: real -> string): (r: string)
    ensures "available" !in stats ==> r == Missing
    ensures "available" in stats && stats["available"] * 1000 < Limit ==> r != Missing
  {
    if "available" in stats then
      SizeAbrSentinels(stats["available"], 1000, twoPlaces);
      SizeAbr(stats["available"], 1000, twoPlaces)
    else Missing
  }

  /** The appends before the first call that can raise. */
  function HeadSteps(d: DomainInfo, uri: string, twoPlaces: real -> string): seq<Step>
  {
    [ Step(Uri, uri), Step(SnapshotCounts, Decimal(d.snapshotCount)), Step(CpuTimes, CpuCell(d.cpuTimeNs)),
      Step(Name, d.name), Step(MemActual, MemActualCell(d.memoryStats, twoPlaces)),
      Step(MemUnused, MemUnusedCell(d.memoryStats, twoPlaces)) ]
  }

  /** Network bytes: written from field 4 (tx), read from field 0 (rx). */
  function NetSteps(st: InterfaceStats, twoPlaces: real -> string): seq<Step>
  {
    [Step(WriteBytes, SizeAbr(st.4, 1, twoPlaces)), Step(ReadBytes, SizeAbr(st.0, 1, twoPlaces))]
  }

  function PoolSteps(names: seq<string>): (r: seq<Step>)
    ensures |r| == |names|
    ensures forall k :: 0 <= k < |names| ==> r[k] == Step(MemoryPool, names[k])
  {
    seq(|names|, k requires 0 <= k < |names| => Step(MemoryPool, names[k]))
  }

  /** Disk bytes: read from field 1, written from field 3. */
  function DiskSteps(b: BlockStats, twoPlaces: real -> string): seq<Step>
  {
    [Step(DiskReads, SizeAbr(b.1, 1, twoPlaces)), Step(DiskWrites, SizeAbr(b.3, 1, twoPlaces))]
  }

  function AddressSteps(mac: string, arp: map<string, string>): seq<Step>
  {
    [Step(Macs, mac), Step(Ips, Arp.IpFor(arp, mac))]
  }

  /** The pool loop's outcome: the cells for `memory_pool`, or the exception the disk path causes. */
  function PoolOutcome(source: DiskSource, pools: seq<Pool>): Result<seq<string>, SampleError>
  {
    match source
    case NoSourceElement => Err(NoDiskSource)
    case NoFileAttribute => if |pools| > 0 then Err(DiskPathUnset) else Ok([Missing])
    case SourceFile(path) => Ok(PoolEntries(Basename(path), pools))
  }

  /** The appends after the pool loop: disk bytes, then the MAC address and its IP. */
  function TailTrace(d: DomainView, arp: map<string, string>, twoPlaces: real -> string): Trace
  {
    if "file" !in d.diskInfo then Trace([], Some(NoDiskFile))
    else if d.info.blockStats.None? then Trace([], Some(NoBlockStats))
    else
      var io := DiskSteps(d.info.blockStats.value, twoPlaces);
      var info := d.networkInfo;
      if "address" !in info then Trace(io, Some(NoMacAddress))
      else Trace(io + AddressSteps(info["address"], arp), None)
  }

  /** The appends one iteration of the loop makes for a domain, and the exception that ends it. */
  function DomainTrace(d: DomainView, pools: seq<Pool>, arp: map<string, string>, uri: string,
                       twoPlaces: real -> string): Trace
  {
    var head := HeadSteps(d.info, uri, twoPlaces);
    if d.info.interfaceStats.None? then Trace(head, Some(NoInterfaceStats))
    else
      var net := head + NetSteps(d.info.interfaceStats.value, twoPlaces);
      var outcome := PoolOutcome(d.info.diskSource, pools);
      if outcome.Err? then Trace(net, Some(outcome.error))
      else
        var tail := TailTrace(d, arp, twoPlaces);
        Trace(net + PoolSteps(outcome.value) + tail.steps, tail.error)
  }

  /** Consecutive iterations, run until the first of them raises: the appends made, and that exception. */
  function Chain(ts: seq<Trace>): Trace
  {
    if ts == [] then Trace([], None)
    else
      var t := Chain(ts[..|ts| - 1]);
      if t.error.Some? then t else Trace(t.steps + ts[|ts| - 1].steps, ts[|ts| - 1].error)
  }

  /** What each domain's iteration would do, taken on its own. */
  function Traces(ds: seq<DomainView>, pools: seq<Pool>, arp: map<string, string>, uri: string,
                  twoPlaces: real -> string): (r: seq<Trace>)
    ensures |r| == |ds|
  {
    seq(|ds|, i requires 0 <= i < |ds| => DomainTrace(ds[i], pools, arp, uri, twoPlaces))
  }

  /** The appends of the whole loop over the domains; it stops at the first exception. */
  function FillTrace(ds: seq<DomainView>, pools: seq<Pool>, arp: map<string, string>, uri: string,
                     twoPlaces: real -> string): Trace
  {
    Chain(Traces(ds, pools, arp, uri, twoPlaces))
  }

  /** The pool loop stopped at the first match: exactly one cell, the first holder or "N/A". */
  method AppendFirstPool(v: VirtData, volume: string)
    modifies v
    ensures v.Snapshot() == old(v.Snapshot()).(memoryPool := old(v.memoryPool) + [FirstMatch(volume, v.pools)])
    ensures v.pools == old(v.pools)
  {
    var k := 0;
    while k < |v.pools|
      invariant 0 <= k <= |v.pools|
      invariant FirstMatch(volume, v.pools[k..]) == FirstMatch(volume, v.pools)
      invariant v.Snapshot() == old(v.Snapshot()) && v.pools == old(v.pools)
    {
      var pool := v.pools[k];
      assert v.pools[k..][1..] == v.pools[k + 1..];
      if volume in pool.volumes {
        v.Append(Step(MemoryPool, pool.name));
        return;
      }
      k := k + 1;
    }
    v.Append(Step(MemoryPool, Missing));
  }

  /** The pool loop: every pool holding the volume appends its name; "N/A" when none did. */
  method AppendPools(v: VirtData, volume: string)
    modifies v
    ensures v.Snapshot() == Replay(old(v.Snapshot()), PoolSteps(PoolEntries(volume, old(v.pools))))
    ensures v.pools == old(v.pools)
  {
    var found := false;
    for k := 0 to |v.pools|
      invariant v.pools == old(v.pools)
      invariant v.Snapshot() == Replay(old(v.Snapshot()), PoolSteps(MatchingNames(volume, v.pools[..k])))
      invariant found <==> MatchingNames(volume, v.pools[..k]) != []
    {
      var pool := v.pools[k];
      assert v.pools[..k + 1][..k] == v.pools[..k];
      if volume in pool.volumes {
        assert PoolSteps(MatchingNames(volume, v.pools[..k + 1]))
          == PoolSteps(MatchingNames(volume, v.pools[..k])) + [Step(MemoryPool, pool.name)];
        ReplaySnoc(old(v.Snapshot()), PoolSteps(MatchingNames(volume, v.pools[..k])), Step(MemoryPool, pool.name));
        v.Append(Step(MemoryPool, pool.name));
        found := true;
      } else {
        assert MatchingNames(volume, v.pools[..k + 1]) == MatchingNames(volume, v.pools[..k]);
      }
    }
    assert v.pools[..|v.pools|] == v.pools;
    if !found {
      assert PoolSteps([Missing]) == [] + [Step(MemoryPool, Missing)];
      ReplaySnoc(old(v.Snapshot()), [], Step(MemoryPool, Missing));
      v.Append(Step(MemoryPool, Missing));
    }
  }

  /** Finding the disk's volume in the v.pools: the pool loop, or the exception the disk path causes. */
  method AppendPoolCells(v: VirtData, source: DiskSource) returns (err: Option<SampleError>)
    modifies v
    ensures var o := PoolOutcome(source, old(v.pools));
      && (o.Err? ==> err == Some(o.error) && v.Snapshot() == old(v.Snapshot()))
      && (o.Ok? ==> err.None? && v.Snapshot() == Replay(old(v.Snapshot()), PoolSteps(o.value)))
    ensures v.pools == old(v.pools)
  {
    match source {
      case NoSourceElement =>
        return Some(NoDiskSource);
      case NoFileAttribute =>
        if |v.pools| > 0 {
          return Some(DiskPathUnset);
        }
        AppendPools(v, []);
        assert MatchingNames([], v.pools) == [];
        return None;
      case SourceFile(path) =>
        AppendPools(v, Basename(path));
        return None;
    }
  }

  /** The rest of an iteration: disk bytes, then the MAC address and its IP. */
  method AppendTail(v: VirtData, d: DomainInfo, arp: map<string, string>, twoPlaces: real -> string)
    returns (err: Option<SampleError>)
    modifies v
    ensures var t := TailTrace(View(d), arp, twoPlaces);
      err == t.error && v.Snapshot() == Replay(old(v.Snapshot()), t.steps)
    ensures v.pools == old(v.pools)
  {
    var diskInfo := GetDiskInfo(d.descriptor);
    if "file" !in diskInfo {
      return Some(NoDiskFile);
    }
    if d.blockStats.None? {
      return Some(NoBlockStats);
    }
    ghost var start := v.Snapshot();
    var io := DiskSteps(d.blockStats.value, twoPlaces);
    v.AppendAll(io);
    var networkInfo := GetNetworkInfo(d.descriptor);
    if "address" !in networkInfo {
      return Some(NoMacAddress);
    }
    var rest := AddressSteps(networkInfo["address"], arp);
    v.AppendAll(rest);
    ReplayAppend(start, io, rest);
    return None;
  }

  /** One iteration of the loop in `fill_virt_data_uri`. */
  method AppendDomain(v: VirtData, d: DomainInfo, arp: map<string, string>, uriName: string, twoPlaces: real -> string)
    returns (err: Option<SampleError>)
    modifies v
    ensures var t := DomainTrace(View(d), old(v.pools), arp, uriName, twoPlaces);
      err == t.error && v.Snapshot() == Replay(old(v.Snapshot()), t.steps)
    ensures v.pools == old(v.pools)
  {
    ghost var start := v.Snapshot();
    var head := HeadSteps(d, uriName, twoPlaces);
    v.AppendAll(head);
    if d.interfaceStats.None? {
      return Some(NoInterfaceStats);
    }
    var net := NetSteps(d.interfaceStats.value, twoPlaces);
    v.AppendAll(net);
    ReplayAppend(start, head, net);
    err := AppendPoolCells(v, d.diskSource);
    if err.Some? {
      return err;
    }
    ghost var cells := PoolSteps(PoolOutcome(d.diskSource, v.pools).value);
    ReplayAppend(start, head + net, cells);
    err := AppendTail(v, d, arp, twoPlaces);
    ReplayAppend(start, head + net + cells, TailTrace(View(d), arp, twoPlaces).steps);
  }

  /** `fill_virt_data_uri`: the loop over the running domains of one URI. */
  method FillUri(v: VirtData, domains: seq<DomainInfo>, arp: map<string, string>, uriName: string, twoPlaces: real -> string)
    returns (err: Option<SampleError>)
    modifies v
    ensures var t := FillTrace(Views(domains), old(v.pools), arp, uriName, twoPlaces);
      err == t.error && v.Snapshot() == Replay(old(v.Snapshot()), t.steps)
    ensures v.pools == old(v.pools)
  {
    ghost var start := v.Snapshot();
    ghost var views := Views(domains);
    ghost var ts := Traces(views, v.pools, arp, uriName, twoPlaces);
    for i := 0 to |domains|
      invariant v.pools == old(v.pools)
      invariant Chain(ts[..i]).error.None?
      invariant v.Snapshot() == Replay(start, Chain(ts[..i]).steps)
    {
      ChainPrefix(ts, i);
      err := AppendDomain(v, domains[i], arp, uriName, twoPlaces);
      ReplayAppend(start, Chain(ts[..i]).steps, ts[i].steps);
      if err.Some? {
        ChainPrefixError(ts, i);
        return err;
      }
    }
    assert ts[..|domains|] == ts;
    return None;
  }

  /** One more iteration: it runs unless an earlier one raised. */
  lemma ChainPrefix(ts: seq<Trace>, i: nat)
    requires i < |ts|
    ensures Chain(ts[..i + 1]) == if Chain(ts[..i]).error.Some? then Chain(ts[..i]) else Trace(Chain(ts[..i]).steps + ts[i].steps, ts[i].error)
  {
    assert ts[..i + 1][..i] == ts[..i];
  }

  /** Once an iteration raises, the later ones are not run. */
  lemma {:induction false} ChainPrefixError(ts: seq<Trace>, i: nat)
    requires i < |ts|
    requires Chain(ts[..i + 1]).error.Some?
    ensures Chain(ts) == Chain(ts[..i + 1])
    decreases |ts|
  {
    if i + 1 < |ts| {
      var init := ts[..|ts| - 1];
      assert init[..i + 1] == ts[..i + 1];
      ChainPrefixError(init, i);
    } else {
      assert ts[..i + 1] == ts;
    }
  }

  /** The run completes exactly when no iteration raises. */
  lemma {:induction false} ChainSucceeds(ts: seq<Trace>)
    ensures Chain(ts).error.None? <==> forall i :: 0 <= i < |ts| ==> ts[i].error.None?
  {
    if ts != [] {
      var init := ts[..|ts| - 1];
      ChainSucceeds(init);
      assert forall i :: 0 <= i < |init| ==> init[i] == ts[i];
    }
  }

  /** Whether each call an iteration depends on succeeds. */
  predicate Completes(d: DomainView, pools: seq<Pool>, arp: map<string, string>, uri: string, twoPlaces: real -> string)
  {
    && d.info.interfaceStats.Some?
    && PoolOutcome(d.info.diskSource, pools).Ok?
    && "file" in d.diskInfo
    && d.info.blockStats.Some?
    && "address" in d.networkInfo
  }

  /** An iteration completes exactly when each call it depends on succeeds. */
  lemma DomainSucceeds(d: DomainView, pools: seq<Pool>, arp: map<string, string>, uri: string, twoPlaces: real -> string)
    ensures DomainTrace(d, pools, arp, uri, twoPlaces).error.None? <==> Completes(d, pools, arp, uri, twoPlaces)
  {
  }

  /**
   * That is: the interface statistics, the disk path (or no pools to look it up in), the
   * descriptor's disk file, the block statistics and the interface's MAC address are all
   * available.
   */
  lemma CompletesWhen(d: DomainView, pools: seq<Pool>, arp: map<string, string>, uri: string, twoPlaces: real -> string)
    ensures Completes(d, pools, arp, uri, twoPlaces) <==>
      && d.info.interfaceStats.Some?
      && (d.info.diskSource.SourceFile? || (d.info.diskSource.NoFileAttribute? && pools == []))
      && "file" in d.diskInfo
      && d.info.blockStats.Some?
      && "address" in d.networkInfo
  {
  }

  /** The cells a completed iteration appends, column by column; `pools` holds the `memory_pool` cells. */
  datatype Row = Row(
    uri: string, snapshots: string, cpu: string, name: string, memActual: string, memUnused: string,
    writeBytes: string, readBytes: string, pools: seq<string>, diskReads: string, diskWrites: string,
    mac: string, ip: string)

  /** The row of a domain whose iteration completes. */
  function RowOf(d: DomainView, pools: seq<Pool>, arp: map<string, string>, uri: string, twoPlaces: real -> string): Row
    requires Completes(d, pools, arp, uri, twoPlaces)
  {
    var st := d.info.interfaceStats.value;
    var b := d.info.blockStats.value;
    var mac := d.networkInfo["address"];
    Row(uri, Decimal(d.info.snapshotCount), CpuCell(d.info.cpuTimeNs), d.info.name, MemActualCell(d.info.memoryStats, twoPlaces),
        MemUnusedCell(d.info.memoryStats, twoPlaces), SizeAbr(st.4, 1, twoPlaces), SizeAbr(st.0, 1, twoPlaces),
        PoolOutcome(d.info.diskSource, pools).value, SizeAbr(b.1, 1, twoPlaces), SizeAbr(b.3, 1, twoPlaces),
        mac, Arp.IpFor(arp, mac))
  }

  /** The columns with a row appended: one cell to each per-domain column, the pool cells to `memory_pool`. */
  function Extend(cols: Columns, r: Row): Columns
  {
    cols.(
      uri := cols.uri + [r.uri],
      snapshotCounts := cols.snapshotCounts + [r.snapshots],
      cpuTimes := cols.cpuTimes + [r.cpu],
      name := cols.name + [r.name],
      memActual := cols.memActual + [r.memActual],
      memUnused := cols.memUnused + [r.memUnused],
      writeBytes := cols.writeBytes + [r.writeBytes],
      readBytes := cols.readBytes + [r.readBytes],
      memoryPool := cols.memoryPool + r.pools,
      diskReads := cols.diskReads + [r.diskReads],
      diskWrites := cols.diskWrites + [r.diskWrites],
      macs := cols.macs + [r.mac],
      ips := cols.ips + [r.ip])
  }

  /** The columns that receive exactly one cell per domain; `vm_id` and `memory_pool` do not. */
  predicate PerDomain(c: Column)
  {
    c != VmId && c != MemoryPool
  }

  lemma ExtendShape(cols: Columns, r: Row)
    ensures forall c :: PerDomain(c) ==> |Col(Extend(cols, r), c)| == |Col(cols, c)| + 1
    ensures Extend(cols, r).vmId == cols.vmId
    ensures Extend(cols, r).name == cols.name + [r.name]
    ensures Extend(cols, r).memoryPool == cols.memoryPool + r.pools
  {
  }

  /** The columns after the rows, in order. */
  function ExtendAll(cols: Columns, rows: seq<Row>): Columns
  {
    if rows == [] then cols else Extend(ExtendAll(cols, rows[..|rows| - 1]), rows[|rows| - 1])
  }

  function RowNames(rows: seq<Row>): (r: seq<string>)
    ensures |r| == |rows|
    ensures forall i :: 0 <= i < |rows| ==> r[i] == rows[i].name
  {
    seq(|rows|, i requires 0 <= i < |rows| => rows[i].name)
  }

  /** Rows add one cell per row to each per-domain column, their names to `name`, and nothing to `vm_id`. */
  lemma {:induction false} ExtendAllShape(cols: Columns, rows: seq<Row>)
    ensures forall c :: PerDomain(c) ==> |Col(ExtendAll(cols, rows), c)| == |Col(cols, c)| + |rows|
    ensures ExtendAll(cols, rows).vmId == cols.vmId
    ensures ExtendAll(cols, rows).name == cols.name + RowNames(rows)
  {
    if rows != [] {
      var init := rows[..|rows| - 1];
      ExtendAllShape(cols, init);
      ExtendShape(ExtendAll(cols, init), rows[|rows| - 1]);
      assert RowNames(rows) == RowNames(init) + [rows[|rows| - 1].name];
    }
  }

  /**
   * Rows with at least one pool cell each add at least one cell per row to `memory_pool`;
   * exactly one per row when every row has one, more when some row has several.
   */
  lemma {:induction false} ExtendAllPools(cols: Columns, rows: seq<Row>)
    requires forall i :: 0 <= i < |rows| ==> |rows[i].pools| >= 1
    ensures |ExtendAll(cols, rows).memoryPool| >= |cols.memoryPool| + |rows|
    ensures (forall i :: 0 <= i < |rows| ==> |rows[i].pools| == 1) ==>
      |ExtendAll(cols, rows).memoryPool| == |cols.memoryPool| + |rows|
    ensures (exists i :: 0 <= i < |rows| && |rows[i].pools| > 1) ==>
      |ExtendAll(cols, rows).memoryPool| > |cols.memoryPool| + |rows|
  {
    if rows != [] {
      var init := rows[..|rows| - 1];
      var last := rows[|rows| - 1];
      assert forall i :: 0 <= i < |init| ==> init[i] == rows[i];
      ExtendAllPools(cols, init);
      ExtendShape(ExtendAll(cols, init), last);
      if exists i :: 0 <= i < |rows| && |rows[i].pools| > 1 {
        var i :| 0 <= i < |rows| && |rows[i].pools| > 1;
        if i < |rows| - 1 {
          assert |init[i].pools| > 1;
        }
      }
    }
  }

  /** The rows of the domains, in order. */
  function RowsOf(ds: seq<DomainView>, pools: seq<Pool>, arp: map<string, string>, uri: string,
                  twoPlaces: real -> string): (r: seq<Row>)
    requires AllComplete(ds, pools, arp, uri, twoPlaces)
    ensures |r| == |ds|
  {
    seq(|ds|, i requires 0 <= i < |ds| => RowOf(ds[i], pools, arp, uri, twoPlaces))
  }

  /** The columns after a row for each domain, in order. */
  function RowsAdded(cols: Columns, ds: seq<DomainView>, pools: seq<Pool>, arp: map<string, string>, uri: string,
                     twoPlaces: real -> string): Columns
    requires AllComplete(ds, pools, arp, uri, twoPlaces)
  {
    ExtendAll(cols, RowsOf(ds, pools, arp, uri, twoPlaces))
  }

  lemma ReplayPair(cols: Columns, a: Step, b: Step)
    ensures Replay(cols, [a, b]) == Put(Put(cols, a), b)
  {
    ReplaySnoc(cols, [a], b);
    assert [a] + [b] == [a, b];
    assert [a][..0] == [];
  }

  lemma {:induction false} ReplayPoolSteps(cols: Columns, names: seq<string>)
    ensures Replay(cols, PoolSteps(names)) == cols.(memoryPool := cols.memoryPool + names)
  {
    if names == [] {
      assert PoolSteps(names) == [];
    } else {
      var init := names[..|names| - 1];
      ReplayPoolSteps(cols, init);
      assert PoolSteps(names) == PoolSteps(init) + [Step(MemoryPool, names[|names| - 1])];
      ReplaySnoc(cols, PoolSteps(init), Step(MemoryPool, names[|names| - 1]));
      assert init + [names[|names| - 1]] == names;
    }
  }

  lemma ReplayIdentity(cols: Columns, uri: string, count: string)
    ensures Replay(cols, [Step(Uri, uri), Step(SnapshotCounts, count)]) ==
      cols.(uri := cols.uri + [uri], snapshotCounts := cols.snapshotCounts + [count])
  {
    ReplayPair(cols, Step(Uri, uri), Step(SnapshotCounts, count));
  }

  lemma ReplayCpuName(cols: Columns, cpu: string, name: string)
    ensures Replay(cols, [Step(CpuTimes, cpu), Step(Name, name)]) ==
      cols.(cpuTimes := cols.cpuTimes + [cpu], name := cols.name + [name])
  {
    ReplayPair(cols, Step(CpuTimes, cpu), Step(Name, name));
  }

  lemma ReplayMemory(cols: Columns, actual: string, unused: string)
    ensures Replay(cols, [Step(MemActual, actual), Step(MemUnused, unused)]) ==
      cols.(memActual := cols.memActual + [actual], memUnused := cols.memUnused + [unused])
  {
    ReplayPair(cols, Step(MemActual, actual), Step(MemUnused, unused));
  }

  /** The six appends before the interface statistics. */
  lemma ReplayHead(cols: Columns, d: DomainInfo, uri: string, twoPlaces: real -> string)
    ensures Replay(cols, HeadSteps(d, uri, twoPlaces)) == cols.(
      uri := cols.uri + [uri],
      snapshotCounts := cols.snapshotCounts + [Decimal(d.snapshotCount)],
      cpuTimes := cols.cpuTimes + [CpuCell(d.cpuTimeNs)],
      name := cols.name + [d.name],
      memActual := cols.memActual + [MemActualCell(d.memoryStats, twoPlaces)],
      memUnused := cols.memUnused + [MemUnusedCell(d.memoryStats, twoPlaces)])
  {
    var h := HeadSteps(d, uri, twoPlaces);
    var p0, p1, p2 := [h[0], h[1]], [h[2], h[3]], [h[4], h[5]];
    assert h == p0 + p1 + p2;
    ReplayAppend(cols, p0 + p1, p2);
    ReplayAppend(cols, p0, p1);
    ReplayIdentity(cols, uri, Decimal(d.snapshotCount));
    var c1 := Replay(cols, p0);
    ReplayCpuName(c1, CpuCell(d.cpuTimeNs), d.name);
    ReplayMemory(Replay(c1, p1), MemActualCell(d.memoryStats, twoPlaces), MemUnusedCell(d.memoryStats, twoPlaces));
  }

  /** The two appends of the network counters. */
  lemma ReplayNet(cols: Columns, st: InterfaceStats, twoPlaces: real -> string)
    ensures Replay(cols, NetSteps(st, twoPlaces)) == cols.(
      writeBytes := cols.writeBytes + [SizeAbr(st.4, 1, twoPlaces)],
      readBytes := cols.readBytes + [SizeAbr(st.0, 1, twoPlaces)])
  {
    var n := NetSteps(st, twoPlaces);
    ReplayPair(cols, n[0], n[1]);
  }

  lemma ReplayDisk(cols: Columns, read: string, written: string)
    ensures Replay(cols, [Step(DiskReads, read), Step(DiskWrites, written)]) ==
      cols.(diskReads := cols.diskReads + [read], diskWrites := cols.diskWrites + [written])
  {
    ReplayPair(cols, Step(DiskReads, read), Step(DiskWrites, written));
  }

  lemma ReplayAddress(cols: Columns, mac: string, ip: string)
    ensures Replay(cols, [Step(Macs, mac), Step(Ips, ip)]) == cols.(macs := cols.macs + [mac], ips := cols.ips + [ip])
  {
    ReplayPair(cols, Step(Macs, mac), Step(Ips, ip));
  }

  /** The four appends after the pool loop. */
  lemma ReplayTail(cols: Columns, b: BlockStats, mac: string, arp: map<string, string>, twoPlaces: real -> string)
    ensures Replay(cols, DiskSteps(b, twoPlaces) + AddressSteps(mac, arp)) == cols.(
      diskReads := cols.diskReads + [SizeAbr(b.1, 1, twoPlaces)],
      diskWrites := cols.diskWrites + [SizeAbr(b.3, 1, twoPlaces)],
      macs := cols.macs + [mac],
      ips := cols.ips + [Arp.IpFor(arp, mac)])
  {
    var io := DiskSteps(b, twoPlaces);
    var addr := AddressSteps(mac, arp);
    ReplayAppend(cols, io, addr);
    ReplayDisk(cols, SizeAbr(b.1, 1, twoPlaces), SizeAbr(b.3, 1, twoPlaces));
    ReplayAddress(Replay(cols, io), mac, Arp.IpFor(arp, mac));
  }

  /** The trace of an iteration that completes: every append, through the tail, and no exception. */
  lemma CompleteTrace(d: DomainView, pools: seq<Pool>, arp: map<string, string>, uri: string, twoPlaces: real -> string)
    requires Completes(d, pools, arp, uri, twoPlaces)
    ensures DomainTrace(d, pools, arp, uri, twoPlaces) == Trace(HeadSteps(d.info, uri, twoPlaces) +
      NetSteps(d.info.interfaceStats.value, twoPlaces) + PoolSteps(PoolOutcome(d.info.diskSource, pools).value) +
      TailTrace(d, arp, twoPlaces).steps, None)
  {
  }

  lemma CompleteTail(d: DomainView, arp: map<string, string>, twoPlaces: real -> string)
    requires "file" in d.diskInfo && d.info.blockStats.Some?
    requires "address" in d.networkInfo
    ensures TailTrace(d, arp, twoPlaces) == Trace(DiskSteps(d.info.blockStats.value, twoPlaces) +
      AddressSteps(d.networkInfo["address"], arp), None)
  {
  }

  /** The appends of an iteration that completes, taken together, add exactly the domain's row. */
  lemma CompleteRow(cols: Columns, d: DomainView, pools: seq<Pool>, arp: map<string, string>, uri: string, twoPlaces: real -> string)
    requires Completes(d, pools, arp, uri, twoPlaces)
    ensures DomainTrace(d, pools, arp, uri, twoPlaces).error.None?
    ensures Replay(cols, DomainTrace(d, pools, arp, uri, twoPlaces).steps) == Extend(cols, RowOf(d, pools, arp, uri, twoPlaces))
  {
    var h := HeadSteps(d.info, uri, twoPlaces);
    var n := NetSteps(d.info.interfaceStats.value, twoPlaces);
    var names := PoolOutcome(d.info.diskSource, pools).value;
    var p := PoolSteps(names);
    var mac := d.networkInfo["address"];
    var t := DiskSteps(d.info.blockStats.value, twoPlaces) + AddressSteps(mac, arp);
    CompleteTrace(d, pools, arp, uri, twoPlaces);
    CompleteTail(d, arp, twoPlaces);
    ReplayAppend(cols, h + n + p, t);
    ReplayAppend(cols, h + n, p);
    ReplayAppend(cols, h, n);
    ReplayHead(cols, d.info, uri, twoPlaces);
    var c1 := Replay(cols, h);
    ReplayNet(c1, d.info.interfaceStats.value, twoPlaces);
    var c2 := Replay(c1, n);
    ReplayPoolSteps(c2, names);
    ReplayTail(Replay(c2, p), d.info.blockStats.value, mac, arp, twoPlaces);
  }

  /** The volume of a domain's disk is held by at most one pool. */
  predicate SinglePool(d: DomainView, pools: seq<Pool>)
  {
    d.info.diskSource.SourceFile? ==> |MatchingNames(Basename(d.info.diskSource.path), pools)| <= 1
  }

  /**
   * The pool loop appends at least one cell; exactly one when at most one pool holds the
   * volume, and one per pool when several do.
   */
  lemma PoolCellCount(source: DiskSource, pools: seq<Pool>)
    requires PoolOutcome(source, pools).Ok?
    ensures |PoolOutcome(source, pools).value| >= 1
    ensures (source.SourceFile? ==> |MatchingNames(Basename(source.path), pools)| <= 1) ==>
      |PoolOutcome(source, pools).value| == 1
    ensures source.SourceFile? && |MatchingNames(Basename(source.path), pools)| >= 2 ==>
      PoolOutcome(source, pools).value == MatchingNames(Basename(source.path), pools)
  {
    if source.SourceFile? {
      var names := MatchingNames(Basename(source.path), pools);
      assert PoolOutcome(source, pools).value == PoolEntries(Basename(source.path), pools);
      assert |names| == 1 ==> PoolEntries(Basename(source.path), pools) == names;
    }
  }

  /** A domain's row has one pool cell exactly when at most one pool holds its volume, and never none. */
  lemma RowPools(d: DomainView, pools: seq<Pool>, arp: map<string, string>, uri: string, twoPlaces: real -> string)
    requires Completes(d, pools, arp, uri, twoPlaces)
    ensures |RowOf(d, pools, arp, uri, twoPlaces).pools| >= 1
    ensures SinglePool(d, pools) <==> |RowOf(d, pools, arp, uri, twoPlaces).pools| == 1
  {
    PoolCellCount(d.info.diskSource, pools);
  }

  function Names(ds: seq<DomainView>): (r: seq<string>)
    ensures |r| == |ds|
    ensures forall i :: 0 <= i < |ds| ==> r[i] == ds[i].info.name
  {
    seq(|ds|, i requires 0 <= i < |ds| => ds[i].info.name)
  }

  predicate AllComplete(ds: seq<DomainView>, pools: seq<Pool>, arp: map<string, string>, uri: string,
                        twoPlaces: real -> string)
  {
    forall i :: 0 <= i < |ds| ==> Completes(ds[i], pools, arp, uri, twoPlaces)
  }

  /** The loop over the domains completes exactly when every iteration does. */
  lemma FillSucceeds(ds: seq<DomainView>, pools: seq<Pool>, arp: map<string, string>, uri: string,
                     twoPlaces: real -> string)
    ensures FillTrace(ds, pools, arp, uri, twoPlaces).error.None? <==> AllComplete(ds, pools, arp, uri, twoPlaces)
  {
    var ts := Traces(ds, pools, arp, uri, twoPlaces);
    ChainSucceeds(ts);
    forall i | 0 <= i < |ds|
      ensures ts[i].error.None? <==> Completes(ds[i], pools, arp, uri, twoPlaces)
    {
      DomainSucceeds(ds[i], pools, arp, uri, twoPlaces);
    }
  }

  /** Iterations that complete, each adding its row whatever the columns before it, add the rows in order. */
  lemma {:induction false} ChainRows(cols: Columns, ts: seq<Trace>, rows: seq<Row>)
    requires |rows| == |ts|
    requires forall i :: 0 <= i < |ts| ==> ts[i].error.None?
    requires forall i, c :: 0 <= i < |ts| ==> Replay(c, ts[i].steps) == Extend(c, rows[i])
    ensures Replay(cols, Chain(ts).steps) == ExtendAll(cols, rows)
  {
    if ts != [] {
      var init := ts[..|ts| - 1];
      assert forall i :: 0 <= i < |init| ==> init[i] == ts[i] && rows[..|rows| - 1][i] == rows[i];
      ChainRows(cols, init, rows[..|rows| - 1]);
      ChainSucceeds(init);
      ReplayAppend(cols, Chain(init).steps, ts[|ts| - 1].steps);
    }
  }

  /** A loop that completes appends exactly one row per domain. */
  lemma FillRows(cols: Columns, ds: seq<DomainView>, pools: seq<Pool>, arp: map<string, string>,
                 uri: string, twoPlaces: real -> string)
    requires FillTrace(ds, pools, arp, uri, twoPlaces).error.None?
    ensures AllComplete(ds, pools, arp, uri, twoPlaces)
    ensures Replay(cols, FillTrace(ds, pools, arp, uri, twoPlaces).steps) == RowsAdded(cols, ds, pools, arp, uri, twoPlaces)
  {
    FillSucceeds(ds, pools, arp, uri, twoPlaces);
    var ts := Traces(ds, pools, arp, uri, twoPlaces);
    var rows := RowsOf(ds, pools, arp, uri, twoPlaces);
    forall i, c | 0 <= i < |ds|
      ensures ts[i].error.None? && Replay(c, ts[i].steps) == Extend(c, rows[i])
    {
      CompleteRow(c, ds[i], pools, arp, uri, twoPlaces);
    }
    ChainRows(cols, ts, rows);
  }

  /** The rows add the domains' names to `name`, in order, and leave `vm_id` alone. */
  lemma RowsAddedNames(cols: Columns, ds: seq<DomainView>, pools: seq<Pool>, arp: map<string, string>, uri: string, twoPlaces: real -> string)
    requires AllComplete(ds, pools, arp, uri, twoPlaces)
    ensures RowsAdded(cols, ds, pools, arp, uri, twoPlaces).name == cols.name + Names(ds)
    ensures RowsAdded(cols, ds, pools, arp, uri, twoPlaces).vmId == cols.vmId
  {
    var rows := RowsOf(ds, pools, arp, uri, twoPlaces);
    ExtendAllShape(cols, rows);
    assert RowNames(rows) == Names(ds);
  }

  /** Every per-domain column grows by one cell per domain. */
  lemma RowsAddedLengths(cols: Columns, ds: seq<DomainView>, pools: seq<Pool>, arp: map<string, string>, uri: string, twoPlaces: real -> string)
    requires AllComplete(ds, pools, arp, uri, twoPlaces)
    ensures forall c :: PerDomain(c) ==> |Col(RowsAdded(cols, ds, pools, arp, uri, twoPlaces), c)| == |Col(cols, c)| + |ds|
  {
    ExtendAllShape(cols, RowsOf(ds, pools, arp, uri, twoPlaces));
  }

  /**
   * `memory_pool` grows by at least one cell per domain, and by exactly one per domain when
   * no domain's volume is held by two pools.
   */
  lemma RowsAddedPools(cols: Columns, ds: seq<DomainView>, pools: seq<Pool>, arp: map<string, string>, uri: string, twoPlaces: real -> string)
    requires AllComplete(ds, pools, arp, uri, twoPlaces)
    ensures |RowsAdded(cols, ds, pools, arp, uri, twoPlaces).memoryPool| >= |cols.memoryPool| + |ds|
    ensures (forall i :: 0 <= i < |ds| ==> SinglePool(ds[i], pools)) ==>
      |RowsAdded(cols, ds, pools, arp, uri, twoPlaces).memoryPool| == |cols.memoryPool| + |ds|
    ensures (exists i :: 0 <= i < |ds| && !SinglePool(ds[i], pools)) ==>
      |RowsAdded(cols, ds, pools, arp, uri, twoPlaces).memoryPool| > |cols.memoryPool| + |ds|
  {
    var rows := RowsOf(ds, pools, arp, uri, twoPlaces);
    forall i | 0 <= i < |ds|
      ensures |rows[i].pools| >= 1 && (SinglePool(ds[i], pools) <==> |rows[i].pools| == 1)
    {
      RowPools(ds[i], pools, arp, uri, twoPlaces);
    }
    ExtendAllPools(cols, rows);
    if exists i :: 0 <= i < |ds| && !SinglePool(ds[i], pools) {
      var i :| 0 <= i < |ds| && !SinglePool(ds[i], pools);
      assert |rows[i].pools| > 1;
    }
  }

  /** The column titles `main` passes to `ffs`. */
  const Titles: seq<string> := ["ID", "NAME", "CPU", "MEM_ACTUAL", "MEM_AVAIL", "NET_WRITE_B", "NET_READ_B",
                                "MAC", "IP", "IO_READ_B", "IO_WRITE_B", "SNAPSHOTS", "URI", "STORAGE_POOL"]

  /** The order in which `main` passes the columns to `ffs`; `memory_pool` comes last. */
  const Order: seq<Column> := [VmId, Name, CpuTimes, MemActual, MemUnused, WriteBytes, ReadBytes,
                               Macs, Ips, DiskReads, DiskWrites, SnapshotCounts, Uri, MemoryPool]

  function ScreenColumns(cols: Columns): (r: seq<seq<string>>)
    ensures |r| == |Order|
    ensures forall j :: 0 <= j < |Order| ==> r[j] == Col(cols, Order[j])
  {
    seq(|Order|, j requires 0 <= j < |Order| => Col(cols, Order[j]))
  }

  /** `ffs(2, [titles], False, *columns)` as `main` calls it. */
  function Screen(cols: Columns): Layout.Outcome
  {
    Layout.Table(2, Some(Titles), false, ScreenColumns(cols))
  }

  /** A fresh `VirtData` whose `vm_id` holds the ids of the running domains. */
  function Fresh(vmIds: seq<string>): Columns
  {
    Columns(vmIds, [], [], [], [], [], [], [], [], [], [], [], [], [])
  }

  /** The columns after the loop over the domains of one connection. */
  function Sampled(vmIds: seq<string>, ds: seq<DomainView>, pools: seq<Pool>, arp: map<string, string>, uri: string,
                   twoPlaces: real -> string): Columns
  {
    Replay(Fresh(vmIds), FillTrace(ds, pools, arp, uri, twoPlaces).steps)
  }

  /** Every column `main` shows except the first and the last is a per-domain column. */
  lemma OrderServed()
    ensures forall j :: 1 <= j < |Order| - 1 ==> PerDomain(Order[j])
    ensures Order[0] == VmId && Order[1] == Name && Order[|Order| - 1] == MemoryPool
  {
  }

  /** The column lengths after a loop that completes, starting from a fresh `VirtData`. */
  lemma SampledLengths(vmIds: seq<string>, ds: seq<DomainView>, pools: seq<Pool>, arp: map<string, string>,
                       uri: string, twoPlaces: real -> string)
    requires FillTrace(ds, pools, arp, uri, twoPlaces).error.None?
    ensures var r := Sampled(vmIds, ds, pools, arp, uri, twoPlaces);
      && r.vmId == vmIds
      && (forall c :: PerDomain(c) ==> |Col(r, c)| == |ds|)
      && |r.memoryPool| >= |ds|
      && ((forall i :: 0 <= i < |ds| ==> SinglePool(ds[i], pools)) ==> |r.memoryPool| == |ds|)
      && ((exists i :: 0 <= i < |ds| && !SinglePool(ds[i], pools)) ==> |r.memoryPool| > |ds|)
  {
    FillRows(Fresh(vmIds), ds, pools, arp, uri, twoPlaces);
    FreshRows(vmIds, ds, pools, arp, uri, twoPlaces);
  }

  lemma FreshRows(vmIds: seq<string>, ds: seq<DomainView>, pools: seq<Pool>, arp: map<string, string>,
                  uri: string, twoPlaces: real -> string)
    requires AllComplete(ds, pools, arp, uri, twoPlaces)
    ensures var r := RowsAdded(Fresh(vmIds), ds, pools, arp, uri, twoPlaces);
      && r.vmId == vmIds
      && (forall c :: PerDomain(c) ==> |Col(r, c)| == |ds|)
      && |r.memoryPool| >= |ds|
      && ((forall i :: 0 <= i < |ds| ==> SinglePool(ds[i], pools)) ==> |r.memoryPool| == |ds|)
      && ((exists i :: 0 <= i < |ds| && !SinglePool(ds[i], pools)) ==> |r.memoryPool| > |ds|)
  {
    var cols := Fresh(vmIds);
    RowsAddedNames(cols, ds, pools, arp, uri, twoPlaces);
    RowsAddedLengths(cols, ds, pools, arp, uri, twoPlaces);
    RowsAddedPools(cols, ds, pools, arp, uri, twoPlaces);
    assert forall c :: PerDomain(c) ==> |Col(cols, c)| == 0;
  }

  /** Columns of `n` cells each give the title line and `n` lines. */
  lemma ScreenOfEqualColumns(r: Columns, n: nat)
    requires n > 0 && |r.vmId| == n && |r.memoryPool| == n
    requires forall c :: PerDomain(c) ==> |Col(r, c)| == n
    ensures Screen(r).lines.Ok? && |Screen(r).lines.value| == 1 + n
  {
    var args := ScreenColumns(r);
    OrderServed();
    assert forall j :: 0 <= j < |args| ==> |args[j]| == n;
    Layout.TableOutcome(2, Some(Titles), false, args);
  }

  /**
   * A `memory_pool` column longer than the others sets the row count, so the first row
   * past the end of `vm_id` (the first column) makes `ffs` raise `IndexError`.
   */
  lemma ScreenOfLongPools(r: Columns, n: nat)
    requires n > 0 && |r.vmId| == n && |r.memoryPool| > n
    requires forall c :: PerDomain(c) ==> |Col(r, c)| == n
    ensures Screen(r).lines == Err(Layout.IndexOutOfRange)
  {
    var args := ScreenColumns(r);
    OrderServed();
    assert forall j :: 0 <= j < |args| ==> |args[j]| >= n;
    assert |args[0]| == n && Layout.RowCount(args) == |r.memoryPool|;
    Layout.ShortColumnFails(2, Some(Titles), args, 0);
  }

  /**
   * When no volume is held by two pools, the screen `main` prints for one connection has
   * the title line and one line per domain, provided `vm_id` lists one id per domain.
   */
  lemma ScreenShows(vmIds: seq<string>, ds: seq<DomainView>, pools: seq<Pool>, arp: map<string, string>,
                    uri: string, twoPlaces: real -> string)
    requires FillTrace(ds, pools, arp, uri, twoPlaces).error.None?
    requires |ds| > 0 && |vmIds| == |ds|
    requires forall i :: 0 <= i < |ds| ==> SinglePool(ds[i], pools)
    ensures var out := Screen(Sampled(vmIds, ds, pools, arp, uri, twoPlaces)).lines;
      out.Ok? && |out.value| == 1 + |ds|
  {
    SampledLengths(vmIds, ds, pools, arp, uri, twoPlaces);
    ScreenOfEqualColumns(Sampled(vmIds, ds, pools, arp, uri, twoPlaces), |ds|);
  }

  /**
   * As written, a domain whose volume two pools hold gets two `memory_pool` cells; that
   * column is the last one `ffs` receives and sets the row count, so `ffs` raises
   * `IndexError` at `vm_id`, the first column, and nothing is shown.
   */
  lemma CollidingPoolsBreakScreen(vmIds: seq<string>, ds: seq<DomainView>, pools: seq<Pool>, arp: map<string, string>,
                                  uri: string, twoPlaces: real -> string, i: nat)
    requires FillTrace(ds, pools, arp, uri, twoPlaces).error.None?
    requires |vmIds| == |ds|
    requires i < |ds| && !SinglePool(ds[i], pools)
    ensures Screen(Sampled(vmIds, ds, pools, arp, uri, twoPlaces)).lines == Err(Layout.IndexOutOfRange)
  {
    SampledLengths(vmIds, ds, pools, arp, uri, twoPlaces);
    ScreenOfLongPools(Sampled(vmIds, ds, pools, arp, uri, twoPlaces), |ds|);
  }

  /** A volume listed by two pools: the loop appends both names. */
  lemma SharedVolume()
    ensures var pools := [Pool("default", ["vm.img"]), Pool("backup", ["vm.img", "other.img"])];
      && Basename("/images/vm.img") == "vm.img"
      && PoolOutcome(SourceFile("/images/vm.img"), pools) == Ok(["default", "backup"])
  {
    var path := "/images/vm.img";
    assert path[..8] == "/images/";
    assert Basename(path[..8]) == [];
    assert path[8..] == "vm.img";
    var pools := [Pool("default", ["vm.img"]), Pool("backup", ["vm.img", "other.img"])];
    assert pools[..1] == [pools[0]];
    assert [pools[0]][..0] == [];
    assert MatchingNames("vm.img", pools[..1]) == ["default"];
    assert pools[1].volumes[0] == "vm.img";
    assert MatchingNames("vm.img", pools) == ["default"] + ["backup"];
    assert Basename(path) == "vm.img";
    assert PoolEntries("vm.img", pools) == ["default", "backup"];
  }

  /** Matching seen from the front: the first pool's name, if it holds the volume, then the rest. */
  lemma {:induction false} MatchingNamesCons(volume: string, p: Pool, rest: seq<Pool>)
    ensures MatchingNames(volume, [p] + rest) ==
      (if volume in p.volumes then [p.name] else []) + MatchingNames(volume, rest)
  {
    if rest == [] {
      assert [p] + rest == [p];
      assert [p][..0] == [];
    } else {
      var init := rest[..|rest| - 1];
      MatchingNamesCons(volume, p, init);
      assert ([p] + rest)[..|rest|] == [p] + init;
    }
  }

  /** The pool loop with a `break` after the first match: the first pool holding the volume, or "N/A". */
  function FirstMatch(volume: string, pools: seq<Pool>): (r: string)
    ensures MatchingNames(volume, pools) == [] ==> r == Missing
    ensures MatchingNames(volume, pools) != [] ==> r == MatchingNames(volume, pools)[0]
    decreases |pools|
  {
    if pools == [] then Missing
    else
      MatchingNamesCons(volume, pools[0], pools[1..]);
      assert [pools[0]] + pools[1..] == pools;
      if volume in pools[0].volumes then pools[0].name else FirstMatch(volume, pools[1..])
  }

  /** The pool outcome with that correction: one cell per domain whatever the pools hold. */
  function FirstPoolOutcome(source: DiskSource, pools: seq<Pool>): (r: Result<seq<string>, SampleError>)
    ensures r.Ok? <==> PoolOutcome(source, pools).Ok?
    ensures r.Ok? ==> |r.value| == 1
    ensures r.Ok? && |PoolOutcome(source, pools).value| == 1 ==> r == PoolOutcome(source, pools)
    ensures r.Ok? && source.SourceFile? && MatchingNames(Basename(source.path), pools) != [] ==>
      r.value[0] in MatchingNames(Basename(source.path), pools)
  {
    match source
    case NoSourceElement => Err(NoDiskSource)
    case NoFileAttribute => if |pools| > 0 then Err(DiskPathUnset) else Ok([Missing])
    case SourceFile(path) =>
      var names := MatchingNames(Basename(path), pools);
      assert |names| == 1 ==> names == [names[0]];
      Ok([FirstMatch(Basename(path), pools)])
  }

  /** The correction changes nothing when no volume is held by two pools. */
  lemma FirstPoolAgrees(source: DiskSource, pools: seq<Pool>)
    requires source.SourceFile? ==> |MatchingNames(Basename(source.path), pools)| <= 1
    ensures FirstPoolOutcome(source, pools) == PoolOutcome(source, pools)
  {
    if PoolOutcome(source, pools).Ok? {
      PoolCellCount(source, pools);
    }
  }

  /** Whether some pool holds the volume. */
  predicate Held(volume: string, pools: seq<Pool>)
  {
    exists i :: 0 <= i < |pools| && volume in pools[i].volumes
  }

  /** The volumes that none of the earlier pools holds, in order. */
  function Unclaimed(volumes: seq<string>, earlier: seq<Pool>): (r: seq<string>)
    ensures forall x :: x in r <==> x in volumes && !Held(x, earlier)
  {
    if volumes == [] then []
    else (if Held(volumes[0], earlier) then [] else [volumes[0]]) + Unclaimed(volumes[1..], earlier)
  }

  /** The pools with each volume left only to the first pool that holds it. */
  function FirstHolders(pools: seq<Pool>): (r: seq<Pool>)
    ensures |r| == |pools|
    ensures forall i :: 0 <= i < |pools| ==> r[i] == Pool(pools[i].name, Unclaimed(pools[i].volumes, pools[..i]))
  {
    seq(|pools|, i requires 0 <= i < |pools| => Pool(pools[i].name, Unclaimed(pools[i].volumes, pools[..i])))
  }

  /** No pool name is listed exactly when no pool holds the volume. */
  lemma {:induction false} MatchingNamesEmpty(volume: string, pools: seq<Pool>)
    ensures MatchingNames(volume, pools) == [] <==> !Held(volume, pools)
  {
    if pools != [] {
      var init := pools[..|pools| - 1];
      MatchingNamesEmpty(volume, init);
      if Held(volume, init) {
        var i :| 0 <= i < |init| && volume in init[i].volumes;
        assert volume in pools[i].volumes;
      }
      if Held(volume, pools) {
        var i :| 0 <= i < |pools| && volume in pools[i].volumes;
        if i < |init| {
          assert init[i] == pools[i];
        }
      }
    }
  }

  /** The first holders of all but the last pool, then the last pool with the volumes no earlier pool holds. */
  lemma FirstHoldersSnoc(pools: seq<Pool>)
    requires pools != []
    ensures var init := pools[..|pools| - 1];
      && FirstHolders(pools)[..|pools| - 1] == FirstHolders(init)
      && FirstHolders(pools)[|pools| - 1] == Pool(pools[|pools| - 1].name, Unclaimed(pools[|pools| - 1].volumes, init))
  {
    var init := pools[..|pools| - 1];
    forall i | 0 <= i < |init|
      ensures FirstHolders(pools)[i] == FirstHolders(init)[i]
    {
      assert pools[..i] == init[..i];
    }
  }

  lemma MatchingNamesSnoc(volume: string, pools: seq<Pool>)
    requires pools != []
    ensures var last := pools[|pools| - 1];
      MatchingNames(volume, pools) ==
        MatchingNames(volume, pools[..|pools| - 1]) + if volume in last.volumes then [last.name] else []
  {
  }

  /** Over the first holders, matching lists at most the first pool that holds the volume. */
  lemma {:induction false} FirstHoldersMatch(volume: string, pools: seq<Pool>)
    ensures var names := MatchingNames(volume, pools);
      MatchingNames(volume, FirstHolders(pools)) == if names == [] then [] else [names[0]]
  {
    if pools != [] {
      var init := pools[..|pools| - 1];
      var last := pools[|pools| - 1];
      var fh := FirstHolders(pools);
      FirstHoldersMatch(volume, init);
      MatchingNamesEmpty(volume, init);
      FirstHoldersSnoc(pools);
      var before := MatchingNames(volume, FirstHolders(init));
      var lastNames := if volume in fh[|pools| - 1].volumes then [last.name] else [];
      MatchingNamesSnoc(volume, fh);
      assert volume in fh[|pools| - 1].volumes <==> volume in last.volumes && !Held(volume, init);
    }
  }

  /** Stopping at the first match is the as-written loop run over the first holders. */
  lemma FirstHoldersOutcome(source: DiskSource, pools: seq<Pool>)
    ensures PoolOutcome(source, FirstHolders(pools)) == FirstPoolOutcome(source, pools)
  {
    if source.SourceFile? {
      FirstHoldersMatch(Basename(source.path), pools);
    }
  }

  /**
   * With the pool loop stopped at the first match, every domain gets one `memory_pool`
   * cell, and the screen `main` prints for a connection whose loop completes has the title
   * line and one line per domain, whatever volumes the pools share.
   */
  lemma CorrectedScreenShows(vmIds: seq<string>, ds: seq<DomainView>, pools: seq<Pool>, arp: map<string, string>,
                             uri: string, twoPlaces: real -> string)
    requires FillTrace(ds, pools, arp, uri, twoPlaces).error.None?
    requires |ds| > 0 && |vmIds| == |ds|
    ensures FillTrace(ds, FirstHolders(pools), arp, uri, twoPlaces).error.None?
    ensures var out := Screen(Sampled(vmIds, ds, FirstHolders(pools), arp, uri, twoPlaces)).lines;
      out.Ok? && |out.value| == 1 + |ds|
  {
    var fh := FirstHolders(pools);
    FillSucceeds(ds, pools, arp, uri, twoPlaces);
    FillSucceeds(ds, fh, arp, uri, twoPlaces);
    forall i | 0 <= i < |ds|
      ensures Completes(ds[i], fh, arp, uri, twoPlaces) && SinglePool(ds[i], fh)
    {
      var source := ds[i].info.diskSource;
      FirstHoldersOutcome(source, pools);
      if source.SourceFile? {
        FirstHoldersMatch(Basename(source.path), pools);
      }
    }
    ScreenShows(vmIds, ds, fh, arp, uri, twoPlaces);
  }
}
