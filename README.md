# virttop sampling and layout, modelled in Dafny

This project models the core of `virttop/virttop.py`, an early version of a terminal
dashboard for libvirt hosts. Each refresh samples the running domains of a connection
into parallel string columns, lays the columns out as text lines, and prints them.
The model covers the parts of that refresh that compute:

- `ffs`, the columnar printer (`layout.dfy`, module `Layout`). It sizes columns from
  the `repr` length of their values, widens them for the header, and emits the header
  line and one line per row. In numbered mode it inserts `"idx"` into the caller's
  header list, which is a `HeaderList` object. `Ffs` is the imperative method and
  `Table` the function it is proved against. Text helpers (`ljust`, `"".join`, `repr`
  of an int, the length of `repr` of a str) are in `text.dfy`.
- `size_abr`, the unit banding (`units.dfy`, module `Units`).
- The ARP table (`arp.dfy`, module `Arp`): the csv reader's split on spaces, the parse
  loop of `get_arp_table`, and `get_ip_from_arp_table`. A dict filled by assignment in
  a loop is modelled once, in `pairs.dfy`.
- `get_network_info` and `get_disk_info` (`descriptor.dfy`, module `Descriptor`), over a
  parsed descriptor tree.
- `VirtData` (`collect.dfy`, module `Collect`): a class with one `seq<string>` field per
  column and the pools of the current connection. `Columns` is the same state as a
  value.
- The per-domain loop of `fill_virt_data_uri` with its pool matching, and `main`'s call
  of `ffs` on the collected columns (`sampler.dfy`, module `Sampler`). Every libvirt
  answer about a domain is an input (`DomainInfo`). An exception that escapes an
  iteration is an `Option<SampleError>` result. The source does not catch these, so the
  loop stops with the columns filled so far. `DomainTrace` lists the appends of one
  iteration and `FillTrace` those of the whole loop. The methods are proved to leave
  the `VirtData` in the state those appends give.

## Model

| member | source | states |
|---|---|---|
| Layout.Maximum | virttop/virttop.py:184 | `max` over a non-empty sequence: an upper bound of every element, equal to one of them |
| Layout.ColumnWidths | virttop/virttop.py:183-184 | the first loop succeeds exactly when no column is empty; it then yields each column's largest `repr` length; otherwise `ValueError` |
| Layout.ApplyHeader | virttop/virttop.py:194-196 | width i becomes `max(len(header[i]), width[i]) + offset` while both lists last; the other widths are kept |
| Layout.HeaderLine | virttop/virttop.py:198-205 | the header line joins every header entry left-justified to its column's width |
| Layout.JustifyCells | virttop/virttop.py:214-218 | the inner row loop yields `arg[i].ljust(width)` for each pair of the zip; it fails exactly when a column it reads has no element i |
| Layout.RowLine | virttop/virttop.py:209-219 | row i is the index cell (numbered mode) followed by the justified cells; it fails exactly when a column it reads is too short |
| Layout.RowLines | virttop/virttop.py:208-221 | the rows loop gives `len(args[-1])` lines, line i being row i; it fails exactly when a column it reads is shorter than the last one |
| Layout.HeaderWidths | virttop/virttop.py:186-196 | the header pass: numbered mode inserts "idx" into the caller's list and appends the index width; the widths become the header-widened widths |
| Layout.Ffs | virttop/virttop.py:158-221 | `ffs` returns or raises what `Table` says, and leaves the caller's header list as `Table` says (with "idx" in front in numbered mode) |
| Layout.TableOutcome | virttop/virttop.py:183-221 | `ValueError` exactly when a column is empty; success exactly when there are arguments, the header is no longer than the widths and every column read is as long as the last; then the header line plus `len(args[-1])` lines |
| Layout.PlainLines | virttop/virttop.py:198-221 | an unnumbered successful call returns the header line (if any) followed by the row lines |
| Layout.ColumnWidthIsTight | virttop/virttop.py:183-196 | without numbering, each width is at least every `repr` length of its column (plus the offset under a header entry) and at least the header entry plus offset, and equals one of these |
| Layout.ValuesFit | virttop/virttop.py:183-196 | with a non-negative offset, no value and no header entry is wider than its column |
| Layout.AlignedLines | virttop/virttop.py:194-221 | without numbering, with one header entry per column and a non-negative offset, every line has length `sum(widths)` |
| Layout.CellPosition | virttop/virttop.py:216-219 | without numbering, the value of column j in row i starts at the sum of the widths before column j and is followed by blanks up to its width |
| Layout.ShortColumnFails | virttop/virttop.py:208-218 | an unnumbered call with a column shorter than the last one raises `IndexError` |
| Layout.NumberedHeaderWidths | virttop/virttop.py:186-196 | as written, with a header in numbered mode there are `len(args) + 1` widths. Width 0 is sized from column 0 and "idx". Width j + 1 is sized from column j + 1 and header entry j. The last width is the index width, appended at the end and sized with the last header entry |
| Layout.NumberedHeaderMisaligned | virttop/virttop.py:186-215 | as written, with a header in numbered mode, for every input that succeeds: row i is the row number padded to width 0 (sized from column 0), then the value of each column j padded to width j + 1, which is sized from the next column, or for the last value is the index width |
| Layout.NumberedHeaderExample | virttop/virttop.py:186-215 | on the input in Findings, the exact header line and row, showing the shifted padding |
| Layout.NumberedWithoutHeaderDropsLastColumn | virttop/virttop.py:208-215 | as written, numbered mode without a header, for every input that succeeds: the widths are the value widths, and row i has exactly `len(args)` cells. Those are the row number padded to width 0, then the values of the first `len(args) - 1` columns, each padded to the next column's width, so the last column never appears |
| Layout.NumberedWithoutHeaderExample | virttop/virttop.py:208-215 | on the input in Findings, the exact output line, without the second column |
| Layout.NumberedTableExtendsPlain | virttop/virttop.py:186-215 | intended numbering: fails exactly when the unnumbered call fails; otherwise each line is an index cell ("idx" or the row number) in front of the unnumbered line, all columns kept |
| Layout.NumberedTableAligned | virttop/virttop.py:186-215 | intended numbering with one header entry per column and a non-negative offset: all lines have the index width plus `sum(widths)` characters |
| Text.LJust | virttop/virttop.py:202 | `ljust` keeps the text as a prefix, pads with blanks only, and has length `max(len, width)` |
| Text.ReprLenBounds | virttop/virttop.py:184 | `len(repr(s))` is at least `len(s) + 2`, and exactly that for plain text |
| Text.DecimalRoundTrip | virttop/virttop.py:249 | `repr` of a non-negative int reads back as that int |
| Units.Abbreviate | virttop/virttop.py:224-235 | the band holds `num * shift_by`: the sentinel exactly at or above 1e12; otherwise below a thousand units of the band and, above the raw band, at least one unit |
| Units.SizeAbr | virttop/virttop.py:224-235 | the text is never empty, and is "N/A" when the scaled value reaches 1e12 |
| Units.SizeAbrShape | virttop/virttop.py:224-235 | "N/A" at or above 1e12; below 1000 the integer text, which reads back as the scaled value; otherwise the quotient in the band's unit, in [1, 1000), followed by " KB", " MB" or " GB" |
| Units.BandsMonotone | virttop/virttop.py:227-235 | a larger value never lands in a smaller band, and once "N/A" always "N/A" |
| Units.BandUnique | virttop/virttop.py:229-234 | the band chosen is the only one whose range holds the value |
| Units.IntTextRoundTrip | virttop/virttop.py:228 | the raw text is `repr` of an int: digits with an optional minus sign, reading back as the int |
| Arp.Fields | virttop/virttop.py:124-125 | the csv split of a line: no fields exactly for an empty line, and no field holds a space |
| Arp.FieldsOfSpaced | virttop/virttop.py:124-125 | leading spaces and runs of spaces between non-empty fields: the split gives back exactly those fields |
| Arp.TrailingSpaces | virttop/virttop.py:124-125 | spaces at the end of a line add one empty last field |
| Arp.ParseArpTable | virttop/virttop.py:122-128 | the parse loop yields the table of all rows, or `IndexError` at a row with fewer than four fields |
| Arp.ArpTableFails | virttop/virttop.py:125-126 | the parse fails exactly when some row, the header row included, has fewer than four fields |
| Arp.ArpTableKeys | virttop/virttop.py:125-126 | the table's keys are exactly the field 3 (MAC) values of the rows |
| Arp.ArpTableLastWins | virttop/virttop.py:125-126 | a MAC maps to field 0 (IP) of the last row naming it |
| Arp.IpFor | virttop/virttop.py:131-136 | the lookup returns the table's IP for a known MAC and "N/A" otherwise, never failing; what it returns for the parsed file is stated by `Arp.LookupAfterParse` |
| Arp.LookupAfterParse | virttop/virttop.py:120-136 | parse then lookup: "N/A" when no row names the MAC, else the IP of the last row naming it |
| Descriptor.ElementsByTagName | virttop/virttop.py:108 | only elements with the tag are returned |
| Descriptor.ElementsInComplete | virttop/virttop.py:108 | every element with the tag, at any depth, is returned |
| Descriptor.NotSkippedIsElement | virttop/virttop.py:112 | a node passes the `nodeName[0:1] != "#"` test exactly when it is an element whose tag does not start with '#' |
| Descriptor.ChildAttrsOf | virttop/virttop.py:112-113 | a child that passes the test contributes all its attributes; any other child contributes none |
| Descriptor.AssignAttrs | virttop/virttop.py:113-116 | the innermost loop assigns each attribute of a child in order, on top of the dict so far |
| Descriptor.AssignElement | virttop/virttop.py:110-116 | the middle loop assigns the attributes of every child that passes the test, in order |
| Descriptor.CollectAttributes | virttop/virttop.py:107-117 | the three loops build the dict of the attributes visited, later ones overwriting earlier ones |
| Descriptor.GetNetworkInfo | virttop/virttop.py:103-117 | `get_network_info` is that dict for the tag "interface" |
| Descriptor.GetDiskInfo | virttop/virttop.py:139-154 | `get_disk_info` is that dict for the tag "disk" |
| Descriptor.SuppliedMember | virttop/virttop.py:108-116 | an attribute is visited exactly when it belongs to a passing child of an element with the tag |
| Descriptor.FlattenKeys | virttop/virttop.py:107-117 | the dict's keys are exactly the names of the attributes visited |
| Descriptor.FlattenLastWins | virttop/virttop.py:113-116 | each key holds the value of the last attribute of that name in document order |
| Descriptor.ElementWithoutAttributedChildren | virttop/virttop.py:110-116 | an element none of whose children both pass the test and carry attributes contributes nothing |
| Collect.Put | virttop/virttop.py:83-96 | appending a cell grows the named column by that cell and leaves the other thirteen columns as they were |
| Collect.VirtData.constructor | virttop/virttop.py:80-100 | a new `VirtData` has every column and the pools empty |
| Collect.VirtData.Append | virttop/virttop.py:83-96 | one `append` to a column changes the columns as `Put` says and keeps the pools |
| Collect.VirtData.AppendAll | virttop/virttop.py:247-263 | a run of appends changes the columns as the run replayed says and keeps the pools |
| Sampler.Basename | virttop/virttop.py:286 | `os.path.basename`: the suffix of the path after its last '/', containing no '/' |
| Sampler.MatchingNamesMember | virttop/virttop.py:285-287 | a pool name is listed exactly when a pool of that name holds the volume |
| Sampler.TwoMatches | virttop/virttop.py:285-288 | the pool loop does not stop at the first match: two holders give two names |
| Sampler.AtMostOneMatch | virttop/virttop.py:285-288 | when no two pools hold the volume, at most one name is listed |
| Sampler.CpuCell | virttop/virttop.py:250-261 | "n/a" exactly when the CPU statistics failed; otherwise whole seconds followed by "s" |
| Sampler.SizeAbrSentinels | virttop/virttop.py:224-235 | `size_abr` never gives "n/a", and gives "N/A" only at or above its cap |
| Sampler.MemActualCell | virttop/virttop.py:265-269 | "n/a" exactly when "actual" is absent |
| Sampler.MemUnusedCell | virttop/virttop.py:272-275 | "N/A" when "available" is absent, and not "N/A" for a reported value below the cap |
| Sampler.AppendPools | virttop/virttop.py:283-293 | the pool loop appends every holder's name in pool order, or "N/A" when none holds the volume |
| Sampler.AppendPoolCells | virttop/virttop.py:284-293 | no source element raises; a source without a file raises once there is a pool and appends "N/A" otherwise; a file is matched by its basename |
| Sampler.AppendTail | virttop/virttop.py:295-307 | the disk byte cells (block fields 1 and 3), then the MAC and its IP; `KeyError` on a missing "file" or "address", or the failed block statistics, stop it where the source stops |
| Sampler.AppendDomain | virttop/virttop.py:246-307 | one iteration leaves the columns as its trace of appends says and returns the exception that ended it |
| Sampler.FillUri | virttop/virttop.py:239-307 | the loop leaves the columns as the appends of the iterations up to the first exception say, and returns that exception |
| Sampler.ChainPrefixError | virttop/virttop.py:246-307 | once an iteration raises, no later domain is sampled |
| Sampler.ChainSucceeds | virttop/virttop.py:246-307 | a run of iterations completes exactly when none of them raises |
| Sampler.DomainSucceeds | virttop/virttop.py:246-307 | an iteration completes exactly when every call it depends on succeeds |
| Sampler.CompletesWhen | virttop/virttop.py:277-307 | those calls are the interface statistics, the disk path (or no pools), the descriptor's disk file, the block statistics and the interface MAC |
| Sampler.CompleteRow | virttop/virttop.py:246-307 | a completed iteration appends exactly one cell to each of the twelve per-domain columns, from the fields the source reads, and its pool cells to `memory_pool` |
| Sampler.PoolCellCount | virttop/virttop.py:283-293 | the pool loop appends at least one cell; exactly one when at most one pool holds the volume; every holder when several do |
| Sampler.RowPools | virttop/virttop.py:283-293 | a domain gets exactly one `memory_pool` cell exactly when at most one pool holds its volume |
| Sampler.FillSucceeds | virttop/virttop.py:246-307 | the loop completes exactly when every domain's iteration would |
| Sampler.FillRows | virttop/virttop.py:246-307 | a loop that completes appends the rows of the domains, in domain order |
| Sampler.RowsAddedNames | virttop/virttop.py:263 | the rows add the domain names to `name` in order, and leave `vm_id` alone |
| Sampler.RowsAddedLengths | virttop/virttop.py:246-307 | every per-domain column grows by one cell per domain |
| Sampler.RowsAddedPools | virttop/virttop.py:283-293 | `memory_pool` grows by at least one cell per domain; exactly one per domain when no volume has two holders; more otherwise |
| Sampler.OrderServed | virttop/virttop.py:357-371 | `main` passes `vm_id` first, `name` second and `memory_pool` last; every column in between is a per-domain column |
| Sampler.SampledLengths | virttop/virttop.py:328-331 | after a completed loop from a fresh `VirtData`, `vm_id` holds the ids and every per-domain column one cell per domain |
| Sampler.ScreenOfEqualColumns | virttop/virttop.py:339-372 | `main`'s `ffs` call on columns of n cells each gives the title line and n lines |
| Sampler.ScreenOfLongPools | virttop/virttop.py:339-372 | with `memory_pool` longer than the other columns, `main`'s `ffs` call raises `IndexError` (first at `vm_id`) |
| Sampler.ScreenShows | virttop/virttop.py:328-372 | when no volume has two holders, the screen of a completed loop has the title line and one line per domain |
| Sampler.CollidingPoolsBreakScreen | virttop/virttop.py:283-293 | as written, one volume with two holders makes `main`'s `ffs` call raise `IndexError` |
| Sampler.SharedVolume | virttop/virttop.py:283-293 | a volume listed by two pools gets both names appended |
| Sampler.FirstMatch | virttop/virttop.py:285-293 | intended pool loop with a stop at the first match: the first holder's name, or "N/A" |
| Sampler.AppendFirstPool | virttop/virttop.py:283-293 | the loop stopped at the first match appends exactly that one cell and keeps the pools |
| Sampler.FirstPoolOutcome | virttop/virttop.py:283-293 | intended pool cells: the same failures as written, exactly one cell, a holder's name when there is one, and the as-written cell when that is single |
| Sampler.FirstPoolAgrees | virttop/virttop.py:283-293 | the correction changes nothing when no volume has two holders |
| Sampler.MatchingNamesEmpty | virttop/virttop.py:285-293 | no name is listed exactly when no pool holds the volume |
| Sampler.FirstHoldersMatch | virttop/virttop.py:285-288 | over pools that each keep only the volumes no earlier pool holds, matching lists the first holder at most |
| Sampler.FirstHoldersOutcome | virttop/virttop.py:283-293 | stopping at the first match gives the cells the as-written loop gives over those pools |
| Sampler.CorrectedScreenShows | virttop/virttop.py:283-372 | with that correction, the screen of a completed loop has the title line and one line per domain, whatever volumes the pools share |

## Left out

- The colour escapes and the `isatty` branch of `ffs`: every colour string is empty, as when output is not a terminal.
- `main`'s endless loop: the screen clear, printing, `time.sleep` and `sys.exit` when a connection has no running domain.
- Several URIs in one refresh are not modelled. `main` overwrites `vm_id` and `pools` for each connection while the other columns accumulate, and `Sampled` starts from a fresh `VirtData` for one connection.
- libvirt calls are inputs, and a `DomainInfo` holds their answers. The calls whose failure the source handles or lets escape are modelled with their failures. These are `getCPUStats` (`cpuTimeNs`), the interface-target lookup and `interfaceStats` (`interfaceStats`), the disk-source lookup (`DiskSource`), and `blockStats` (`blockStats`).
- The other calls are taken to succeed: `openReadOnly`, `listDomainsID`, `getURI`, `lookupByID`, `snapshotNum`, `XMLDesc` with `minidom.parseString` and `ElementTree.fromstring`, `name`, `memoryStats`, `listVolumes` and the pool's `name`. The model does not capture the partial states their failures would leave. A domain that stops between `listDomainsID` and `lookupByID` would raise after its `uri` cell. A `listVolumes` failure would raise after some `memory_pool` cells.
- Processing instructions in a descriptor are not modelled. `minidom` gives them a `nodeName` without '#' and no attributes, so `get_network_info` and `get_disk_info` would raise `AttributeError` on one.
- XML text parsing (`minidom`, `ElementTree`) is not modelled. The descriptor is given as a parsed `Document`. The `ElementTree.find` lookups of the interface target and the disk source are given as `interfaceStats` and `DiskSource`.
- Reading `/proc/net/arp` is not modelled: the parse starts from the file's lines. Quoting in the csv reader is not modelled either.
- Argument parsing and the SIGINT handler.
- Sampler.CpuCell: uses exact integer division where the source divides as a float and truncates, so the two may differ above 2^53 nanoseconds.
- Units.SizeAbr: the text of a rounded quotient (`repr(round(q, 2))`) is a parameter `twoPlaces`. Every caller passes integers, so `num` is an `int` here and the raw band prints `repr` of an int.
- Text.ReprLenBounds: `len(repr(s))` follows Python's quoting and escaping rules for ASCII. Other characters from U+00A0 on are counted as printable, one character each.

## Findings

| source | as written | input that shows it | evidently intended | confidence | as-written member | corrected member |
|---|---|---|---|---|---|---|
| virttop/virttop.py:186-215 | numbered mode with a header appends the index width at the end of the width list, but rows put the index first and zip the values with `widths[1:]` | `ffs(0, ["a", "b"], True, ["abcd"], ["y"])` returns `["idx   a  b", "0     abcdy"]` | each value padded to its own column, with the index column first | not executed | Layout.NumberedHeaderMisaligned | Layout.NumberedTableAligned |
| virttop/virttop.py:208-215 | numbered mode without a header has no index width, so `zip(args, widths[1:])` leaves out the last column | `ffs(0, None, True, ["a"], ["b"])` returns `["0  a  "]` | every column shown after the index | not executed | Layout.NumberedWithoutHeaderDropsLastColumn | Layout.NumberedTableExtendsPlain |
| virttop/virttop.py:283-293 | the pool loop appends every pool holding the volume, so `memory_pool` gets two cells for one domain | a domain whose disk `/images/vm.img` is listed by pools "default" and "backup" (see `SharedVolume`): `main`'s `ffs` call raises `IndexError` | one pool cell per domain, the first holder | not executed | Sampler.CollidingPoolsBreakScreen | Sampler.CorrectedScreenShows |
