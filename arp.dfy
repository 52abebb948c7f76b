/**
 * The ARP table: `/proc/net/arp` read with `csv.reader(delimiter=" ",
 * skipinitialspace=True)`, each row mapping its field 3 (the hardware address)
 * to its field 0 (the IP address), and the lookup of an IP by MAC.
 */
module Arp {
  import opened Results
  import opened Text
  import opened Pairs

  /** A row with fewer than four fields: `arp_entry[3]` raises `IndexError`. */
  datatype ArpError = ShortRow

  const Unknown: string := "N/A"

  /**
   * The fields of one line as the csv reader splits it. An empty line has no fields;
   * otherwise spaces before a field are skipped, so runs of spaces separate fields, and
   * spaces at the end of the line leave one empty field.
   */
  function Fields(line: string): (r: seq<string>)
    ensures line == [] <==> r == []
    ensures forall f :: f in r ==> ' ' !in f
  {
    if line == [] then [] else StartField(line)
  }

  /** The reader at the start of a field: skips spaces; at the end of the line saves an empty field. */
  function StartField(s: string): (r: seq<string>)
    ensures |r| > 0
    ensures forall f :: f in r ==> ' ' !in f
    decreases |s|, 1
  {
    if s == [] then [""]
    else if s[0] == ' ' then StartField(s[1..])
    else InField(s[1..], [s[0]])
  }

  /** The reader inside a field holding `acc`: a space ends the field, anything else extends it. */
  function InField(s: string, acc: string): (r: seq<string>)
    requires ' ' !in acc
    ensures |r| > 0
    ensures forall f :: f in r ==> ' ' !in f
    decreases |s|, 0
  {
    if s == [] then [acc]
    else if s[0] == ' ' then [acc] + StartField(s[1..])
    else InField(s[1..], acc + [s[0]])
  }

  /** Fields separated by runs of `gaps[i]` spaces. */
  function Joined(fields: seq<string>, gaps: seq<nat>): string
    requires |gaps| + 1 == |fields|
  {
    if |gaps| == 0 then fields[0]
    else fields[0] + Spaces(gaps[0]) + Joined(fields[1..], gaps[1..])
  }

  /** Reading a space-free word, then either the end of the line or a space. */
  lemma {:induction false} InFieldWord(w: string, rest: string, acc: string)
    requires ' ' !in acc && ' ' !in w
    requires rest == [] || rest[0] == ' '
    ensures InField(w + rest, acc) == if rest == [] then [acc + w] else [acc + w] + StartField(rest[1..])
  {
    if w != [] {
      assert (w + rest)[1..] == w[1..] + rest;
      InFieldWord(w[1..], rest, acc + [w[0]]);
      assert acc + [w[0]] + w[1..] == acc + w;
    } else {
      assert w + rest == rest;
      assert acc + w == acc;
    }
  }

  /** Dropping the first of `n` leading spaces leaves `n - 1`. */
  lemma DropSpace(n: nat, s: string)
    requires n > 0
    ensures (Spaces(n) + s)[1..] == Spaces(n - 1) + s
  {
    var t := Spaces(n) + s;
    assert forall k :: 0 <= k < |t| - 1 ==> t[1..][k] == (Spaces(n - 1) + s)[k];
  }

  /** The first field, its gap, and the rest of the joined fields. */
  lemma JoinedStep(fields: seq<string>, gaps: seq<nat>, rest: string)
    requires |gaps| + 1 == |fields| && |gaps| > 0
    ensures Joined(fields, gaps) + rest == fields[0] + (Spaces(gaps[0]) + (Joined(fields[1..], gaps[1..]) + rest))
  {
  }

  /** Spaces before a field are skipped. */
  lemma {:induction false} SkipSpaces(n: nat, s: string)
    ensures StartField(Spaces(n) + s) == StartField(s)
  {
    if n > 0 {
      assert (Spaces(n) + s)[0] == ' ';
      DropSpace(n, s);
      SkipSpaces(n - 1, s);
    } else {
      assert Spaces(n) + s == s;
    }
  }

  /** A non-empty, space-free word followed by the end of the line or a space is saved as one field. */
  lemma FirstField(w: string, after: string)
    requires |w| > 0 && ' ' !in w
    requires after == [] || after[0] == ' '
    ensures StartField(w + after) == [w] + if after == [] then [] else StartField(after[1..])
  {
    assert w[0] in w;
    assert (w + after)[0] == w[0] && (w + after)[1..] == w[1..] + after;
    InFieldWord(w[1..], after, [w[0]]);
    assert [w[0]] + w[1..] == w;
  }

  /** The first field, then the others, then what follows them. */
  lemma HeadThen(fields: seq<string>, more: seq<string>)
    requires |fields| > 0
    ensures [fields[0]] + (fields[1..] + more) == fields + more
  {
    assert fields == [fields[0]] + fields[1..];
  }

  /**
   * Reading non-empty, space-free fields joined by runs of spaces, followed by the end of
   * the line or by a space: the reader saves exactly those fields and goes on.
   */
  lemma {:induction false} JoinedThen(fields: seq<string>, gaps: seq<nat>, rest: string)
    requires |gaps| + 1 == |fields|
    requires forall i :: 0 <= i < |fields| ==> |fields[i]| > 0 && ' ' !in fields[i]
    requires forall i :: 0 <= i < |gaps| ==> gaps[i] > 0
    requires rest == [] || rest[0] == ' '
    ensures StartField(Joined(fields, gaps) + rest) == fields + if rest == [] then [] else StartField(rest[1..])
  {
    var w := fields[0];
    if |gaps| == 0 {
      assert Joined(fields, gaps) == w;
      FirstField(w, rest);
    } else {
      var tail := Joined(fields[1..], gaps[1..]) + rest;
      var after := Spaces(gaps[0]) + tail;
      var more := if rest == [] then [] else StartField(rest[1..]);
      JoinedStep(fields, gaps, rest);
      FirstField(w, after);
      DropSpace(gaps[0], tail);
      SkipSpaces(gaps[0] - 1, tail);
      JoinedThen(fields[1..], gaps[1..], rest);
      assert StartField(after[1..]) == fields[1..] + more;
      HeadThen(fields, more);
    }
  }

  /** `lead` spaces, then the joined fields. */
  function Spaced(lead: nat, fields: seq<string>, gaps: seq<nat>): string
    requires |gaps| + 1 == |fields|
  {
    Spaces(lead) + Joined(fields, gaps)
  }

  /** Leading spaces, then fields separated by runs of spaces: the split gives back the fields. */
  lemma FieldsOfSpaced(lead: nat, fields: seq<string>, gaps: seq<nat>)
    requires |gaps| + 1 == |fields|
    requires forall i :: 0 <= i < |fields| ==> |fields[i]| > 0 && ' ' !in fields[i]
    requires forall i :: 0 <= i < |gaps| ==> gaps[i] > 0
    ensures Fields(Spaced(lead, fields, gaps)) == fields
  {
    JoinedThen(fields, gaps, []);
    assert Joined(fields, gaps) + [] == Joined(fields, gaps);
    SkipSpaces(lead, Joined(fields, gaps));
    assert fields[0] != [];
    assert Spaced(lead, fields, gaps) != [] by {
      assert fields[0][0] in Spaced(lead, fields, gaps) by {
        if |gaps| > 0 {
          assert Joined(fields, gaps) == fields[0] + Spaces(gaps[0]) + Joined(fields[1..], gaps[1..]);
        }
      }
    }
  }

  /** Spaces at the end of a line leave one empty last field. */
  lemma TrailingSpaces(fields: seq<string>, gaps: seq<nat>, n: nat)
    requires |gaps| + 1 == |fields|
    requires forall i :: 0 <= i < |fields| ==> |fields[i]| > 0 && ' ' !in fields[i]
    requires forall i :: 0 <= i < |gaps| ==> gaps[i] > 0
    requires n > 0
    ensures Fields(Joined(fields, gaps) + Spaces(n)) == fields + [""]
  {
    var rest := Spaces(n);
    JoinedThen(fields, gaps, rest);
    assert rest[1..] == Spaces(n - 1) + [];
    SkipSpaces(n - 1, []);
    assert rest[0] in Joined(fields, gaps) + rest;
  }

  /** The pair a row contributes: field 3 (MAC) to field 0 (IP). */
  function Entry(fields: seq<string>): (string, string)
    requires |fields| >= 4
  {
    (fields[3], fields[0])
  }

  predicate AllRowsLong(lines: seq<string>)
  {
    forall i :: 0 <= i < |lines| ==> |Fields(lines[i])| >= 4
  }

  function Entries(lines: seq<string>): (r: seq<(string, string)>)
    requires AllRowsLong(lines)
    ensures |r| == |lines|
    ensures forall i :: 0 <= i < |lines| ==> r[i] == Entry(Fields(lines[i]))
  {
    seq(|lines|, i requires 0 <= i < |lines| => Entry(Fields(lines[i])))
  }

  /** The table `get_arp_table` returns for the file's lines, the header row included. */
  function ArpTable(lines: seq<string>): Result<map<string, string>, ArpError>
  {
    if AllRowsLong(lines) then Ok(Assigned(Entries(lines))) else Err(ShortRow)
  }

  /** One more row of at least four fields assigns its MAC to its IP. */
  lemma EntriesStep(lines: seq<string>, i: nat)
    requires i < |lines| && AllRowsLong(lines[..i]) && |Fields(lines[i])| >= 4
    ensures AllRowsLong(lines[..i + 1])
    ensures Assigned(Entries(lines[..i + 1])) == Assigned(Entries(lines[..i]))[Fields(lines[i])[3] := Fields(lines[i])[0]]
  {
    var prefix := lines[..i + 1];
    assert forall k :: 0 <= k < i ==> prefix[k] == lines[..i][k];
    var e := Entries(prefix);
    AssignedSnoc(e, i);
    assert e[..i] == Entries(lines[..i]);
  }

  /** The parse loop of `get_arp_table`: assigns `result[row[3]] = row[0]` row by row. */
  method ParseArpTable(lines: seq<string>) returns (r: Result<map<string, string>, ArpError>)
    ensures r == ArpTable(lines)
  {
    var result: map<string, string> := map[];
    var i := 0;
    while i < |lines|
      invariant 0 <= i <= |lines|
      invariant AllRowsLong(lines[..i])
      invariant result == Assigned(Entries(lines[..i]))
    {
      var row := Fields(lines[i]);
      if |row| < 4 {
        return Err(ShortRow);
      }
      EntriesStep(lines, i);
      result := result[row[3] := row[0]];
      i := i + 1;
    }
    assert lines[..i] == lines;
    return Ok(result);
  }

  /** The parse fails exactly when some row, the header row included, has fewer than four fields. */
  lemma ArpTableFails(lines: seq<string>)
    ensures ArpTable(lines).Err? <==> exists i :: 0 <= i < |lines| && |Fields(lines[i])| < 4
  {
  }

  /** The table's keys are exactly the MACs (field 3) of the rows. */
  lemma ArpTableKeys(lines: seq<string>, mac: string)
    requires ArpTable(lines).Ok?
    ensures mac in ArpTable(lines).value <==> exists i :: 0 <= i < |lines| && Fields(lines[i])[3] == mac
  {
    AssignedKeys(Entries(lines), mac);
  }

  /** A MAC maps to the IP of the last row that names it. */
  lemma ArpTableLastWins(lines: seq<string>, i: nat)
    requires ArpTable(lines).Ok? && i < |lines|
    requires forall j :: i < j < |lines| ==> Fields(lines[j])[3] != Fields(lines[i])[3]
    ensures var mac := Fields(lines[i])[3];
      mac in ArpTable(lines).value && ArpTable(lines).value[mac] == Fields(lines[i])[0]
  {
    AssignedLast(Entries(lines), i);
  }

  /** `get_ip_from_arp_table`: the IP recorded for the MAC, or "N/A"; it never fails. */
  function IpFor(table: map<string, string>, mac: string): (r: string)
    ensures mac in table ==> r == table[mac]
    ensures mac !in table ==> r == Unknown
  {
    if mac in table then table[mac] else Unknown
  }

  /**
   * Parse then lookup: the IP of the last row naming the MAC, or "N/A" when no row does.
   */
  lemma LookupAfterParse(lines: seq<string>, mac: string)
    requires ArpTable(lines).Ok?
    ensures (forall i :: 0 <= i < |lines| ==> Fields(lines[i])[3] != mac) ==> IpFor(ArpTable(lines).value, mac) == Unknown
    ensures forall i :: (0 <= i < |lines| && Fields(lines[i])[3] == mac &&
      (forall j :: i < j < |lines| ==> Fields(lines[j])[3] != mac)) ==>
      IpFor(ArpTable(lines).value, mac) == Fields(lines[i])[0]
  {
    ArpTableKeys(lines, mac);
    forall i | 0 <= i < |lines| && Fields(lines[i])[3] == mac &&
      (forall j :: i < j < |lines| ==> Fields(lines[j])[3] != mac)
      ensures IpFor(ArpTable(lines).value, mac) == Fields(lines[i])[0]
    {
      ArpTableLastWins(lines, i);
    }
  }
}
