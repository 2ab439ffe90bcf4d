/** GetProcessData: the reader of the `smbstatus -p -n` table of samba
    processes. */
module ProcessReader {
  import opened Wrappers
  import opened GoStrings
  import opened GoStrconv
  import opened ReaderCommon

  /** One samba process. User and group ids are -1 where a cluster
      version prints "nobody" or "nogroup" instead of a number. */
  datatype ProcessData = ProcessData(
    pid: int,
    clusterNodeId: int,
    userId: int,
    groupId: int,
    machine: string,
    protocolVersion: string,
    encryption: string,
    signing: string,
    sambaVersion: string)

  /** The line two above the separator starts with this text. */
  const VersionPrefix: string := "Samba version"

  const MsgClusterNodeId: string := "while getting ProcessData ClusterNodeId"
  const MsgPidClustered: string := "while getting ProcessData PID (with :)"
  const MsgPid: string := "while getting ProcessData PID (without :)"
  const MsgUserId: string := "while getting ProcessData UserID"
  const MsgGroupId: string := "while getting ProcessData GroupID"

  /** The process header: seven double-space separated columns with
      "Username" second and "Protocol Version" fifth. */
  predicate HeaderAccepted(header: seq<string>)
  {
    |header| == 7 && header[1] == "Username" && header[4] == "Protocol Version"
  }

  /** The separator index when the text is a process table the reader
      accepts, and -1 when it returns no records at all. */
  function TableSeparator(data: string): (s: int)
    ensures s == -1 || 2 <= s < |Lines(data)|
  {
    var lines := Lines(data);
    var s := SeparatorIndex(lines);
    if s < 2 then -1
    else if !HasPrefix(lines[s - 2], VersionPrefix) then -1
    else if !HeaderAccepted(Tokenize(lines[s - 1], "  ")) then -1
    else s
  }

  /** The version every record of the table carries: the version line with
      its first "Samba version" removed, trimmed. */
  function SambaVersion(line: string): string
  {
    TrimSpace(ReplaceFirst(line, VersionPrefix, ""))
  }

  /** A numeric id column that may hold a name instead: the name stands
      for -1, anything else must be a decimal number. */
  function IdOrSentinel(token: string, sentinel: string): Option<int>
  {
    if token == sentinel then Some(-1) else Atoi(token)
  }

  /** The fate of one eight-token row. */
  function ProcessRow(fields: seq<string>, version: string): RowOutcome<ProcessData>
    requires |fields| == 8
  {
    var id := ParseId(fields[0]);
    if !id.IdOk? then Drop(IdMessage(id, MsgClusterNodeId, MsgPidClustered, MsgPid))
    else
      match IdOrSentinel(fields[1], "nobody")
      case None => Drop(MsgUserId)
      case Some(userId) =>
        match IdOrSentinel(fields[2], "nogroup")
        case None => Drop(MsgGroupId)
        case Some(groupId) =>
          Keep(ProcessData(id.pid, id.node, userId, groupId, fields[3] + " " + fields[4],
                           fields[5], fields[6], fields[7], version))
  }

  /** The eight-token rows below the separator of an accepted table. */
  function ReadRows(data: string): (rows: seq<seq<string>>)
    ensures forall i :: 0 <= i < |rows| ==> |rows[i]| == 8
  {
    var s := TableSeparator(data);
    if s < 0 then [] else FixedLength(RowsOf(Lines(data)[s + 1..], " "), 8)
  }

  /** The version of an accepted table ("" for a refused one, which has no
      records). */
  function TableVersion(data: string): string
  {
    var s := TableSeparator(data);
    if s < 0 then "" else SambaVersion(Lines(data)[s - 2])
  }

  function ProcessOutcomes(rows: seq<seq<string>>, version: string): seq<RowOutcome<ProcessData>>
    requires forall i :: 0 <= i < |rows| ==> |rows[i]| == 8
  {
    seq(|rows|, i requires 0 <= i < |rows| => ProcessRow(rows[i], version))
  }

  /** The records and diagnostics of a whole `smbstatus -p -n` text. */
  function ProcessTable(data: string): Parsed<ProcessData>
  {
    Collect(ProcessOutcomes(ReadRows(data), TableVersion(data)))
  }

  /** The body of GetProcessData's row loop. */
  method ReadProcessRow(fields: seq<string>, sambaVersion: string) returns (outcome: RowOutcome<ProcessData>)
    requires |fields| == 8
    ensures outcome == ProcessRow(fields, sambaVersion)
  {
    var id := ParseId(fields[0]);
    if !id.IdOk? {
      return Drop(IdMessage(id, MsgClusterNodeId, MsgPidClustered, MsgPid));
    }
    var userId: int;
    if fields[1] == "nobody" {
      userId := -1;
    } else {
      var r := Atoi(fields[1]);
      if r.None? {
        return Drop(MsgUserId);
      }
      userId := r.value;
    }
    var groupId: int;
    if fields[2] == "nogroup" {
      groupId := -1;
    } else {
      var r := Atoi(fields[2]);
      if r.None? {
        return Drop(MsgGroupId);
      }
      groupId := r.value;
    }
    outcome := Keep(ProcessData(id.pid, id.node, userId, groupId, fields[3] + " " + fields[4],
                                fields[5], fields[6], fields[7], sambaVersion));
  }

  /** GetProcessData, with the logger's messages returned in `log`. */
  method GetProcessData(data: string) returns (ret: seq<ProcessData>, log: seq<string>)
    ensures Parsed(ret, log) == ProcessTable(data)
  {
    ret, log := [], [];
    var lines, sepLineIndex, sambaVersion := LocateTable(data);
    if sepLineIndex < 0 {
      RefusedTable(data);
      return;
    }
    var rows := GetFieldMatrixFixLength(lines[sepLineIndex + 1..], " ", 8);
    assert rows == ReadRows(data);
    ret, log := ReadProcessRows(rows, sambaVersion);
  }

  /** The checks GetProcessData makes before its row loop: a separator
      below a second line, the "Samba version" line two above it, and the
      header line. A failed check is -1 (Go returns an empty list). */
  method LocateTable(data: string) returns (lines: seq<string>, sepLineIndex: int, sambaVersion: string)
    ensures lines == Lines(data)
    ensures sepLineIndex == TableSeparator(data)
    ensures sepLineIndex >= 0 ==> sambaVersion == TableVersion(data)
  {
    lines := Split(data, "\n");
    sambaVersion := "";
    sepLineIndex := FindSeparatorLineIndex(lines);
    if sepLineIndex < 2 {
      assert TableSeparator(data) == -1;
      return lines, -1, "";
    }
    var sambaVersionLine := lines[sepLineIndex - 2..sepLineIndex - 1][0];
    assert sambaVersionLine == lines[sepLineIndex - 2];
    if HasPrefix(sambaVersionLine, VersionPrefix) {
      sambaVersion := TrimSpace(ReplaceFirst(sambaVersionLine, VersionPrefix, ""));
    } else {
      assert TableSeparator(data) == -1;
      return lines, -1, "";
    }
    var headerLine := lines[sepLineIndex - 1..sepLineIndex];
    assert headerLine == [lines[sepLineIndex - 1]];
    var tableHeaderMatrix := GetFieldMatrixFixLength(headerLine, "  ", 7);
    FixedLengthOfLine(lines[sepLineIndex - 1], "  ", 7);
    ghost var header := Tokenize(lines[sepLineIndex - 1], "  ");
    if |tableHeaderMatrix| != 1 {
      assert !HeaderAccepted(header);
      assert TableSeparator(data) == -1;
      return lines, -1, "";
    }
    var tableHeaderFields := tableHeaderMatrix[0];
    assert tableHeaderFields == header;
    if tableHeaderFields[1] != "Username" || tableHeaderFields[4] != "Protocol Version" {
      assert !HeaderAccepted(header);
      assert TableSeparator(data) == -1;
      return lines, -1, "";
    }
    assert HeaderAccepted(header);
    assert TableSeparator(data) == sepLineIndex;
  }

  /** A refused table yields neither records nor diagnostics. */
  lemma RefusedTable(data: string)
    requires TableSeparator(data) == -1
    ensures ProcessTable(data) == Parsed([], [])
  {
    assert ReadRows(data) == [];
    assert ProcessOutcomes([], TableVersion(data)) == [];
  }

  /** GetProcessData's row loop. */
  method ReadProcessRows(rows: seq<seq<string>>, sambaVersion: string) returns (ret: seq<ProcessData>, log: seq<string>)
    requires forall i :: 0 <= i < |rows| ==> |rows[i]| == 8
    ensures Parsed(ret, log) == Collect(ProcessOutcomes(rows, sambaVersion))
  {
    ret, log := [], [];
    ghost var outcomes := ProcessOutcomes(rows, sambaVersion);
    for i := 0 to |rows|
      invariant Parsed(ret, log) == Collect(outcomes[..i])
    {
      CollectStep(outcomes, i);
      var outcome := ReadProcessRow(rows[i], sambaVersion);
      match outcome {
        case Keep(entry) => ret := ret + [entry];
        case Drop(message) => log := log + [message];
      }
    }
    assert outcomes[..|rows|] == outcomes;
  }

  /** The ways the whole table is refused: no separator below a second
      line, no "Samba version" line two above it, or a header that is not
      seven columns with "Username" and "Protocol Version" in their places. */
  lemma ProcessTableRejects(data: string)
    requires var lines := Lines(data);
             var s := SeparatorIndex(lines);
             || s < 2
             || !HasPrefix(lines[s - 2], VersionPrefix)
             || !HeaderAccepted(Tokenize(lines[s - 1], "  "))
    ensures ProcessTable(data) == Parsed([], [])
  {
    var lines := Lines(data);
    var s := SeparatorIndex(lines);
    if s >= 2 && HasPrefix(lines[s - 2], VersionPrefix) {
      assert !HeaderAccepted(Tokenize(lines[s - 1], "  "));
    }
    assert TableSeparator(data) == -1;
    RefusedTable(data);
  }

  /** The version line yields the text after "Samba version", trimmed. */
  lemma SambaVersionOfLine(line: string)
    requires HasPrefix(line, VersionPrefix)
    ensures SambaVersion(line) == TrimSpace(line[|VersionPrefix|..])
  {
    ReplaceFirstOfPrefix(line, VersionPrefix);
  }

  /** An id column reads as -1 exactly when it holds the placeholder name
      or the number -1, so the two cannot be told apart afterwards; the
      placeholder names themselves are not numbers. */
  lemma SentinelIds(token: string, sentinel: string)
    ensures IdOrSentinel(sentinel, sentinel) == Some(-1)
    ensures IdOrSentinel(token, sentinel) == Some(-1) <==> token == sentinel || Atoi(token) == Some(-1)
    ensures IdOrSentinel("-1", sentinel) == Some(-1)
    ensures Atoi("nobody") == None && Atoi("nogroup") == None
  {
    AtoiOfItoa(-1);
    assert NatDigits(1) == "1";
    AtoiRejectsNonDigit("nobody", 0);
    AtoiRejectsNonDigit("nogroup", 0);
  }

  /** A row is kept exactly when its id converts and both the user and the
      group column read as ids; the record then takes both ids by the id
      rule, the machine as the fourth and fifth tokens joined by a space,
      the protocol version, encryption and signing from the last three
      columns, and the version of the table. */
  lemma ProcessRowKept(fields: seq<string>, version: string)
    requires |fields| == 8
    ensures ProcessRow(fields, version).Keep? <==>
              && ParseId(fields[0]).IdOk?
              && IdOrSentinel(fields[1], "nobody").Some?
              && IdOrSentinel(fields[2], "nogroup").Some?
    ensures ProcessRow(fields, version).Keep? ==>
              var e := ProcessRow(fields, version).record;
              && ParseId(fields[0]) == IdOk(e.clusterNodeId, e.pid)
              && IdOrSentinel(fields[1], "nobody") == Some(e.userId)
              && IdOrSentinel(fields[2], "nogroup") == Some(e.groupId)
              && e.machine == fields[3] + " " + fields[4]
              && e.protocolVersion == fields[5] && e.encryption == fields[6] && e.signing == fields[7]
              && e.sambaVersion == version
    ensures ParseId(fields[0]).IdOk? && IdOrSentinel(fields[1], "nobody").None? ==>
              ProcessRow(fields, version) == Drop(MsgUserId)
    ensures ParseId(fields[0]).IdOk? && IdOrSentinel(fields[1], "nobody").Some? && IdOrSentinel(fields[2], "nogroup").None? ==>
              ProcessRow(fields, version) == Drop(MsgGroupId)
  {
  }

  /** The version of an accepted table is the text after "Samba version"
      on the line two above the separator, trimmed. */
  lemma TableVersionOfLine(data: string)
    ensures var s := TableSeparator(data);
            s >= 0 ==> |VersionPrefix| <= |Lines(data)[s - 2]| &&
                       TableVersion(data) == TrimSpace(Lines(data)[s - 2][|VersionPrefix|..])
  {
    var s := TableSeparator(data);
    if s >= 0 {
      SambaVersionOfLine(Lines(data)[s - 2]);
    }
  }

  /** Every record of a table carries the table's version. */
  lemma SharedSambaVersion(data: string)
    ensures var p := ProcessTable(data);
            forall j :: 0 <= j < |p.records| ==> p.records[j].sambaVersion == TableVersion(data)
  {
    var rows := ReadRows(data);
    var outcomes := ProcessOutcomes(rows, TableVersion(data));
    var p := Collect(outcomes);
    var idx := KeptIndices(outcomes);
    forall j | 0 <= j < |p.records|
      ensures p.records[j].sambaVersion == TableVersion(data)
    {
      ProcessRowKept(rows[idx[j]], TableVersion(data));
    }
  }

  /** Output order: the j-th record is the Keep of the idx[j]-th
      eight-token row below the separator, for increasing idx. */
  lemma ProcessTableShape(data: string)
    ensures var p := ProcessTable(data);
            var rows := ReadRows(data);
            var idx := KeptIndices(ProcessOutcomes(rows, TableVersion(data)));
            && |idx| == |p.records|
            && (forall j, k :: 0 <= j < k < |idx| ==> idx[j] < idx[k])
            && forall j :: 0 <= j < |idx| ==>
                 idx[j] < |rows| && ProcessRow(rows[idx[j]], TableVersion(data)) == Keep(p.records[j])
  {
    var rows := ReadRows(data);
    var outcomes := ProcessOutcomes(rows, TableVersion(data));
    var idx := KeptIndices(outcomes);
    assert forall j :: 0 <= j < |idx| ==> outcomes[idx[j]] == ProcessRow(rows[idx[j]], TableVersion(data));
  }

  /** No kept row is lost: every eight-token row that the row rule keeps has
      its place among the records. */
  lemma ProcessTableComplete(data: string)
    ensures var rows := ReadRows(data);
            var idx := KeptIndices(ProcessOutcomes(rows, TableVersion(data)));
            forall i :: 0 <= i < |rows| && ProcessRow(rows[i], TableVersion(data)).Keep? ==> i in idx
  {
    var outcomes := ProcessOutcomes(ReadRows(data), TableVersion(data));
    KeptIndicesComplete(outcomes);
  }

  /** The log: the j-th message is the reason of the d[j]-th row read, for
      increasing d, and every dropped row has its message. */
  lemma ProcessTableLog(data: string)
    ensures var p := ProcessTable(data);
            var rows := ReadRows(data);
            var d := DroppedIndices(ProcessOutcomes(rows, TableVersion(data)));
            && |d| == |p.log|
            && (forall j, k :: 0 <= j < k < |d| ==> d[j] < d[k])
            && (forall j :: 0 <= j < |d| ==>
                 d[j] < |rows| && ProcessRow(rows[d[j]], TableVersion(data)) == Drop(p.log[j]))
            && forall i :: 0 <= i < |rows| && ProcessRow(rows[i], TableVersion(data)).Drop? ==> i in d
  {
    var rows := ReadRows(data);
    var outcomes := ProcessOutcomes(rows, TableVersion(data));
    DroppedIndicesComplete(outcomes);
    var d := DroppedIndices(outcomes);
    assert forall j :: 0 <= j < |d| ==> outcomes[d[j]] == ProcessRow(rows[d[j]], TableVersion(data));
  }
}
