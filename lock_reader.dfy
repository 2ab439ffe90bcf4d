/** GetLockData: the reader of the `smbstatus -L -n` table of locked files. */
module LockReader {
  import opened Wrappers
  import opened GoStrings
  import opened GoStrconv
  import opened GoTime
  import opened ReaderCommon

  /** One locked file. `clusterNodeId` is -1 unless the id column carried a
      "node:" prefix. */
  datatype LockData = LockData(
    pid: int,
    clusterNodeId: int,
    userId: int,
    denyMode: string,
    access: string,
    accessMode: string,
    oplock: string,
    sharePath: string,
    name: string,
    time: Time)

  /** What smbstatus prints instead of a table when nothing is locked. */
  const NoLockedFiles: string := "No locked files"

  const MsgClusterNodeId: string := "while getting LockData ClusterNodeId"
  const MsgPidClustered: string := "while getting LockData PID (ClusterNodeId)"
  const MsgPid: string := "while getting LockData PID"
  const MsgUserId: string := "while getting LockData UserID"
  const MsgTimeStamp: string := "Not able to parse the time stamp in following LockData line"
  const MsgName: string := "Not able to find the name in following LockData line"

  /** The lock header: nine double-space separated columns, "Pid" first and
      "Oplock" sixth. */
  predicate HeaderAccepted(header: seq<string>)
  {
    |header| == 9 && header[0] == "Pid" && header[5] == "Oplock"
  }

  /** The separator index when the text is a lock table the reader accepts,
      and -1 when it returns no records at all. */
  function TableSeparator(data: string): (s: int)
    ensures s == -1 || 1 <= s < |Lines(data)|
  {
    if TrimSpace(data) == NoLockedFiles then -1
    else
      var lines := Lines(data);
      var s := SeparatorIndex(lines);
      if s < 1 then -1
      else if !HeaderAccepted(Tokenize(lines[s - 1], "  ")) then -1
      else s
  }

  /** The token rows below the separator of an accepted table. */
  function DataRows(data: string): seq<seq<string>>
  {
    var s := TableSeparator(data);
    if s < 0 then [] else RowsOf(Lines(data)[s + 1..], " ")
  }

  /** GetLockData indexes a data row without checking its length: token 0
      always, token 1 once the id converts, and tokens 2 to 6 once the user
      id converts as well. A row is read without an index out of range
      exactly when it is long enough for the tokens it gets to. */
  predicate RowReadable(fields: seq<string>)
  {
    && |fields| >= 1
    && (ParseId(fields[0]).IdOk? ==> |fields| >= 2)
    && (ParseId(fields[0]).IdOk? && Atoi(fields[1]).Some? ==> |fields| >= 7)
  }

  /** The inputs on which Go does not panic: every data row is readable. */
  predicate RowsIndexable(data: string)
  {
    forall i :: 0 <= i < |DataRows(data)| ==> RowReadable(DataRows(data)[i])
  }

  /** Where the name column ends: the time stamp is read from the last 5
      tokens, or, only when that fails, from the last 6; -1 when neither
      window holds a time stamp. */
  function NameEnd(fields: seq<string>, parse: TimeParser): int
    requires |fields| >= 6
  {
    var n := |fields|;
    if TimeStamp(fields[n - 5..], parse).Some? then n - 5
    else if TimeStamp(fields[n - 6..], parse).Some? then n - 6
    else -1
  }

  /** The time stamp read from the window that NameEnd chose. */
  function LockTime(fields: seq<string>, parse: TimeParser): Time
    requires |fields| >= 6
  {
    var n := |fields|;
    match TimeStamp(fields[n - 5..], parse)
    case Some(t) => t
    case None =>
      match TimeStamp(fields[n - 6..], parse)
      case Some(t) => t
      case None => ZeroTime
  }

  /** The fate of one data row. */
  function LockRow(fields: seq<string>, parse: TimeParser): RowOutcome<LockData>
    requires RowReadable(fields)
  {
    var id := ParseId(fields[0]);
    if !id.IdOk? then Drop(IdMessage(id, MsgClusterNodeId, MsgPidClustered, MsgPid))
    else if Atoi(fields[1]).None? then Drop(MsgUserId)
    else
      var end := NameEnd(fields, parse);
      if end == -1 then Drop(MsgTimeStamp)
      else if end <= 7 then Drop(MsgName)
      else
        Keep(LockData(id.pid, id.node, Atoi(fields[1]).value, fields[2], fields[3], fields[4],
                      fields[5], fields[6], TrimSpace(SpacePrefixed(fields[7..end])), LockTime(fields, parse)))
  }

  function LockOutcomes(rows: seq<seq<string>>, parse: TimeParser): seq<RowOutcome<LockData>>
    requires forall i :: 0 <= i < |rows| ==> RowReadable(rows[i])
  {
    seq(|rows|, i requires 0 <= i < |rows| => LockRow(rows[i], parse))
  }

  /** The records and diagnostics of a whole `smbstatus -L -n` text. */
  function LockTable(data: string, parse: TimeParser): Parsed<LockData>
    requires RowsIndexable(data)
  {
    Collect(LockOutcomes(DataRows(data), parse))
  }

  /** The time-stamp step of GetLockData's row loop: the 5-token window
      first, the 6-token window only when it fails. */
  method FindTimeStamp(fields: seq<string>, parse: TimeParser, now: Time) returns (lastNameIndex: int, time: Time)
    requires |fields| >= 7
    ensures lastNameIndex == NameEnd(fields, parse)
    ensures lastNameIndex != -1 ==> time == LockTime(fields, parse)
  {
    var fieldLength := |fields|;
    time := ZeroTime;
    lastNameIndex := -1;
    var timeConvSuc, connectTime := TryGetTimeStampFromStrArr(fields[fieldLength - 5..], parse, now);
    if timeConvSuc {
      time := connectTime;
      lastNameIndex := fieldLength - 5;
    } else {
      timeConvSuc, connectTime := TryGetTimeStampFromStrArr(fields[fieldLength - 6..], parse, now);
      if timeConvSuc {
        time := connectTime;
        lastNameIndex := fieldLength - 6;
      }
    }
  }

  /** The body of GetLockData's row loop: each `continue` of the Go loop is
      a Drop carrying the logged message, the final `append` a Keep. */
  method ReadLockRow(fields: seq<string>, parse: TimeParser, now: Time) returns (outcome: RowOutcome<LockData>)
    requires RowReadable(fields)
    ensures outcome == LockRow(fields, parse)
  {
    var id := ParseId(fields[0]);
    if !id.IdOk? {
      return Drop(IdMessage(id, MsgClusterNodeId, MsgPidClustered, MsgPid));
    }
    var userId := Atoi(fields[1]);
    if userId.None? {
      return Drop(MsgUserId);
    }
    var lastNameIndex, time := FindTimeStamp(fields, parse, now);
    if lastNameIndex == -1 {
      return Drop(MsgTimeStamp);
    }
    if lastNameIndex <= 7 {
      return Drop(MsgName);
    }
    var name := SpaceConcat(fields[7..lastNameIndex]);
    outcome := Keep(LockData(id.pid, id.node, userId.value, fields[2], fields[3], fields[4],
                             fields[5], fields[6], TrimSpace(name), time));
  }

  /** GetLockData, with the logger's messages returned in `log`. */
  method GetLockData(data: string, parse: TimeParser, now: Time) returns (ret: seq<LockData>, log: seq<string>)
    requires RowsIndexable(data)
    ensures Parsed(ret, log) == LockTable(data, parse)
  {
    ret, log := [], [];
    var lines, sepLineIndex := LocateTable(data);
    if sepLineIndex < 0 {
      RefusedTable(data, parse);
      return;
    }
    var rows := GetFieldMatrix(lines[sepLineIndex + 1..], " ");
    assert rows == DataRows(data);
    ret, log := ReadLockRows(rows, parse, now);
  }

  /** The checks GetLockData makes before its row loop: the "No locked
      files" text, a separator below a first line, and the header line. A
      failed check is -1 (Go returns an empty list). */
  method LocateTable(data: string) returns (lines: seq<string>, sepLineIndex: int)
    ensures sepLineIndex == TableSeparator(data)
    ensures sepLineIndex >= 0 ==> lines == Lines(data)
  {
    if TrimSpace(data) == NoLockedFiles {
      return [], -1;
    }
    lines := Split(data, "\n");
    sepLineIndex := FindSeparatorLineIndex(lines);
    if sepLineIndex < 1 {
      return lines, -1;
    }
    var headerLine := lines[sepLineIndex - 1..sepLineIndex];
    assert headerLine == [lines[sepLineIndex - 1]];
    var tableHeaderMatrix := GetFieldMatrixFixLength(headerLine, "  ", 9);
    FixedLengthOfLine(lines[sepLineIndex - 1], "  ", 9);
    ghost var header := Tokenize(lines[sepLineIndex - 1], "  ");
    if |tableHeaderMatrix| != 1 {
      assert !HeaderAccepted(header);
      return lines, -1;
    }
    var tableHeaderFields := tableHeaderMatrix[0];
    assert tableHeaderFields == header;
    if tableHeaderFields[0] != "Pid" || tableHeaderFields[5] != "Oplock" {
      assert !HeaderAccepted(header);
      return lines, -1;
    }
    assert HeaderAccepted(header);
  }

  /** GetLockData's row loop. */
  method ReadLockRows(rows: seq<seq<string>>, parse: TimeParser, now: Time) returns (ret: seq<LockData>, log: seq<string>)
    requires forall i :: 0 <= i < |rows| ==> RowReadable(rows[i])
    ensures Parsed(ret, log) == Collect(LockOutcomes(rows, parse))
  {
    ret, log := [], [];
    ghost var outcomes := LockOutcomes(rows, parse);
    for i := 0 to |rows|
      invariant Parsed(ret, log) == Collect(outcomes[..i])
    {
      CollectStep(outcomes, i);
      var outcome := ReadLockRow(rows[i], parse, now);
      match outcome {
        case Keep(entry) => ret := ret + [entry];
        case Drop(message) => log := log + [message];
      }
    }
    assert outcomes[..|rows|] == outcomes;
  }

  /** A refused table yields neither records nor diagnostics. */
  lemma RefusedTable(data: string, parse: TimeParser)
    requires TableSeparator(data) == -1
    ensures RowsIndexable(data) && LockTable(data, parse) == Parsed([], [])
  {
    assert DataRows(data) == [];
    assert LockOutcomes([], parse) == [];
  }

  /** The three ways the whole table is refused: the "No locked files"
      text, no separator below a first line, or a header that is not nine
      columns with "Pid" and "Oplock" in their places. */
  lemma LockTableRejects(data: string, parse: TimeParser)
    requires || TrimSpace(data) == NoLockedFiles
             || SeparatorIndex(Lines(data)) < 1
             || !HeaderAccepted(Tokenize(Lines(data)[SeparatorIndex(Lines(data)) - 1], "  "))
    ensures RowsIndexable(data) && LockTable(data, parse) == Parsed([], [])
  {
    if TrimSpace(data) != NoLockedFiles {
      var lines := Lines(data);
      var s := SeparatorIndex(lines);
      if s >= 1 {
        assert !HeaderAccepted(Tokenize(lines[s - 1], "  "));
      }
    }
    assert TableSeparator(data) == -1;
    RefusedTable(data, parse);
  }

  /** Output shape: every row below the separator yields either one record
      or one diagnostic; the j-th record is the parse of data line
      `s + 1 + idx[j]` for increasing `idx`, so records keep the order of
      their lines and each one is the Keep of a single whole line. */
  lemma LockTableShape(data: string, parse: TimeParser)
    requires RowsIndexable(data)
    ensures var p := LockTable(data, parse);
            var lines := Lines(data);
            var s := TableSeparator(data);
            && (s < 0 ==> p == Parsed([], []))
            && (s >= 0 ==> |p.records| + |p.log| == |lines| - s - 1)
            && |p.records| <= |DataRows(data)|
    ensures var p := LockTable(data, parse);
            var lines := Lines(data);
            var s := TableSeparator(data);
            var idx := KeptIndices(LockOutcomes(DataRows(data), parse));
            && |idx| == |p.records|
            && (forall j, k :: 0 <= j < k < |idx| ==> idx[j] < idx[k])
            && forall j :: 0 <= j < |idx| ==>
                 s >= 0 && s + 1 + idx[j] < |lines|
                 && RowReadable(Tokenize(lines[s + 1 + idx[j]], " "))
                 && LockRow(Tokenize(lines[s + 1 + idx[j]], " "), parse) == Keep(p.records[j])
  {
    var outcomes := LockOutcomes(DataRows(data), parse);
    var idx := KeptIndices(outcomes);
    var lines := Lines(data);
    var s := TableSeparator(data);
    forall j | 0 <= j < |idx|
      ensures s >= 0 && s + 1 + idx[j] < |lines|
      ensures RowReadable(Tokenize(lines[s + 1 + idx[j]], " "))
      ensures LockRow(Tokenize(lines[s + 1 + idx[j]], " "), parse) == Keep(LockTable(data, parse).records[j])
    {
      RowsOfIndex(lines[s + 1..], " ", idx[j]);
      assert DataRows(data)[idx[j]] == Tokenize(lines[s + 1 + idx[j]], " ");
    }
  }

  /** No kept row is lost: every data row that the row rule keeps has its
      place among the records. */
  lemma LockTableComplete(data: string, parse: TimeParser)
    requires RowsIndexable(data)
    ensures var rows := DataRows(data);
            var idx := KeptIndices(LockOutcomes(rows, parse));
            forall i :: 0 <= i < |rows| && LockRow(rows[i], parse).Keep? ==> i in idx
  {
    KeptIndicesComplete(LockOutcomes(DataRows(data), parse));
  }

  /** The log: the j-th message is the reason of data row d[j], for
      increasing d, and every dropped row has its message. */
  lemma LockTableLog(data: string, parse: TimeParser)
    requires RowsIndexable(data)
    ensures var p := LockTable(data, parse);
            var rows := DataRows(data);
            var d := DroppedIndices(LockOutcomes(rows, parse));
            && |d| == |p.log|
            && (forall j, k :: 0 <= j < k < |d| ==> d[j] < d[k])
            && (forall j :: 0 <= j < |d| ==> d[j] < |rows| && LockRow(rows[d[j]], parse) == Drop(p.log[j]))
            && forall i :: 0 <= i < |rows| && LockRow(rows[i], parse).Drop? ==> i in d
  {
    var rows := DataRows(data);
    var outcomes := LockOutcomes(rows, parse);
    DroppedIndicesComplete(outcomes);
    var d := DroppedIndices(outcomes);
    assert forall j :: 0 <= j < |d| ==> outcomes[d[j]] == LockRow(rows[d[j]], parse);
  }

  /** Short rows do not all make Go panic: a row whose id does not convert
      is skipped with its message whatever its length, and a row whose user
      id does not convert needs only two tokens. */
  lemma ShortRowsDropped(fields: seq<string>, parse: TimeParser)
    ensures |fields| >= 1 && !ParseId(fields[0]).IdOk? ==>
              RowReadable(fields) &&
              LockRow(fields, parse) == Drop(IdMessage(ParseId(fields[0]), MsgClusterNodeId, MsgPidClustered, MsgPid))
    ensures |fields| >= 2 && ParseId(fields[0]).IdOk? && Atoi(fields[1]).None? ==>
              RowReadable(fields) && LockRow(fields, parse) == Drop(MsgUserId)
  {
  }

  /** A row is kept exactly when both ids convert, the user id converts
      and the name boundary lies beyond the seventh token; otherwise its
      outcome is the diagnostic of the first check that failed. */
  lemma LockRowKept(fields: seq<string>, parse: TimeParser)
    requires RowReadable(fields)
    ensures LockRow(fields, parse).Keep? <==>
              ParseId(fields[0]).IdOk? && Atoi(fields[1]).Some? && |fields| >= 7 && NameEnd(fields, parse) > 7
    ensures !ParseId(fields[0]).IdOk? ==>
              LockRow(fields, parse) == Drop(IdMessage(ParseId(fields[0]), MsgClusterNodeId, MsgPidClustered, MsgPid))
    ensures ParseId(fields[0]).IdOk? && Atoi(fields[1]).None? ==> LockRow(fields, parse) == Drop(MsgUserId)
  {
    var id := ParseId(fields[0]);
    if !id.IdOk? {
      assert LockRow(fields, parse) == Drop(IdMessage(id, MsgClusterNodeId, MsgPidClustered, MsgPid));
    } else if Atoi(fields[1]).None? {
      assert LockRow(fields, parse) == Drop(MsgUserId);
    } else {
      var end := NameEnd(fields, parse);
      if end == -1 {
        assert LockRow(fields, parse) == Drop(MsgTimeStamp);
      } else if end <= 7 {
        assert LockRow(fields, parse) == Drop(MsgName);
      }
    }
  }

  /** Where the name ends and which time stamp a row carries, for rows of
      tokens: the last 5 tokens joined by single spaces when they parse,
      otherwise the last 6; no boundary when neither parses. */
  lemma NameEndTime(fields: seq<string>, parse: TimeParser)
    requires |fields| >= 7
    requires forall i :: 0 <= i < |fields| ==> IsToken(fields[i])
    ensures var n := |fields|;
            var end := NameEnd(fields, parse);
            var last5 := FirstParse(TimeStampLayouts, Join(fields[n - 5..], " "), parse);
            var last6 := FirstParse(TimeStampLayouts, Join(fields[n - 6..], " "), parse);
            && (end == -1 <==> last5 == None && last6 == None)
            && (end != -1 ==>
                  || (last5 == Some(LockTime(fields, parse)) && end == n - 5)
                  || (last5 == None && last6 == Some(LockTime(fields, parse)) && end == n - 6))
  {
    var n := |fields|;
    TimeStampOfTokens(fields[n - 5..], parse);
    TimeStampOfTokens(fields[n - 6..], parse);
  }

  /** What a kept row holds: both ids by the id rule, the user id, the
      five fixed columns, the name as the tokens from the eighth up to the
      time stamp joined by single spaces, and the time stamp NameEndTime
      describes. */
  lemma KeptLockRow(fields: seq<string>, parse: TimeParser)
    requires RowReadable(fields)
    requires forall i :: 0 <= i < |fields| ==> IsToken(fields[i])
    ensures LockRow(fields, parse).Keep? ==>
              var e := LockRow(fields, parse).record;
              && ParseId(fields[0]) == IdOk(e.clusterNodeId, e.pid)
              && Atoi(fields[1]) == Some(e.userId)
              && e.denyMode == fields[2] && e.access == fields[3] && e.accessMode == fields[4]
              && e.oplock == fields[5] && e.sharePath == fields[6]
              && |fields| >= 7 && 7 < NameEnd(fields, parse) <= |fields|
              && e.name == Join(fields[7..NameEnd(fields, parse)], " ")
              && e.time == LockTime(fields, parse)
  {
    if LockRow(fields, parse).Keep? {
      LockRowKept(fields, parse);
      var end := NameEnd(fields, parse);
      TrimmedSpacePrefixed(fields[7..end]);
    }
  }
}
