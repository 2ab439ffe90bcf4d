/** GetShareData: the reader of the `smbstatus -S -n` table of connected
    shares, in both the normal layout (with a connection time) and the
    cluster layout (with a protocol version instead). */
module ShareReader {
  import opened Wrappers
  import opened GoStrings
  import opened GoStrconv
  import opened GoTime
  import opened ReaderCommon

  /** One connected share. A cluster table has no service and no connection
      time, so those stay Go's zero values. */
  datatype ShareData = ShareData(
    service: string,
    pid: int,
    clusterNodeId: int,
    machine: string,
    connectedAt: Time,
    encryption: string,
    signing: string)

  /** How the header line says the rows are laid out. */
  datatype RunningMode = NoMode | Normal | Cluster

  /** The two widths of a row in the normal layout: twelve tokens when the
      connection time is printed on a 12-hour clock, eleven on a 24-hour
      clock. */
  datatype Width = C12 | C11

  function Columns(w: Width): nat
  {
    if w == C12 then 12 else 11
  }

  /** The connection time is spelt by tokens 3 up to TimeEnd(w); the two
      tokens after it are encryption and signing. */
  function TimeEnd(w: Width): nat
  {
    if w == C12 then 10 else 9
  }

  /** The layouts tried for the connection time, in order. */
  function ConnectedAtLayouts(w: Width): seq<Layout>
  {
    if w == C12 then [Layout(Pm12Padded, false), Layout(Pm12, false)]
    else [Layout(Clock24, false), Layout(Clock24ShortDay, false)]
  }

  function WidthTag(w: Width): string
  {
    if w == C12 then "c12" else "c11"
  }

  function NodeMessage(w: Width): string
  {
    "while getting ShareData ClusterNodeId (normal - " + WidthTag(w) + " - with :)"
  }

  function ClusteredPidMessage(w: Width): string
  {
    "while getting ShareData PID (normal - " + WidthTag(w) + " - with :)"
  }

  function PidMessage(w: Width): string
  {
    "while getting ShareData PID (normal - " + WidthTag(w) + " - without :)"
  }

  function ConnectedAtMessage(w: Width): string
  {
    "while getting ShareData ConnectedAt (normal - " + WidthTag(w) + ")"
  }

  const MsgClusterNodeId: string := "while getting ShareData ClusterNodeId (cluster - with :)"
  const MsgClusterPidClustered: string := "while getting ShareData PID (cluster - with :)"
  const MsgClusterPid: string := "while getting ShareData PID (cluster - without :)"

  /** The header line's double-space separated columns, when there are six
      of them (normal setup) or, failing that, seven (cluster setup). */
  function HeaderOf(line: string): (r: Option<seq<string>>)
    ensures r.Some? <==> |Tokenize(line, "  ")| == 6 || |Tokenize(line, "  ")| == 7
    ensures r.Some? ==> r.value == Tokenize(line, "  ")
  {
    var tokens := Tokenize(line, "  ");
    if |tokens| == 6 || |tokens| == 7 then Some(tokens) else None
  }

  /** The layout a header announces: "Service" first and "Connected at"
      fourth is the normal layout, "PID" first and "Protocol Version" fifth
      the cluster layout; the cluster test is made second and wins. */
  function ModeOf(header: seq<string>): RunningMode
    requires |header| >= 6
  {
    if header[0] == "PID" && header[4] == "Protocol Version" then Cluster
    else if header[0] == "Service" && header[3] == "Connected at" then Normal
    else NoMode
  }

  /** The layout of a whole `smbstatus -S -n` text; NoMode when there is no
      separator below a first line or the header is not understood. */
  function ShareMode(data: string): RunningMode
  {
    var lines := Lines(data);
    var s := SeparatorIndex(lines);
    if s < 1 then NoMode
    else
      match HeaderOf(lines[s - 1])
      case None => NoMode
      case Some(header) => ModeOf(header)
  }

  /** The token rows below the separator (none without one). */
  function BodyRows(data: string): seq<seq<string>>
  {
    var lines := Lines(data);
    var s := SeparatorIndex(lines);
    if s < 0 then [] else RowsOf(lines[s + 1..], " ")
  }

  /** The normal layout reads the 12-token rows when there is at least one,
      and the 11-token rows only when there is none. */
  function NormalWidth(rows: seq<seq<string>>): Width
  {
    if FixedLength(rows, 12) != [] then C12 else C11
  }

  /** The fate of one row of the normal layout. */
  function NormalRow(fields: seq<string>, w: Width, parse: TimeParser): RowOutcome<ShareData>
    requires |fields| == Columns(w)
  {
    var id := ParseId(fields[1]);
    if !id.IdOk? then Drop(IdMessage(id, NodeMessage(w), ClusteredPidMessage(w), PidMessage(w)))
    else
      match FirstParse(ConnectedAtLayouts(w), Join(fields[3..TimeEnd(w)], " "), parse)
      case None => Drop(ConnectedAtMessage(w))
      case Some(t) =>
        Keep(ShareData(fields[0], id.pid, id.node, fields[2], t, fields[TimeEnd(w)], fields[TimeEnd(w) + 1]))
  }

  /** The fate of one row of the cluster layout. */
  function ClusterRow(fields: seq<string>): RowOutcome<ShareData>
    requires |fields| == 8
  {
    var id := ParseId(fields[0]);
    if !id.IdOk? then Drop(IdMessage(id, MsgClusterNodeId, MsgClusterPidClustered, MsgClusterPid))
    else Keep(ShareData("", id.pid, id.node, fields[3] + " " + fields[4], ZeroTime, fields[6], fields[7]))
  }

  function NormalOutcomes(rows: seq<seq<string>>, w: Width, parse: TimeParser): seq<RowOutcome<ShareData>>
    requires forall i :: 0 <= i < |rows| ==> |rows[i]| == Columns(w)
  {
    seq(|rows|, i requires 0 <= i < |rows| => NormalRow(rows[i], w, parse))
  }

  function ClusterOutcomes(rows: seq<seq<string>>): seq<RowOutcome<ShareData>>
    requires forall i :: 0 <= i < |rows| ==> |rows[i]| == 8
  {
    seq(|rows|, i requires 0 <= i < |rows| => ClusterRow(rows[i]))
  }

  /** The rows a table in the given layout reads: those of the chosen width
      in the normal layout, the 8-token ones in the cluster layout. */
  function ReadRows(data: string): seq<seq<string>>
  {
    match ShareMode(data)
    case NoMode => []
    case Normal => FixedLength(BodyRows(data), Columns(NormalWidth(BodyRows(data))))
    case Cluster => FixedLength(BodyRows(data), 8)
  }

  /** The outcome of every row the reader looks at, in order. */
  function ShareOutcomes(data: string, parse: TimeParser): seq<RowOutcome<ShareData>>
  {
    var rows := ReadRows(data);
    match ShareMode(data)
    case NoMode => []
    case Normal => NormalOutcomes(rows, NormalWidth(BodyRows(data)), parse)
    case Cluster => ClusterOutcomes(rows)
  }

  /** The records and diagnostics of a whole `smbstatus -S -n` text. */
  function ShareTable(data: string, parse: TimeParser): Parsed<ShareData>
  {
    Collect(ShareOutcomes(data, parse))
  }

  /** The body of the normal layout's row loop (either width). */
  method ReadNormalRow(fields: seq<string>, w: Width, parse: TimeParser) returns (outcome: RowOutcome<ShareData>)
    requires |fields| == Columns(w)
    ensures outcome == NormalRow(fields, w, parse)
  {
    var id := ParseId(fields[1]);
    if !id.IdOk? {
      return Drop(IdMessage(id, NodeMessage(w), ClusteredPidMessage(w), PidMessage(w)));
    }
    // fmt.Sprintf with one "%s" per time token, separated by single spaces
    var timeStr := Join(fields[3..TimeEnd(w)], " ");
    var layouts := ConnectedAtLayouts(w);
    var connectedAt := parse(layouts[0], timeStr);
    if connectedAt.None? {
      connectedAt := parse(layouts[1], timeStr);
      if connectedAt.None? {
        return Drop(ConnectedAtMessage(w));
      }
    }
    assert layouts[1..][1..] == [];
    outcome := Keep(ShareData(fields[0], id.pid, id.node, fields[2], connectedAt.value,
                              fields[TimeEnd(w)], fields[TimeEnd(w) + 1]));
  }

  /** The body of the cluster layout's row loop. */
  method ReadClusterRow(fields: seq<string>) returns (outcome: RowOutcome<ShareData>)
    requires |fields| == 8
    ensures outcome == ClusterRow(fields)
  {
    var id := ParseId(fields[0]);
    if !id.IdOk? {
      return Drop(IdMessage(id, MsgClusterNodeId, MsgClusterPidClustered, MsgClusterPid));
    }
    outcome := Keep(ShareData("", id.pid, id.node, fields[3] + " " + fields[4], ZeroTime, fields[6], fields[7]));
  }

  /** The row loop of the normal layout. */
  method ReadNormalRows(rows: seq<seq<string>>, w: Width, parse: TimeParser) returns (ret: seq<ShareData>, log: seq<string>)
    requires forall i :: 0 <= i < |rows| ==> |rows[i]| == Columns(w)
    ensures Parsed(ret, log) == Collect(NormalOutcomes(rows, w, parse))
  {
    ret, log := [], [];
    ghost var outcomes := NormalOutcomes(rows, w, parse);
    for i := 0 to |rows|
      invariant Parsed(ret, log) == Collect(outcomes[..i])
    {
      CollectStep(outcomes, i);
      var outcome := ReadNormalRow(rows[i], w, parse);
      match outcome {
        case Keep(entry) => ret := ret + [entry];
        case Drop(message) => log := log + [message];
      }
    }
    assert outcomes[..|rows|] == outcomes;
  }

  /** The row loop of the cluster layout. */
  method ReadClusterRows(rows: seq<seq<string>>) returns (ret: seq<ShareData>, log: seq<string>)
    requires forall i :: 0 <= i < |rows| ==> |rows[i]| == 8
    ensures Parsed(ret, log) == Collect(ClusterOutcomes(rows))
  {
    ret, log := [], [];
    ghost var outcomes := ClusterOutcomes(rows);
    for i := 0 to |rows|
      invariant Parsed(ret, log) == Collect(outcomes[..i])
    {
      CollectStep(outcomes, i);
      var outcome := ReadClusterRow(rows[i]);
      match outcome {
        case Keep(entry) => ret := ret + [entry];
        case Drop(message) => log := log + [message];
      }
    }
    assert outcomes[..|rows|] == outcomes;
  }

  /** GetShareData, with the logger's messages returned in `log`. */
  method GetShareData(data: string, parse: TimeParser) returns (ret: seq<ShareData>, log: seq<string>)
    ensures Parsed(ret, log) == ShareTable(data, parse)
  {
    ret, log := [], [];
    var lines := Split(data, "\n");
    var sepLineIndex := FindSeparatorLineIndex(lines);
    if sepLineIndex < 1 {
      return;
    }
    var headerLine := lines[sepLineIndex - 1..sepLineIndex];
    assert headerLine == [lines[sepLineIndex - 1]];
    var tableHeaderMatrix := GetFieldMatrixFixLength(headerLine, "  ", 6);
    if |tableHeaderMatrix| != 1 {
      tableHeaderMatrix := GetFieldMatrixFixLength(headerLine, "  ", 7);
      if |tableHeaderMatrix| != 1 {
        return;
      }
    }
    var tableHeaderFields := tableHeaderMatrix[0];
    assert HeaderOf(lines[sepLineIndex - 1]) == Some(tableHeaderFields);
    var runningMode := NoMode;
    if tableHeaderFields[0] == "Service" && tableHeaderFields[3] == "Connected at" {
      runningMode := Normal;
    }
    if tableHeaderFields[0] == "PID" && tableHeaderFields[4] == "Protocol Version" {
      runningMode := Cluster;
    }
    assert runningMode == ShareMode(data);
    assert RowsOf(lines[sepLineIndex + 1..], " ") == BodyRows(data);
    if runningMode == Normal {
      var fieldMatrix := GetFieldMatrixFixLength(lines[sepLineIndex + 1..], " ", 12);
      if fieldMatrix != [] {
        ret, log := ReadNormalRows(fieldMatrix, C12, parse);
      } else {
        fieldMatrix := GetFieldMatrixFixLength(lines[sepLineIndex + 1..], " ", 11);
        ret, log := ReadNormalRows(fieldMatrix, C11, parse);
      }
    } else if runningMode == Cluster {
      var fieldMatrix := GetFieldMatrixFixLength(lines[sepLineIndex + 1..], " ", 8);
      ret, log := ReadClusterRows(fieldMatrix);
    }
  }

  /** The ways the whole table is refused: no separator below a first
      line, a header of neither six nor seven columns, or a header naming
      neither layout. */
  lemma ShareTableRejects(data: string, parse: TimeParser)
    requires var lines := Lines(data);
             var s := SeparatorIndex(lines);
             || s < 1
             || (|Tokenize(lines[s - 1], "  ")| != 6 && |Tokenize(lines[s - 1], "  ")| != 7)
             || (var h := Tokenize(lines[s - 1], "  ");
                 !(h[0] == "PID" && h[4] == "Protocol Version") && !(h[0] == "Service" && h[3] == "Connected at"))
    ensures ShareMode(data) == NoMode
    ensures ShareTable(data, parse) == Parsed([], [])
  {
    var lines := Lines(data);
    var s := SeparatorIndex(lines);
    if s >= 1 {
      var h := Tokenize(lines[s - 1], "  ");
      if |h| == 6 || |h| == 7 {
        assert HeaderOf(lines[s - 1]) == Some(h);
      }
    }
    assert ShareOutcomes(data, parse) == [];
  }

  /** Which headers select which layout: the header line above the
      separator, six or seven columns wide, with "Service" first and
      "Connected at" fourth for the normal layout, or "PID" first and
      "Protocol Version" fifth for the cluster layout. */
  lemma ShareModeOfHeader(data: string)
    ensures var lines := Lines(data);
            var s := SeparatorIndex(lines);
            ShareMode(data) == Normal <==>
              (s >= 1 && var h := Tokenize(lines[s - 1], "  ");
                 (|h| == 6 || |h| == 7) && h[0] == "Service" && h[3] == "Connected at")
    ensures var lines := Lines(data);
            var s := SeparatorIndex(lines);
            ShareMode(data) == Cluster <==>
              (s >= 1 && var h := Tokenize(lines[s - 1], "  ");
                 (|h| == 6 || |h| == 7) && h[0] == "PID" && h[4] == "Protocol Version")
  {
  }

  /** The normal layout reads the twelve-token rows when some row has
      twelve tokens, and otherwise the eleven-token rows; every row it reads
      has that width and appears below the separator. */
  lemma NormalPrefersTwelve(data: string, parse: TimeParser)
    requires ShareMode(data) == Normal
    ensures var rows := BodyRows(data);
            (exists i :: 0 <= i < |rows| && |rows[i]| == 12) ==> ReadRows(data) == FixedLength(rows, 12)
    ensures var rows := BodyRows(data);
            (forall i :: 0 <= i < |rows| ==> |rows[i]| != 12) ==> ReadRows(data) == FixedLength(rows, 11)
    ensures var rows := BodyRows(data);
            var w := NormalWidth(rows);
            forall k :: 0 <= k < |ReadRows(data)| ==> |ReadRows(data)[k]| == Columns(w) && ReadRows(data)[k] in rows
  {
    var rows := BodyRows(data);
    FixedLengthEmpty(rows, 12);
    FixedLengthMembers(rows, Columns(NormalWidth(rows)));
  }

  /** Output shape: one outcome per row read, and the j-th record is the
      Keep of the idx[j]-th row read, for increasing idx, by the row rule of
      the table's layout. */
  lemma ShareTableShape(data: string, parse: TimeParser)
    ensures |ShareOutcomes(data, parse)| == |ReadRows(data)|
    ensures var p := ShareTable(data, parse);
            |p.records| + |p.log| == |ReadRows(data)|
    ensures var p := ShareTable(data, parse);
            var rows := ReadRows(data);
            var idx := KeptIndices(ShareOutcomes(data, parse));
            && |idx| == |p.records|
            && (forall j, k :: 0 <= j < k < |idx| ==> idx[j] < idx[k])
            && forall j :: 0 <= j < |idx| ==>
                 && idx[j] < |rows|
                 && (ShareMode(data) == Normal ==>
                       var w := NormalWidth(BodyRows(data));
                       |rows[idx[j]]| == Columns(w) && NormalRow(rows[idx[j]], w, parse) == Keep(p.records[j]))
                 && (ShareMode(data) == Cluster ==>
                       |rows[idx[j]]| == 8 && ClusterRow(rows[idx[j]]) == Keep(p.records[j]))
  {
  }

  /** No kept row is lost: every row read that the layout's row rule keeps
      has its place among the records. */
  lemma ShareTableComplete(data: string, parse: TimeParser)
    ensures var rows := ReadRows(data);
            var idx := KeptIndices(ShareOutcomes(data, parse));
            && (ShareMode(data) == Normal ==>
                  var w := NormalWidth(BodyRows(data));
                  forall i :: 0 <= i < |rows| ==>
                    |rows[i]| == Columns(w) && (NormalRow(rows[i], w, parse).Keep? ==> i in idx))
            && (ShareMode(data) == Cluster ==>
                  forall i :: 0 <= i < |rows| ==> |rows[i]| == 8 && (ClusterRow(rows[i]).Keep? ==> i in idx))
  {
    var rows := ReadRows(data);
    var outcomes := ShareOutcomes(data, parse);
    KeptIndicesComplete(outcomes);
    var idx := KeptIndices(outcomes);
    match ShareMode(data)
    case NoMode =>
    case Normal =>
      var w := NormalWidth(BodyRows(data));
      assert outcomes == NormalOutcomes(rows, w, parse);
      forall i | 0 <= i < |rows|
        ensures |rows[i]| == Columns(w) && (NormalRow(rows[i], w, parse).Keep? ==> i in idx)
      {
        assert outcomes[i] == NormalRow(rows[i], w, parse);
      }
    case Cluster =>
      assert outcomes == ClusterOutcomes(rows);
      forall i | 0 <= i < |rows|
        ensures |rows[i]| == 8 && (ClusterRow(rows[i]).Keep? ==> i in idx)
      {
        assert outcomes[i] == ClusterRow(rows[i]);
      }
  }

  /** The log of a normal table: the j-th message is the reason of the
      d[j]-th row read, for increasing d, and every row the row rule drops
      has its message. */
  lemma NormalTableLog(data: string, parse: TimeParser)
    requires ShareMode(data) == Normal
    ensures var p := ShareTable(data, parse);
            var rows := ReadRows(data);
            var w := NormalWidth(BodyRows(data));
            var d := DroppedIndices(ShareOutcomes(data, parse));
            && (forall j, k :: 0 <= j < k < |d| ==> d[j] < d[k])
            && (forall j :: 0 <= j < |d| ==>
                  d[j] < |rows| && |rows[d[j]]| == Columns(w) && NormalRow(rows[d[j]], w, parse) == Drop(p.log[j]))
            && forall i :: 0 <= i < |rows| ==>
                 |rows[i]| == Columns(w) && (NormalRow(rows[i], w, parse).Drop? ==> i in d)
  {
    var rows := ReadRows(data);
    var w := NormalWidth(BodyRows(data));
    var outcomes := ShareOutcomes(data, parse);
    assert outcomes == NormalOutcomes(rows, w, parse);
    DroppedIndicesComplete(outcomes);
    forall i | 0 <= i < |rows|
      ensures |rows[i]| == Columns(w) && outcomes[i] == NormalRow(rows[i], w, parse)
    {
    }
  }

  /** The log of a cluster table: the j-th message is the reason of the
      d[j]-th row read, for increasing d, and every row the row rule drops
      has its message. */
  lemma ClusterTableLog(data: string, parse: TimeParser)
    requires ShareMode(data) == Cluster
    ensures var p := ShareTable(data, parse);
            var rows := ReadRows(data);
            var d := DroppedIndices(ShareOutcomes(data, parse));
            && (forall j, k :: 0 <= j < k < |d| ==> d[j] < d[k])
            && (forall j :: 0 <= j < |d| ==>
                  d[j] < |rows| && |rows[d[j]]| == 8 && ClusterRow(rows[d[j]]) == Drop(p.log[j]))
            && forall i :: 0 <= i < |rows| ==> |rows[i]| == 8 && (ClusterRow(rows[i]).Drop? ==> i in d)
  {
    var rows := ReadRows(data);
    var outcomes := ShareOutcomes(data, parse);
    assert outcomes == ClusterOutcomes(rows);
    DroppedIndicesComplete(outcomes);
    forall i | 0 <= i < |rows|
      ensures |rows[i]| == 8 && outcomes[i] == ClusterRow(rows[i])
    {
    }
  }

  /** A row of the normal layout is kept exactly when its id converts and
      one of the width's two layouts reads its time text; the record then
      takes the service, the machine, encryption and signing from their
      columns, the ids by the id rule, and the time from the first layout
      that reads it. */
  lemma NormalRowKept(fields: seq<string>, w: Width, parse: TimeParser)
    requires |fields| == Columns(w)
    ensures var text := Join(fields[3..TimeEnd(w)], " ");
            var layouts := ConnectedAtLayouts(w);
            NormalRow(fields, w, parse).Keep? <==>
              ParseId(fields[1]).IdOk? && (parse(layouts[0], text).Some? || parse(layouts[1], text).Some?)
    ensures var text := Join(fields[3..TimeEnd(w)], " ");
            var layouts := ConnectedAtLayouts(w);
            NormalRow(fields, w, parse).Keep? ==>
              var e := NormalRow(fields, w, parse).record;
              && ParseId(fields[1]) == IdOk(e.clusterNodeId, e.pid)
              && e.service == fields[0] && e.machine == fields[2]
              && e.encryption == fields[TimeEnd(w)] && e.signing == fields[TimeEnd(w) + 1]
              && (parse(layouts[0], text) == Some(e.connectedAt)
                  || (parse(layouts[0], text).None? && parse(layouts[1], text) == Some(e.connectedAt)))
    ensures ParseId(fields[1]).IdOk? && !NormalRow(fields, w, parse).Keep? ==>
              NormalRow(fields, w, parse) == Drop(ConnectedAtMessage(w))
  {
    var layouts := ConnectedAtLayouts(w);
    assert layouts[1..][1..] == [];
  }

  /** A row of the cluster layout is kept exactly when its id converts; the
      record has no service and the zero time, the machine is the fourth and
      fifth tokens joined by a space, and encryption and signing are the
      last two tokens. */
  lemma ClusterRowKept(fields: seq<string>)
    requires |fields| == 8
    ensures ClusterRow(fields).Keep? <==> ParseId(fields[0]).IdOk?
    ensures ClusterRow(fields).Keep? ==>
              var e := ClusterRow(fields).record;
              && ParseId(fields[0]) == IdOk(e.clusterNodeId, e.pid)
              && e.service == "" && e.connectedAt == ZeroTime
              && e.machine == fields[3] + " " + fields[4]
              && e.encryption == fields[6] && e.signing == fields[7]
  {
  }

  /** Every record of a cluster table has no service and the zero time. */
  lemma ClusterRecordsUntimed(data: string, parse: TimeParser)
    requires ShareMode(data) == Cluster
    ensures forall j :: 0 <= j < |ShareTable(data, parse).records| ==>
              ShareTable(data, parse).records[j].service == "" && ShareTable(data, parse).records[j].connectedAt == ZeroTime
  {
    var outcomes := ShareOutcomes(data, parse);
    var idx := KeptIndices(outcomes);
    forall j | 0 <= j < |idx|
      ensures ShareTable(data, parse).records[j].service == "" && ShareTable(data, parse).records[j].connectedAt == ZeroTime
    {
      ClusterRowKept(ReadRows(data)[idx[j]]);
    }
  }
}
