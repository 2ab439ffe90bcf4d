/** The pipeline that the three table readers of reader.go share: find the
    dash separator line, tokenise the header and the data rows, keep rows of
    a fixed width, read a time stamp out of trailing tokens, read a
    "node:pid" id token, and collect the rows that parse while logging the
    ones that do not. */
module ReaderCommon {
  import opened Wrappers
  import opened GoStrings
  import opened GoStrconv
  import opened GoTime

  /** The number of dashes that start a separator line. */
  const SeparatorWidth: nat := 41

  /** A line that starts with 41 dashes separates header and rows. */
  predicate IsSeparatorLine(line: string)
  {
    |line| >= SeparatorWidth && forall i :: 0 <= i < SeparatorWidth ==> line[i] == '-'
  }

  /** The input text cut at every newline. */
  function Lines(data: string): seq<string>
  {
    Split(data, "\n")
  }

  /** The index of the first separator line, or -1 when there is none. */
  function SeparatorIndex(lines: seq<string>): (r: int)
    ensures -1 <= r < |lines|
    ensures r >= 0 ==> IsSeparatorLine(lines[r])
    ensures forall i {:trigger IsSeparatorLine(lines[i])} ::
              0 <= i < |lines| && (r == -1 || i < r) ==> !IsSeparatorLine(lines[i])
  {
    if lines == [] then -1
    else if IsSeparatorLine(lines[0]) then 0
    else
      var r := SeparatorIndex(lines[1..]);
      assert forall i :: 1 <= i < |lines| ==> lines[i] == lines[1..][i - 1];
      if r < 0 then -1 else r + 1
  }

  /** findSeperatorLineIndex: scans the lines and returns at the first one
      that starts with the separator. */
  method FindSeparatorLineIndex(lines: seq<string>) returns (index: int)
    ensures index == SeparatorIndex(lines)
  {
    for i := 0 to |lines|
      invariant forall j :: 0 <= j < i ==> !IsSeparatorLine(lines[j])
    {
      if IsSeparatorLine(lines[i]) {
        return i;
      }
    }
    return -1;
  }

  /** The pieces that are not blank once trimmed, trimmed, in order. */
  function TrimmedPieces(pieces: seq<string>): (tokens: seq<string>)
    ensures |tokens| <= |pieces|
    ensures forall i {:trigger IsToken(tokens[i])} :: 0 <= i < |tokens| ==> IsToken(tokens[i])
  {
    if pieces == [] then []
    else
      var front := TrimmedPieces(pieces[..|pieces| - 1]);
      var t := TrimSpace(pieces[|pieces| - 1]);
      if t == "" then front else front + [t]
  }

  /** One line cut at `separator` into its trimmed non-empty fields. */
  function Tokenize(line: string, separator: string): seq<string>
    requires separator != []
  {
    TrimmedPieces(Split(line, separator))
  }

  /** The field matrix of a block of lines: one token row per line. */
  function RowsOf(lines: seq<string>, separator: string): (rows: seq<seq<string>>)
    requires separator != []
    ensures |rows| == |lines|
  {
    if lines == [] then []
    else RowsOf(lines[..|lines| - 1], separator) + [Tokenize(lines[|lines| - 1], separator)]
  }

  /** Row `i` of the field matrix is line `i` tokenised. */
  lemma {:induction false} RowsOfIndex(lines: seq<string>, separator: string, i: int)
    requires separator != []
    requires 0 <= i < |lines|
    ensures RowsOf(lines, separator)[i] == Tokenize(lines[i], separator)
    decreases |lines|
  {
    if i < |lines| - 1 {
      var init := lines[..|lines| - 1];
      RowsOfIndex(init, separator, i);
      assert init[i] == lines[i];
    }
  }

  /** The inner loop of getFieldMatrix: trims each piece of a line and keeps
      the non-empty ones. */
  method TrimFields(fields: seq<string>) returns (matrixLine: seq<string>)
    ensures matrixLine == TrimmedPieces(fields)
  {
    matrixLine := [];
    for j := 0 to |fields|
      invariant matrixLine == TrimmedPieces(fields[..j])
    {
      assert fields[..j + 1][..j] == fields[..j];
      var trimmedField := TrimSpace(fields[j]);
      if trimmedField != "" {
        matrixLine := matrixLine + [trimmedField];
      }
    }
    assert fields[..|fields|] == fields;
  }

  /** getFieldMatrix: one row per input line, in input order, each made of
      trimmed non-empty tokens. */
  method GetFieldMatrix(dataLines: seq<string>, separator: string) returns (fieldMatrix: seq<seq<string>>)
    requires separator != []
    ensures fieldMatrix == RowsOf(dataLines, separator)
  {
    fieldMatrix := [];
    for k := 0 to |dataLines|
      invariant fieldMatrix == RowsOf(dataLines[..k], separator)
    {
      assert dataLines[..k + 1][..k] == dataLines[..k];
      var matrixLine := TrimFields(Split(dataLines[k], separator));
      fieldMatrix := fieldMatrix + [matrixLine];
    }
    assert dataLines[..|dataLines|] == dataLines;
  }

  /** The rows of exactly `n` tokens, in their original order. */
  function FixedLength(matrix: seq<seq<string>>, n: int): (r: seq<seq<string>>)
    ensures |r| <= |matrix|
    ensures forall i :: 0 <= i < |r| ==> |r[i]| == n
  {
    if matrix == [] then []
    else
      var last := matrix[|matrix| - 1];
      assert matrix == matrix[..|matrix| - 1] + [last];
      FixedLength(matrix[..|matrix| - 1], n) + (if |last| == n then [last] else [])
  }

  /** Filtering commutes with concatenation, so kept rows stay in order. */
  lemma {:induction false} FixedLengthAppend(a: seq<seq<string>>, b: seq<seq<string>>, n: int)
    ensures FixedLength(a + b, n) == FixedLength(a, n) + FixedLength(b, n)
    decreases |b|
  {
    if b == [] {
      assert a + b == a;
    } else {
      var init := b[..|b| - 1];
      assert (a + b)[..|a + b| - 1] == a + init;
      FixedLengthAppend(a, init, n);
    }
  }

  /** The filter keeps rows of the matrix, and every row of width `n`. */
  lemma {:induction false} FixedLengthMembers(matrix: seq<seq<string>>, n: int)
    ensures forall i :: 0 <= i < |FixedLength(matrix, n)| ==> FixedLength(matrix, n)[i] in matrix
    ensures forall i :: 0 <= i < |matrix| && |matrix[i]| == n ==> matrix[i] in FixedLength(matrix, n)
    decreases |matrix|
  {
    if matrix != [] {
      var init := matrix[..|matrix| - 1];
      var last := matrix[|matrix| - 1];
      assert matrix == init + [last];
      FixedLengthMembers(init, n);
      var r := FixedLength(matrix, n);
      var front := FixedLength(init, n);
      assert r == front + (if |last| == n then [last] else []);
      forall i | 0 <= i < |r|
        ensures r[i] in matrix
      {
        if i < |front| {
          assert r[i] == front[i];
          assert front[i] in init;
        } else {
          assert r[i] == last;
        }
      }
      forall i | 0 <= i < |matrix| && |matrix[i]| == n
        ensures matrix[i] in r
      {
        if i < |init| {
          assert matrix[i] == init[i];
          assert init[i] in front;
        } else {
          assert matrix[i] == last;
          assert r[|r| - 1] == last;
        }
      }
    }
  }

  /** No row survives the filter exactly when no row has `n` tokens. */
  lemma FixedLengthEmpty(matrix: seq<seq<string>>, n: int)
    ensures FixedLength(matrix, n) == [] <==> forall i :: 0 <= i < |matrix| ==> |matrix[i]| != n
  {
    FixedLengthMembers(matrix, n);
    if FixedLength(matrix, n) != [] {
      assert FixedLength(matrix, n)[0] in matrix;
    }
  }

  /** On a single header line the filter keeps the line's tokens exactly
      when there are `n` of them. */
  lemma FixedLengthOfLine(line: string, separator: string, n: int)
    requires separator != []
    ensures var t := Tokenize(line, separator);
            FixedLength(RowsOf([line], separator), n) == if |t| == n then [t] else []
  {
    assert [line][..0] == [];
    var rows := RowsOf([line], separator);
    assert rows == [Tokenize(line, separator)];
    assert rows[..0] == [];
  }

  /** getFieldMatrixFixLength: the field matrix of the lines, keeping only
      the rows of exactly `lineFields` tokens. */
  method GetFieldMatrixFixLength(dataLines: seq<string>, separator: string, lineFields: int)
    returns (fieldMatrix: seq<seq<string>>)
    requires separator != []
    ensures fieldMatrix == FixedLength(RowsOf(dataLines, separator), lineFields)
  {
    var matrix := GetFieldMatrix(dataLines, separator);
    fieldMatrix := [];
    for k := 0 to |matrix|
      invariant fieldMatrix == FixedLength(matrix[..k], lineFields)
    {
      assert matrix[..k + 1][..k] == matrix[..k];
      if |matrix[k]| == lineFields {
        fieldMatrix := fieldMatrix + [matrix[k]];
      }
    }
    assert matrix[..|matrix|] == matrix;
  }

  /** The Go loop `s = fmt.Sprintf("%s %s", s, part)` started from "". */
  method SpaceConcat(parts: seq<string>) returns (s: string)
    ensures s == SpacePrefixed(parts)
  {
    s := "";
    for k := 0 to |parts|
      invariant s == SpacePrefixed(parts[..k])
    {
      assert parts[..k + 1][..k] == parts[..k];
      s := s + " " + parts[k];
    }
    assert parts[..|parts|] == parts;
  }

  /** The layouts tryGetTimeStampFromStrArr tries, in order. */
  const TimeStampLayouts: seq<Layout> := [
    Layout(ANSIC, true), Layout(ANSIC, false), Layout(Pm12Padded, false),
    Layout(Pm12, false), Layout(Clock24, false), Layout(Clock24ShortDay, false)]

  /** The time stamp spelt by some fields, if one of the layouts reads it. */
  function TimeStamp(fields: seq<string>, parse: TimeParser): Option<Time>
  {
    FirstParse(TimeStampLayouts, TrimSpace(SpacePrefixed(fields)), parse)
  }

  /** For token fields the text handed to the time parser is the fields
      joined by single spaces. */
  lemma TimeStampOfTokens(fields: seq<string>, parse: TimeParser)
    requires forall i :: 0 <= i < |fields| ==> IsToken(fields[i])
    ensures TimeStamp(fields, parse) == FirstParse(TimeStampLayouts, Join(fields, " "), parse)
  {
    TrimmedSpacePrefixed(fields);
  }

  /** tryGetTimeStampFromStrArr: joins the fields, trims, and tries the six
      layouts one after the other; on failure it returns `now`, the clock
      reading Go takes with time.Now(). */
  method TryGetTimeStampFromStrArr(fields: seq<string>, parse: TimeParser, now: Time) returns (ok: bool, t: Time)
    ensures ok == TimeStamp(fields, parse).Some?
    ensures t == if ok then TimeStamp(fields, parse).value else now
  {
    var timeStr := SpaceConcat(fields);
    timeStr := TrimSpace(timeStr);
    ok, t := ParseWithLayouts(timeStr, parse, now);
  }

  /** The six parse attempts of tryGetTimeStampFromStrArr on the trimmed
      text, in order; the first that succeeds wins. */
  method ParseWithLayouts(timeStr: string, parse: TimeParser, now: Time) returns (ok: bool, t: Time)
    ensures ok == FirstParse(TimeStampLayouts, timeStr, parse).Some?
    ensures t == if ok then FirstParse(TimeStampLayouts, timeStr, parse).value else now
  {
    ghost var layouts := TimeStampLayouts;
    assert |layouts| == 6 && layouts[0..] == layouts;
    // ANSIC in the local zone
    var r := parse(TimeStampLayouts[0], timeStr);
    assert FirstParse(layouts[0..], timeStr, parse) == if r.Some? then r else FirstParse(layouts[1..], timeStr, parse) by {
      assert layouts[0..][1..] == layouts[1..];
    }
    if r.Some? {
      return true, r.value;
    }
    // ANSIC
    r := parse(TimeStampLayouts[1], timeStr);
    assert FirstParse(layouts[1..], timeStr, parse) == if r.Some? then r else FirstParse(layouts[2..], timeStr, parse) by {
      assert layouts[1..][1..] == layouts[2..];
    }
    if r.Some? {
      return true, r.value;
    }
    // Pm12Padded
    r := parse(TimeStampLayouts[2], timeStr);
    assert FirstParse(layouts[2..], timeStr, parse) == if r.Some? then r else FirstParse(layouts[3..], timeStr, parse) by {
      assert layouts[2..][1..] == layouts[3..];
    }
    if r.Some? {
      return true, r.value;
    }
    // Pm12
    r := parse(TimeStampLayouts[3], timeStr);
    assert FirstParse(layouts[3..], timeStr, parse) == if r.Some? then r else FirstParse(layouts[4..], timeStr, parse) by {
      assert layouts[3..][1..] == layouts[4..];
    }
    if r.Some? {
      return true, r.value;
    }
    // Clock24
    r := parse(TimeStampLayouts[4], timeStr);
    assert FirstParse(layouts[4..], timeStr, parse) == if r.Some? then r else FirstParse(layouts[5..], timeStr, parse) by {
      assert layouts[4..][1..] == layouts[5..];
    }
    if r.Some? {
      return true, r.value;
    }
    // Clock24ShortDay
    r := parse(TimeStampLayouts[5], timeStr);
    assert FirstParse(layouts[5..], timeStr, parse) == if r.Some? then r else FirstParse(layouts[6..], timeStr, parse) by {
      assert layouts[5..][1..] == layouts[6..];
    }
    if r.Some? {
      return true, r.value;
    }
    return false, now;
  }

  /** Reading an id token: either both ids, or which conversion failed. */
  datatype IdParse = IdOk(node: int, pid: int) | NodeFailed | PidFailed(clustered: bool)

  /** The id rule of all three tables: a token with a colon is
      "node:pid" (the pieces before the first and the second colon), a
      token without one is a bare pid and the node id is -1. */
  function ParseId(token: string): IdParse
  {
    if ':' in token then
      var pidFields := Split(token, ":");
      SplitOfContained(token, ':');
      match Atoi(pidFields[0])
      case None => NodeFailed
      case Some(node) =>
        match Atoi(pidFields[1])
        case None => PidFailed(true)
        case Some(pid) => IdOk(node, pid)
    else
      match Atoi(token)
      case None => PidFailed(false)
      case Some(pid) => IdOk(-1, pid)
  }

  /** A token without a colon: the node id is the -1 sentinel and the pid is
      the token's value; a failed conversion drops the line. */
  lemma ParseIdPlain(token: string)
    requires ':' !in token
    ensures ParseId(token) == if Atoi(token).Some? then IdOk(-1, Atoi(token).value) else PidFailed(false)
  {
  }

  /** A token "a:b", possibly followed by more colon-separated parts that are
      ignored: the node id comes from `a` and the pid from `b`, the node
      conversion taking precedence when both fail. */
  lemma ParseIdClustered(a: string, b: string, tail: string)
    requires ':' !in a && ':' !in b && (tail == [] || tail[0] == ':')
    ensures ParseId(a + ":" + b + tail) ==
      if Atoi(a).None? then NodeFailed
      else if Atoi(b).None? then PidFailed(true)
      else IdOk(Atoi(a).value, Atoi(b).value)
  {
    var token := a + ":" + b + tail;
    assert token[|a|] == ':';
    assert token == a + [':'] + (b + tail);
    SplitAtFirst(a, ':', b + tail);
    if tail == [] {
      assert b + tail == b;
      SplitWithoutSeparator(b, ':');
    } else {
      assert b + tail == b + [':'] + tail[1..];
      SplitAtFirst(b, ':', tail[1..]);
    }
  }

  /** Printed ids read back: "node:pid" gives both, a bare pid gives node -1. */
  lemma ParseIdOfPrinted(node: int, pid: int)
    requires MinInt <= node <= MaxInt && MinInt <= pid <= MaxInt
    ensures ParseId(Itoa(node) + ":" + Itoa(pid)) == IdOk(node, pid)
    ensures ParseId(Itoa(pid)) == IdOk(-1, pid)
  {
    ItoaHasNoColon(node);
    ItoaHasNoColon(pid);
    AtoiOfItoa(node);
    AtoiOfItoa(pid);
    assert Itoa(node) + ":" + Itoa(pid) == Itoa(node) + ":" + Itoa(pid) + "";
    ParseIdClustered(Itoa(node), Itoa(pid), "");
  }

  lemma ItoaHasNoColon(n: int)
    ensures ':' !in Itoa(n)
  {
    var d := if n < 0 then NatDigits(-n) else NatDigits(n);
    assert forall i :: 0 <= i < |d| ==> d[i] != ':';
    if n < 0 {
      assert Itoa(n) == "-" + d;
    }
  }

  /** A negative node id before the colon is accepted as it is: the rule
      does not make node ids non-negative. */
  lemma ParseIdNegativeNode()
    ensures ParseId("-3:5") == IdOk(-3, 5)
  {
    assert NatDigits(3) == "3" && NatDigits(5) == "5";
    assert Itoa(-3) + ":" + Itoa(5) == "-3:5";
    ParseIdOfPrinted(-3, 5);
  }

  /** The diagnostic for a failed id, given the three texts of a call site. */
  function IdMessage(id: IdParse, nodeMessage: string, clusteredPidMessage: string, pidMessage: string): string
    requires !id.IdOk?
  {
    match id
    case NodeFailed => nodeMessage
    case PidFailed(clustered) => if clustered then clusteredPidMessage else pidMessage
  }

  /** What happens to one data row: it yields a whole record, or it is
      skipped with the diagnostic the reader logs for it. */
  datatype RowOutcome<R> = Keep(record: R) | Drop(reason: string)

  /** A reader's result: the records and, in order, the logged diagnostics. */
  datatype Parsed<R> = Parsed(records: seq<R>, log: seq<string>)

  function Add<R>(p: Parsed<R>, outcome: RowOutcome<R>): Parsed<R>
  {
    match outcome
    case Keep(r) => Parsed(p.records + [r], p.log)
    case Drop(m) => Parsed(p.records, p.log + [m])
  }

  /** The result of appending, row by row, each kept record to the records
      and each diagnostic to the log. */
  function Collect<R(==)>(outcomes: seq<RowOutcome<R>>): (p: Parsed<R>)
    ensures |p.records| + |p.log| == |outcomes|
  {
    if outcomes == [] then Parsed([], [])
    else Add(Collect(outcomes[..|outcomes| - 1]), outcomes[|outcomes| - 1])
  }

  /** Nothing is invented or lost: every record is a kept row, every kept
      row's record is among the records, and every log line is a dropped
      row's diagnostic. */
  lemma {:induction false} CollectMembers<R>(outcomes: seq<RowOutcome<R>>)
    ensures forall j :: 0 <= j < |Collect(outcomes).records| ==> Keep(Collect(outcomes).records[j]) in outcomes
    ensures forall i :: 0 <= i < |outcomes| && outcomes[i].Keep? ==> outcomes[i].record in Collect(outcomes).records
    ensures forall j :: 0 <= j < |Collect(outcomes).log| ==> Drop(Collect(outcomes).log[j]) in outcomes
    decreases |outcomes|
  {
    if outcomes != [] {
      var n := |outcomes| - 1;
      var init := outcomes[..n];
      var p := Collect(outcomes);
      var q := Collect(init);
      CollectMembers(init);
      assert p == Add(q, outcomes[n]);
      forall j | 0 <= j < |p.records|
        ensures Keep(p.records[j]) in outcomes
      {
        if j < |q.records| {
          assert p.records[j] == q.records[j];
          assert Keep(q.records[j]) in init;
        } else {
          assert outcomes[n] == Keep(p.records[j]);
        }
      }
      forall i | 0 <= i < |outcomes| && outcomes[i].Keep?
        ensures outcomes[i].record in p.records
      {
        if i < n {
          assert outcomes[i] == init[i];
          assert init[i].record in q.records;
        } else {
          assert p.records[|p.records| - 1] == outcomes[i].record;
        }
      }
      forall j | 0 <= j < |p.log|
        ensures Drop(p.log[j]) in outcomes
      {
        if j < |q.log| {
          assert p.log[j] == q.log[j];
          assert Drop(q.log[j]) in init;
        } else {
          assert outcomes[n] == Drop(p.log[j]);
        }
      }
    }
  }

  lemma CollectStep<R>(outcomes: seq<RowOutcome<R>>, i: nat)
    requires i < |outcomes|
    ensures Collect(outcomes[..i + 1]) == Add(Collect(outcomes[..i]), outcomes[i])
  {
    assert outcomes[..i + 1][..i] == outcomes[..i];
  }

  /** The positions of the kept rows. */
  function KeptIndices<R(==)>(outcomes: seq<RowOutcome<R>>): (idx: seq<nat>)
    ensures |idx| == |Collect(outcomes).records|
    ensures forall j :: 0 <= j < |idx| ==> idx[j] < |outcomes| && outcomes[idx[j]] == Keep(Collect(outcomes).records[j])
    ensures forall j, k :: 0 <= j < k < |idx| ==> idx[j] < idx[k]
  {
    if outcomes == [] then []
    else
      var n := |outcomes| - 1;
      var init := outcomes[..n];
      var idx := KeptIndices(init);
      assert forall j :: 0 <= j < |idx| ==> outcomes[idx[j]] == init[idx[j]];
      if outcomes[n].Keep? then idx + [n] else idx
  }

  /** The positions of the dropped rows. */
  function DroppedIndices<R(==)>(outcomes: seq<RowOutcome<R>>): (idx: seq<nat>)
    ensures |idx| == |Collect(outcomes).log|
    ensures forall j :: 0 <= j < |idx| ==> idx[j] < |outcomes| && outcomes[idx[j]] == Drop(Collect(outcomes).log[j])
    ensures forall j, k :: 0 <= j < k < |idx| ==> idx[j] < idx[k]
  {
    if outcomes == [] then []
    else
      var n := |outcomes| - 1;
      var init := outcomes[..n];
      var idx := DroppedIndices(init);
      assert forall j :: 0 <= j < |idx| ==> outcomes[idx[j]] == init[idx[j]];
      if outcomes[n].Drop? then idx + [n] else idx
  }

  /** Every kept row has its place among the records, so with KeptIndices
      the records are exactly the kept rows, in row order. */
  lemma {:induction false} KeptIndicesComplete<R>(outcomes: seq<RowOutcome<R>>)
    ensures forall i :: 0 <= i < |outcomes| && outcomes[i].Keep? ==> i in KeptIndices(outcomes)
    decreases |outcomes|
  {
    if outcomes != [] {
      var n := |outcomes| - 1;
      var init := outcomes[..n];
      var front := KeptIndices(init);
      var idx := KeptIndices(outcomes);
      assert idx == if outcomes[n].Keep? then front + [n] else front;
      KeptIndicesComplete(init);
      forall i | 0 <= i < |outcomes| && outcomes[i].Keep?
        ensures i in idx
      {
        if i < n {
          assert init[i] == outcomes[i];
          assert i in front;
        }
      }
    }
  }

  /** Every dropped row has its place among the messages, so with
      DroppedIndices the log is exactly the dropped rows' reasons, in row
      order. */
  lemma {:induction false} DroppedIndicesComplete<R>(outcomes: seq<RowOutcome<R>>)
    ensures forall i :: 0 <= i < |outcomes| && outcomes[i].Drop? ==> i in DroppedIndices(outcomes)
    decreases |outcomes|
  {
    if outcomes != [] {
      var n := |outcomes| - 1;
      var init := outcomes[..n];
      var front := DroppedIndices(init);
      var idx := DroppedIndices(outcomes);
      assert idx == if outcomes[n].Drop? then front + [n] else front;
      DroppedIndicesComplete(init);
      forall i | 0 <= i < |outcomes| && outcomes[i].Drop?
        ensures i in idx
      {
        if i < n {
          assert init[i] == outcomes[i];
          assert i in front;
        }
      }
    }
  }
}
