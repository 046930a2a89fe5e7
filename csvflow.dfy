/**
 * The CSV sink (`stream` in signalflowcli/csvflow.py): a header line on the
 * first Data message, then one line per Data message, every other message
 * ignored, and the computation closed however the stream ends. Rows are
 * sequences of cells; the csv module's quoting is not part of this model.
 */
module CsvFlow {
  import opened Wrappers
  import opened Sparklines
  import opened Messages
  import SeriesRepr

  /** One CSV cell: a number, a string, or Python's None (an empty field). */
  datatype Cell = Num(n: int) | Text(s: string) | Null

  type Row = seq<Cell>

  const TimestampColumn: string := "timestamp"

  /** The header cell of one series: its `timeseries_repr`, or the error it raises. */
  function ColumnCell(meta: map<SeriesId, SeriesRepr.Metadata>, id: SeriesId): Result<Cell, SeriesRepr.ReprError>
  {
    match SeriesRepr.Repr(MetadataOf(meta, id))
    case Failure(e) => Failure(e)
    case Success(None) => Success(Null)
    case Success(Some(name)) => Success(Text(name))
  }

  /**
   * Evaluates a list comprehension whose elements may raise: every element
   * in order, and the first one that raises aborts the whole list.
   */
  function Collect<T, E>(rs: seq<Result<T, E>>): (r: Result<seq<T>, E>)
    ensures r.Success? <==> forall i :: 0 <= i < |rs| ==> rs[i].Success?
    ensures r.Success? ==> |r.value| == |rs| && forall i :: 0 <= i < |rs| ==> r.value[i] == rs[i].value
    ensures r.Failure? ==> exists i :: 0 <= i < |rs| && rs[i] == Failure(r.error) &&
                                       forall j :: 0 <= j < i ==> rs[j].Success?
    decreases |rs|
  {
    if rs == [] then Success([])
    else
      var init := rs[..|rs| - 1];
      match Collect(init)
      case Failure(e) =>
        assert forall i :: 0 <= i < |init| ==> init[i] == rs[i];
        Failure(e)
      case Success(vs) =>
        match rs[|rs| - 1]
        case Failure(e) =>
          assert forall i :: 0 <= i < |init| ==> init[i] == rs[i];
          Failure(e)
        case Success(v) => Success(vs + [v])
  }

  /** The header cell of every known series, in order. */
  function ColumnCells(meta: map<SeriesId, SeriesRepr.Metadata>, known: seq<SeriesId>): (r: seq<Result<Cell, SeriesRepr.ReprError>>)
    ensures |r| == |known|
  {
    seq(|known|, i requires 0 <= i < |known| => ColumnCell(meta, known[i]))
  }

  /** The list comprehension of series names in the header. */
  function ColumnNames(meta: map<SeriesId, SeriesRepr.Metadata>, known: seq<SeriesId>): Result<Row, SeriesRepr.ReprError>
  {
    Collect(ColumnCells(meta, known))
  }

  /** The header row: `timestamp`, then the name of every known series. */
  function Header(meta: map<SeriesId, SeriesRepr.Metadata>, known: seq<SeriesId>): (r: Result<Row, SeriesRepr.ReprError>)
    ensures r.Success? <==> ColumnNames(meta, known).Success?
    ensures r.Success? ==> r.value == [Text(TimestampColumn)] + ColumnNames(meta, known).value
    ensures r.Success? ==> |r.value| == 1 + |known|
  {
    match ColumnNames(meta, known)
    case Failure(e) => Failure(e)
    case Success(names) => Success([Text(TimestampColumn)] + names)
  }

  /** `message.data.get(tsid, '')`. */
  function Field(values: map<SeriesId, int>, id: SeriesId): Cell
  {
    if id in values then Num(values[id]) else Text("")
  }

  /** A data row: the logical timestamp, then each known series' value or an empty string. */
  function DataRow(ts: int, values: map<SeriesId, int>, known: seq<SeriesId>): (r: Row)
    ensures |r| == 1 + |known|
    ensures r[0] == Num(ts)
    ensures forall i :: 1 <= i < |r| ==> r[i] == Field(values, known[i - 1])
    decreases |known|
  {
    if known == [] then [Num(ts)]
    else DataRow(ts, values, known[..|known| - 1]) + [Field(values, known[|known| - 1])]
  }

  /** Builds the header as the source does: the names first, then `timestamp` in front. */
  method BuildHeader(meta: map<SeriesId, SeriesRepr.Metadata>, known: seq<SeriesId>) returns (r: Result<Row, SeriesRepr.ReprError>)
    ensures r == Header(meta, known)
  {
    var cells := ColumnCells(meta, known);
    var names: Row := [];
    var i := 0;
    while i < |known|
      invariant 0 <= i <= |known|
      invariant Collect(cells[..i]) == Success(names)
    {
      assert cells[..i + 1][..i] == cells[..i];
      var cell := cells[i];
      if cell.Failure? {
        CollectAbort(cells, i + 1);
        return Failure(cell.error);
      }
      names := names + [cell.value];
      i := i + 1;
    }
    assert cells[..i] == cells;
    r := Success([Text(TimestampColumn)] + names);
  }

  /** Once a prefix of the elements raises, the whole comprehension raises the same error. */
  lemma {:induction false} CollectAbort<T, E>(rs: seq<Result<T, E>>, k: nat)
    requires k <= |rs|
    requires Collect(rs[..k]).Failure?
    ensures Collect(rs) == Collect(rs[..k])
    decreases |rs| - k
  {
    if k < |rs| {
      assert rs[..k + 1][..k] == rs[..k];
      CollectAbort(rs, k + 1);
    } else {
      assert rs[..k] == rs;
    }
  }

  /** Builds a data row by appending one field per known series. */
  method BuildRow(ts: int, values: map<SeriesId, int>, known: seq<SeriesId>) returns (row: Row)
    ensures row == DataRow(ts, values, known)
  {
    row := [Num(ts)];
    var i := 0;
    while i < |known|
      invariant 0 <= i <= |known|
      invariant row == DataRow(ts, values, known[..i])
    {
      assert known[..i + 1][..i] == known[..i];
      row := row + [Field(values, known[i])];
      i := i + 1;
    }
    assert known[..i] == known;
  }

  /** How many Data messages a sequence holds. */
  function DataCount(msgs: seq<Message>): (n: nat)
    ensures n <= |msgs|
    ensures n == 0 <==> forall i :: 0 <= i < |msgs| ==> !msgs[i].Data?
    decreases |msgs|
  {
    if msgs == [] then 0
    else DataCount(msgs[..|msgs| - 1]) + (if msgs[|msgs| - 1].Data? then 1 else 0)
  }

  /**
   * The sink after some messages: whether the header was written, the rows
   * written so far, and the naming error that aborted the stream, if any.
   */
  datatype CsvState = CsvState(headerDone: bool, lines: seq<Row>, failure: Option<SeriesRepr.ReprError>)

  /**
   * One message handled by the sink, `ks` being the known series at that
   * point: a Data message writes the header first if none was written yet,
   * then its row; anything else, or any message after a failure, changes nothing.
   */
  function CsvStep(meta: map<SeriesId, SeriesRepr.Metadata>, prev: CsvState, m: Message, ks: seq<SeriesId>): CsvState
  {
    if prev.failure.Some? || !m.Data? then prev
    else if prev.headerDone then prev.(lines := prev.lines + [DataRow(m.logicalTs, m.values, ks)])
    else
      match Header(meta, ks)
      case Failure(e) => prev.(failure := Some(e))
      case Success(h) => CsvState(true, prev.lines + [h, DataRow(m.logicalTs, m.values, ks)], None)
  }

  /**
   * The rows of a stream, message by message; `known[i]` is what
   * `get_known_tsids()` returns while message i is handled.
   */
  function CsvRun(meta: map<SeriesId, SeriesRepr.Metadata>, msgs: seq<Message>, known: seq<seq<SeriesId>>): (r: CsvState)
    requires |known| == |msgs|
    ensures r.failure.None? ==> (r.headerDone <==> DataCount(msgs) > 0)
    ensures r.failure.None? ==> |r.lines| == if DataCount(msgs) == 0 then 0 else DataCount(msgs) + 1
    ensures r.failure.None? && msgs != [] && msgs[|msgs| - 1].Data? ==>
              r.lines[|r.lines| - 1] == DataRow(msgs[|msgs| - 1].logicalTs, msgs[|msgs| - 1].values, known[|msgs| - 1])
    decreases |msgs|
  {
    if msgs == [] then CsvState(false, [], None)
    else
      var n := |msgs| - 1;
      CsvStep(meta, CsvRun(meta, msgs[..n], known[..n]), msgs[n], known[n])
  }

  /** A stream without Data messages writes nothing at all. */
  lemma {:induction false} CsvRunIgnoresOthers(meta: map<SeriesId, SeriesRepr.Metadata>, msgs: seq<Message>, known: seq<seq<SeriesId>>)
    requires |known| == |msgs|
    requires forall i :: 0 <= i < |msgs| ==> !msgs[i].Data?
    ensures CsvRun(meta, msgs, known) == CsvState(false, [], None)
    decreases |msgs|
  {
    if msgs != [] {
      CsvRunIgnoresOthers(meta, msgs[..|msgs| - 1], known[..|msgs| - 1]);
    }
  }

  /**
   * The header is written exactly once and first: the only row that starts
   * with the `timestamp` cell is the first one, and every row has a cell.
   */
  lemma {:induction false} CsvHeaderOnce(meta: map<SeriesId, SeriesRepr.Metadata>, msgs: seq<Message>, known: seq<seq<SeriesId>>)
    requires |known| == |msgs|
    ensures var r := CsvRun(meta, msgs, known);
            (forall i :: 0 <= i < |r.lines| ==> |r.lines[i]| >= 1) &&
            (forall i :: 0 <= i < |r.lines| ==> (r.lines[i][0] == Text(TimestampColumn) <==> i == 0)) &&
            (r.headerDone <==> r.lines != [])
    decreases |msgs|
  {
    if msgs != [] {
      CsvHeaderOnce(meta, msgs[..|msgs| - 1], known[..|msgs| - 1]);
    }
  }

  /**
   * When the set of known series does not change during the stream, the
   * header names exactly those series and every row is as wide as the header.
   */
  lemma {:induction false} CsvStableWidth(meta: map<SeriesId, SeriesRepr.Metadata>, msgs: seq<Message>,
                                          known: seq<seq<SeriesId>>, ks: seq<SeriesId>)
    requires |known| == |msgs|
    requires forall i :: 0 <= i < |known| ==> known[i] == ks
    ensures var r := CsvRun(meta, msgs, known);
            (forall i :: 0 <= i < |r.lines| ==> |r.lines[i]| == 1 + |ks|) &&
            (r.lines != [] ==> Header(meta, ks) == Success(r.lines[0]))
    decreases |msgs|
  {
    if msgs != [] {
      CsvStableWidth(meta, msgs[..|msgs| - 1], known[..|msgs| - 1], ks);
      CsvHeaderOnce(meta, msgs[..|msgs| - 1], known[..|msgs| - 1]);
    }
  }

  /** Once a naming error has aborted the stream, later messages change nothing. */
  lemma {:induction false} CsvRunStaysFailed(meta: map<SeriesId, SeriesRepr.Metadata>, msgs: seq<Message>,
                                             known: seq<seq<SeriesId>>, k: nat)
    requires |known| == |msgs| && k <= |msgs|
    requires CsvRun(meta, msgs[..k], known[..k]).failure.Some?
    ensures CsvRun(meta, msgs, known) == CsvRun(meta, msgs[..k], known[..k])
    decreases |msgs| - k
  {
    if k < |msgs| {
      assert msgs[..k + 1][..k] == msgs[..k];
      assert known[..k + 1][..k] == known[..k];
      CsvRunStaysFailed(meta, msgs, known, k + 1);
    } else {
      assert msgs[..k] == msgs;
      assert known[..k] == known;
    }
  }

  /** The sink only ever appends: the rows written after some messages stay the first rows of the stream. */
  lemma {:induction false} CsvRunPrefix(meta: map<SeriesId, SeriesRepr.Metadata>, msgs: seq<Message>,
                                        known: seq<seq<SeriesId>>, k: nat)
    requires |known| == |msgs| && k <= |msgs|
    ensures CsvRun(meta, msgs[..k], known[..k]).lines <= CsvRun(meta, msgs, known).lines
    decreases |msgs| - k
  {
    if k < |msgs| {
      CsvRunStep(meta, msgs, known, k);
      CsvRunPrefix(meta, msgs, known, k + 1);
    } else {
      assert msgs[..k] == msgs;
      assert known[..k] == known;
    }
  }

  /**
   * The header names the series known when the first Data message arrives,
   * in the order `get_known_tsids()` gave them.
   */
  lemma CsvHeaderAtFirstData(meta: map<SeriesId, SeriesRepr.Metadata>, msgs: seq<Message>,
                             known: seq<seq<SeriesId>>, j: nat)
    requires |known| == |msgs| && j < |msgs| && msgs[j].Data?
    requires forall i :: 0 <= i < j ==> !msgs[i].Data?
    requires CsvRun(meta, msgs, known).failure.None?
    ensures CsvRun(meta, msgs, known).lines != []
    ensures Header(meta, known[j]) == Success(CsvRun(meta, msgs, known).lines[0])
  {
    var before := CsvRun(meta, msgs[..j], known[..j]);
    var after := CsvRun(meta, msgs[..j + 1], known[..j + 1]);
    CsvRunIgnoresOthers(meta, msgs[..j], known[..j]);
    CsvRunStep(meta, msgs, known, j);
    assert before == CsvState(false, [], None);
    if after.failure.Some? {
      CsvRunStaysFailed(meta, msgs, known, j + 1);
      assert false;
    }
    CsvRunPrefix(meta, msgs, known, j + 1);
    assert Header(meta, known[j]) == Success(after.lines[0]);
  }

  /**
   * Every Data message handled before any naming error has its own row, at
   * the position one past the Data messages before it (the header comes first).
   */
  lemma CsvRowOfData(meta: map<SeriesId, SeriesRepr.Metadata>, msgs: seq<Message>,
                     known: seq<seq<SeriesId>>, j: nat)
    requires |known| == |msgs| && j < |msgs| && msgs[j].Data?
    requires CsvRun(meta, msgs[..j + 1], known[..j + 1]).failure.None?
    ensures DataCount(msgs[..j + 1]) < |CsvRun(meta, msgs, known).lines|
    ensures CsvRun(meta, msgs, known).lines[DataCount(msgs[..j + 1])]
            == DataRow(msgs[j].logicalTs, msgs[j].values, known[j])
  {
    var upto := CsvRun(meta, msgs[..j + 1], known[..j + 1]);
    assert msgs[..j + 1][j] == msgs[j];
    assert known[..j + 1][j] == known[j];
    assert DataCount(msgs[..j + 1]) > 0;
    CsvRunPrefix(meta, msgs, known, j + 1);
  }

  /** Each yielded line holds exactly one row, the rows in order. */
  predicate Yields(yielded: seq<seq<Row>>, rows: seq<Row>)
  {
    |yielded| == |rows| && forall i :: 0 <= i < |rows| ==> yielded[i] == [rows[i]]
  }

  lemma YieldsConcat(y1: seq<seq<Row>>, r1: seq<Row>, y2: seq<seq<Row>>, r2: seq<Row>)
    requires Yields(y1, r1) && Yields(y2, r2)
    ensures Yields(y1 + y2, r1 + r2)
  {
    forall i | 0 <= i < |r1 + r2| ensures (y1 + y2)[i] == [(r1 + r2)[i]] {
      if i >= |r1| {
        assert (y1 + y2)[i] == y2[i - |r1|] && (r1 + r2)[i] == r2[i - |r1|];
      }
    }
  }

  /** `CsvRun` on the first i + 1 messages is one step on from the first i. */
  lemma CsvRunStep(meta: map<SeriesId, SeriesRepr.Metadata>, msgs: seq<Message>, known: seq<seq<SeriesId>>, i: nat)
    requires |known| == |msgs| && i < |msgs|
    ensures CsvRun(meta, msgs[..i + 1], known[..i + 1]) == CsvStep(meta, CsvRun(meta, msgs[..i], known[..i]), msgs[i], known[i])
  {
    assert msgs[..i + 1][..i] == msgs[..i];
    assert known[..i + 1][..i] == known[..i];
  }

  /** The `StringIO` buffer the csv writer writes into. */
  class RowWriter {
    /** The rows written since the buffer was last reset. */
    var buffer: seq<Row>

    constructor ()
      ensures buffer == []
    {
      buffer := [];
    }

    /** `_emit`: write the row, take the buffer's contents as the line, reset the buffer. */
    method Emit(row: Row) returns (line: seq<Row>)
      modifies this
      ensures line == old(buffer) + [row]
      ensures buffer == []
    {
      buffer := buffer + [row];
      line := buffer;
      buffer := [];
    }
  }

  /**
   * The body of the message loop in `stream`: one message turned into the
   * lines it yields, or the naming error that aborts the stream.
   */
  method HandleMessage(writer: RowWriter, meta: map<SeriesId, SeriesRepr.Metadata>, header: Option<Row>,
                       m: Message, ks: seq<SeriesId>, ghost prev: CsvState)
    returns (header': Option<Row>, lines: seq<seq<Row>>, failed: bool, ghost added: seq<Row>)
    requires writer.buffer == [] && prev.failure.None? && (header.Some? <==> prev.headerDone)
    modifies writer
    ensures writer.buffer == []
    ensures failed <==> CsvStep(meta, prev, m, ks).failure.Some?
    ensures failed ==> lines == [] && CsvStep(meta, prev, m, ks).lines == prev.lines
    ensures !failed ==> (header'.Some? <==> CsvStep(meta, prev, m, ks).headerDone)
    ensures !failed ==> CsvStep(meta, prev, m, ks).lines == prev.lines + added && Yields(lines, added)
  {
    header', lines, failed, added := header, [], false, [];
    if m.Data? {
      if header.None? {
        var h := BuildHeader(meta, ks);
        if h.Failure? {
          failed := true;
          return;
        }
        header' := Some(h.value);
        var line := writer.Emit(h.value);
        lines, added := lines + [line], added + [h.value];
      }
      var row := BuildRow(m.logicalTs, m.values, ks);
      var line := writer.Emit(row);
      lines, added := lines + [line], added + [row];
    }
  }

  /**
   * `stream`. When the computation cannot be requested the error is printed
   * and nothing is yielded. Otherwise the lines are those of `CsvRun`, one
   * row each; the stream ends quietly on exhaustion or interruption, raises
   * when the client or a series name raises, and the computation is closed
   * exactly once either way.
   */
  method Stream(c: Computation?, msgs: seq<Message>, known: seq<seq<SeriesId>>, end: StreamEnd)
    returns (yielded: seq<seq<Row>>, printedError: bool, exit: Exit)
    requires |known| == |msgs|
    modifies if c == null then {} else {c}
    ensures c == null ==> yielded == [] && printedError && exit == Returned
    ensures c != null ==> !printedError && c.closeCount == old(c.closeCount) + 1
    ensures c != null ==> Yields(yielded, CsvRun(c.metadata, msgs, known).lines)
    ensures c != null ==> exit == if CsvRun(c.metadata, msgs, known).failure.Some? then Raised(NamingFailure)
                                  else if end == Broken then Raised(StreamFailure)
                                  else Returned
  {
    if c == null {
      return [], true, Returned;
    }
    printedError := false;
    var writer := new RowWriter();
    var header: Option<Row> := None;
    yielded := [];
    var i := 0;
    var failed := false;
    while i < |msgs| && !failed
      invariant 0 <= i <= |msgs|
      invariant writer.buffer == []
      invariant c.closeCount == old(c.closeCount)
      invariant !failed ==> CsvRun(c.metadata, msgs[..i], known[..i]).failure.None?
      invariant !failed ==> (header.Some? <==> CsvRun(c.metadata, msgs[..i], known[..i]).headerDone)
      invariant !failed ==> Yields(yielded, CsvRun(c.metadata, msgs[..i], known[..i]).lines)
      invariant failed ==> CsvRun(c.metadata, msgs, known).failure.Some?
      invariant failed ==> Yields(yielded, CsvRun(c.metadata, msgs, known).lines)
    {
      ghost var prev := CsvRun(c.metadata, msgs[..i], known[..i]);
      CsvRunStep(c.metadata, msgs, known, i);
      var lines;
      ghost var added;
      header, lines, failed, added := HandleMessage(writer, c.metadata, header, msgs[i], known[i], prev);
      if failed {
        CsvRunStaysFailed(c.metadata, msgs, known, i + 1);
      } else {
        YieldsConcat(yielded, prev.lines, lines, added);
      }
      yielded := yielded + lines;
      i := i + 1;
    }
    if !failed {
      assert msgs[..i] == msgs;
      assert known[..i] == known;
      exit := if end == Broken then Raised(StreamFailure) else Returned;
    } else {
      exit := Raised(NamingFailure);
    }
    c.Close();
  }
}
