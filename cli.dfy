/**
 * The older console dashboard (`SignalFlowCli` in signalflowcli/__init__.py):
 * the same sparkline buffers as the live dashboard, drawn with the nine-glyph
 * ramp, no event block, and the buffers dropped when a session ends.
 */
module Cli {
  import opened Sparklines
  import opened Messages

  /** Where a session got to: still streaming, or stopped by a message that raised. */
  datatype CliProgress = Going(sparks: Sparks) | Stopped(sparks: Sparks)

  /**
   * The buffers after the messages of a session, handled in order: a Data
   * message ticks and records, an Event message is skipped, and any other
   * message has no `logical_timestamp_ms`, so reading it raises and stops the
   * session.
   */
  function CliRun(sparks0: Sparks, msgs: seq<Message>): (r: CliProgress)
    requires WellFormed(sparks0)
    ensures WellFormed(r.sparks)
    ensures sparks0.Keys <= r.sparks.Keys
    decreases |msgs|
  {
    if msgs == [] then Going(sparks0)
    else
      match CliRun(sparks0, msgs[..|msgs| - 1])
      case Stopped(s) => Stopped(s)
      case Going(s) =>
        match msgs[|msgs| - 1]
        case Data(_, values) => Going(Advanced(s, values))
        case Event(_) => Going(s)
        case _ => Stopped(s)
  }

  /** A session of Event messages only never touches the buffers. */
  lemma {:induction false} CliRunSkipsEvents(sparks0: Sparks, msgs: seq<Message>)
    requires WellFormed(sparks0)
    requires forall i :: 0 <= i < |msgs| ==> msgs[i].Event?
    ensures CliRun(sparks0, msgs) == Going(sparks0)
  {
    if msgs != [] {
      CliRunSkipsEvents(sparks0, msgs[..|msgs| - 1]);
    }
  }

  /** Once a session has stopped, later messages are never handled. */
  lemma {:induction false} CliRunStaysStopped(sparks0: Sparks, msgs: seq<Message>, k: nat)
    requires WellFormed(sparks0) && k <= |msgs|
    requires CliRun(sparks0, msgs[..k]).Stopped?
    ensures CliRun(sparks0, msgs) == CliRun(sparks0, msgs[..k])
    decreases |msgs| - k
  {
    if k < |msgs| {
      assert msgs[..k + 1][..k] == msgs[..k];
      CliRunStaysStopped(sparks0, msgs, k + 1);
    } else {
      assert msgs[..k] == msgs;
    }
  }

  function CliSeriesLines(sparks: Sparks, c: Computation, order: seq<SeriesId>): (r: seq<Out>)
    requires WellFormed(sparks)
    requires forall id :: id in order ==> id in sparks
    ensures |r| == |order|
    ensures forall i :: 0 <= i < |r| ==>
              r[i] == Print(SeriesLine(order[i], c.TimeseriesRepr(order[i]),
                                       Glyphs(CliStyle, sparks[order[i]]), sparks[order[i]][SparkLength - 1]))
  {
    seq(|order|, i requires 0 <= i < |order| =>
      Print(SeriesLine(order[i], c.TimeseriesRepr(order[i]),
                       Glyphs(CliStyle, sparks[order[i]]), sparks[order[i]][SparkLength - 1])))
  }

  class SignalFlowCli {
    /** `_sparks`. */
    var sparks: Sparks
    /** Everything written to the terminal so far. */
    var out: seq<Out>

    ghost predicate Valid()
      reads this
    {
      WellFormed(sparks)
    }

    constructor ()
      ensures sparks == map[] && out == [] && Valid()
    {
      sparks := map[];
      out := [];
    }

    /** `_add_to_spark`. */
    method AddToSpark(id: SeriesId, v: int)
      requires Valid()
      modifies this`sparks
      ensures Valid()
      ensures sparks == Recorded(old(sparks), id, v)
    {
      var b := if id in sparks then sparks[id] else Blank();
      sparks := sparks[id := b[..|b| - 1] + [Present(v)]];
    }

    /** `_tick_sparks`. */
    method TickSparks()
      requires Valid()
      modifies this`sparks
      ensures Valid()
      ensures sparks == Ticked(old(sparks))
    {
      ghost var before := sparks;
      var todo := sparks.Keys;
      while todo != {}
        invariant todo <= sparks.Keys && sparks.Keys == before.Keys
        invariant forall id :: id in todo ==> sparks[id] == before[id]
        invariant forall id :: id in sparks && id !in todo ==> sparks[id] == Shifted(before[id])
        decreases todo
      {
        var id :| id in todo;
        sparks := sparks[id := sparks[id][1..] + [Empty]];
        todo := todo - {id};
      }
      assert sparks == Ticked(before);
    }

    /** The `for tsid, value in message.data.items()` loop of `live_stream`. */
    method RecordValues(values: map<SeriesId, int>)
      requires Valid()
      modifies this`sparks
      ensures Valid()
      ensures sparks == RecordedAll(old(sparks), values)
    {
      ghost var start := sparks;
      ghost var done: map<SeriesId, int> := map[];
      var todo := values.Keys;
      while todo != {}
        invariant Valid()
        invariant todo <= values.Keys
        invariant done.Keys == values.Keys - todo
        invariant forall k :: k in done ==> done[k] == values[k]
        invariant sparks == RecordedAll(start, done)
        decreases todo
      {
        var id :| id in todo;
        RecordedAllStep(start, done, id, values[id]);
        AddToSpark(id, values[id]);
        done := done[id := values[id]];
        todo := todo - {id};
      }
      assert done == values;
    }

    /** One line per tracked series, in some order. */
    method DrawSeries(c: Computation) returns (ghost order: seq<SeriesId>)
      requires Valid()
      modifies this`out
      ensures |order| == |sparks|
      ensures forall id :: id in sparks <==> id in order
      ensures forall i, j :: 0 <= i < j < |order| ==> order[i] != order[j]
      ensures out == old(out) + CliSeriesLines(sparks, c, order)
      ensures |out| == |old(out)| + |sparks|
      ensures forall i :: |old(out)| <= i < |out| ==> out[i].Print?
    {
      ghost var start := out;
      var todo := sparks.Keys;
      order := [];
      while todo != {}
        invariant todo <= sparks.Keys
        invariant forall id :: id in order ==> id in sparks && id !in todo
        invariant forall id :: id in sparks ==> id in todo || id in order
        invariant forall i, j :: 0 <= i < j < |order| ==> order[i] != order[j]
        invariant |order| + |todo| == |sparks|
        invariant out == start + CliSeriesLines(sparks, c, order)
        decreases todo
      {
        var id :| id in todo;
        var spark := sparks[id];
        out := out + [Print(SeriesLine(id, c.TimeseriesRepr(id), Glyphs(CliStyle, spark), spark[SparkLength - 1]))];
        order := order + [id];
        todo := todo - {id};
      }
    }

    /**
     * The Data branch of `live_stream`: the header, then the tick and the
     * new values, then one line per series, then the cursor moves up over
     * exactly the lines just printed.
     */
    method DrawData(c: Computation, ts: int, values: map<SeriesId, int>)
      requires Valid()
      modifies this
      ensures Valid()
      ensures sparks == Advanced(old(sparks), values)
      ensures Redrawn(old(out), out, |sparks| + 1)
      ensures out[|old(out)|] == Print(DataHeader(ts))
    {
      ghost var start := out;
      out := out + [Print(DataHeader(ts))];
      TickSparks();
      RecordValues(values);
      ghost var order := DrawSeries(c);
      ghost var lines := CliSeriesLines(sparks, c, order);
      assert |lines| == |sparks|;
      assert out == start + [Print(DataHeader(ts))] + lines;
      RedrawnBlock(start, Print(DataHeader(ts)), lines);
      out := out + [CursorUp(|sparks| + 1)];
      assert out == start + [Print(DataHeader(ts))] + lines + [CursorUp(|lines| + 1)];
    }

    /**
     * One iteration of the loop of `live_stream`: a Data message is drawn,
     * an Event message is skipped, and any other message raises (false)
     * before anything is printed.
     */
    method Handle(c: Computation, m: Message) returns (ok: bool)
      requires Valid()
      modifies this
      ensures Valid()
      ensures ok <==> m.Data? || m.Event?
      ensures m.Data? ==> sparks == Advanced(old(sparks), m.values)
      ensures m.Data? ==> Redrawn(old(out), out, |sparks| + 1) && out[|old(out)|] == Print(DataHeader(m.logicalTs))
      ensures !m.Data? ==> sparks == old(sparks) && out == old(out)
      ensures |out| >= |old(out)|
    {
      if m.Data? {
        DrawData(c, m.logicalTs, m.values);
        ok := true;
      } else {
        ok := m.Event?;
      }
    }

    /**
     * `live_stream`. When the computation cannot be requested a failure is
     * printed and nothing is streamed. Otherwise the messages are handled in
     * order until the stream ends or a message raises; on every exit the
     * cursor then moves down past the dashboard, the buffers are cleared and
     * the computation is closed exactly once.
     */
    method LiveStream(c: Computation?, msgs: seq<Message>, end: StreamEnd) returns (exit: Exit)
      requires Valid()
      modifies this, if c == null then {} else {c}
      ensures Valid()
      ensures c == null ==> exit == Returned && sparks == old(sparks)
      ensures c == null ==> out == old(out) + [Say(Requesting), Say(RequestFailed)]
      ensures c != null ==> c.closeCount == old(c.closeCount) + 1
      ensures c != null ==> sparks == map[]
      ensures c != null ==> exit == if CliRun(old(sparks), msgs).Stopped? then Raised(NoTimestamp)
                                    else if end == Broken then Raised(StreamFailure)
                                    else Returned
      ensures c != null ==> |out| > |old(out)| && out[|out| - 1] == CursorDown(|CliRun(old(sparks), msgs).sparks| + 1)
    {
      if c == null {
        out := out + [Say(Requesting), Say(RequestFailed)];
        return Returned;
      }
      out := out + [Say(Requesting), Say(WaitingForData)];
      ghost var s0 := sparks;
      var i := 0;
      var failed := false;
      while i < |msgs| && !failed
        invariant 0 <= i <= |msgs|
        invariant Valid()
        invariant c.closeCount == old(c.closeCount)
        invariant |out| >= |old(out)|
        invariant !failed ==> CliRun(s0, msgs[..i]) == Going(sparks)
        invariant failed ==> CliRun(s0, msgs) == Stopped(sparks)
      {
        assert msgs[..i + 1][..i] == msgs[..i];
        var ok := Handle(c, msgs[i]);
        i := i + 1;
        if !ok {
          failed := true;
          CliRunStaysStopped(s0, msgs, i);
        }
      }
      if !failed {
        assert msgs[..i] == msgs;
        exit := if end == Broken then Raised(StreamFailure) else Returned;
      } else {
        exit := Raised(NoTimestamp);
      }
      assert sparks == CliRun(s0, msgs).sparks;
      out := out + [CursorDown(|sparks| + 1)];
      sparks := map[];
      c.Close();
    }
  }
}
