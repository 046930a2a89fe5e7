/**
 * The live terminal dashboard (`LiveOutputDisplay` in signalflowcli/live.py):
 * one sparkline per time series, the five latest events, and a redraw that
 * moves the cursor back up over exactly the lines it printed.
 */
module Live {
  import opened Wrappers
  import opened Sparklines
  import opened Messages
  import SeriesRepr

  /** `_LATEST_EVENTS_COUNT`. */
  const LatestEventsCount: nat := 5

  /**
   * The event insert of `stream`: when the buffer is full the oldest (last)
   * event is popped, then the new one goes in front.
   */
  function Pushed(events: seq<EventRecord>, e: EventRecord): (r: seq<EventRecord>)
    requires |events| <= LatestEventsCount
    ensures |r| == if |events| < LatestEventsCount then |events| + 1 else LatestEventsCount
    ensures r[0] == e
    ensures forall i :: 0 < i < |r| ==> r[i] == events[i - 1]
  {
    [e] + (if |events| == LatestEventsCount then events[..|events| - 1] else events)
  }

  /** Inserting into a full buffer evicts exactly the oldest event and keeps the others in order. */
  lemma PushedFull(events: seq<EventRecord>, e: EventRecord)
    requires |events| == LatestEventsCount
    ensures Pushed(events, e) == [e] + events[..LatestEventsCount - 1]
  {
    var r := Pushed(events, e);
    assert |r| == |[e] + events[..LatestEventsCount - 1]|;
    forall i | 0 <= i < |r| ensures r[i] == ([e] + events[..LatestEventsCount - 1])[i] {
    }
  }

  /** The dashboard state: sparklines, latest events (newest first) and the client's last logical timestamp. */
  datatype DisplayState = DisplayState(sparks: Sparks, events: seq<EventRecord>, lastTs: int)

  predicate ValidState(st: DisplayState)
  {
    WellFormed(st.sparks) && |st.events| <= LatestEventsCount
  }

  /** `_render`'s line count: `len(sparks) + 1` when there is data, `2 + len(events)` when there are events. */
  function BlockHeight(st: DisplayState): nat
  {
    (if st.lastTs != 0 then |st.sparks| + 1 else 0) + (if |st.events| > 0 then 2 + |st.events| else 0)
  }

  /** Every tracked series has a name that can be computed. */
  predicate NamesResolve(sparks: Sparks, meta: map<SeriesId, SeriesRepr.Metadata>)
  {
    forall id :: id in sparks ==> SeriesRepr.DisplayName(MetadataOf(meta, id)).Success?
  }

  /** A redraw raises: there is data to draw and some tracked series' name raises. */
  predicate RedrawFails(st: DisplayState, meta: map<SeriesId, SeriesRepr.Metadata>)
  {
    st.lastTs != 0 && !NamesResolve(st.sparks, meta)
  }

  /** The message kinds that trigger a redraw. */
  predicate Redraws(m: Message)
  {
    m.Data? || m.Event?
  }

  /**
   * One message of `stream`, including the client's bookkeeping of the last
   * logical timestamp. JobStart, JobProgress and unknown kinds change nothing;
   * a Data message ticks every buffer before recording its own values; an
   * Event message goes in front of the event buffer.
   */
  function Step(st: DisplayState, m: Message): (r: DisplayState)
    requires ValidState(st)
    ensures ValidState(r)
    ensures !Redraws(m) ==> r == st
    ensures m.Data? ==> r.sparks == Advanced(st.sparks, m.values) && r.events == st.events && r.lastTs == m.logicalTs
    ensures m.Event? ==> r.sparks == st.sparks && r.events == Pushed(st.events, m.event) && r.lastTs == st.lastTs
  {
    match m
    case Data(ts, values) => DisplayState(Advanced(st.sparks, values), st.events, ts)
    case Event(e) => st.(events := Pushed(st.events, e))
    case _ => st
  }

  /** Where a run of messages got to: still streaming, or stopped by a redraw that raised. */
  datatype Progress = Going(st: DisplayState) | Stopped(st: DisplayState)

  /** The messages of a session handled in order, from `st0`, up to the first redraw that raises. */
  function Run(st0: DisplayState, msgs: seq<Message>, meta: map<SeriesId, SeriesRepr.Metadata>): (r: Progress)
    requires ValidState(st0)
    ensures ValidState(r.st)
    ensures st0.sparks.Keys <= r.st.sparks.Keys
    ensures |st0.events| <= |r.st.events|
    decreases |msgs|
  {
    if msgs == [] then Going(st0)
    else
      match Run(st0, msgs[..|msgs| - 1], meta)
      case Stopped(s) => Stopped(s)
      case Going(s) =>
        var m := msgs[|msgs| - 1];
        var s' := Step(s, m);
        if Redraws(m) && RedrawFails(s', meta) then Stopped(s') else Going(s')
  }

  /** A session of messages that never redraw leaves the state as it was. */
  lemma {:induction false} RunWithoutRedraws(st0: DisplayState, msgs: seq<Message>, meta: map<SeriesId, SeriesRepr.Metadata>)
    requires ValidState(st0)
    requires forall i :: 0 <= i < |msgs| ==> !Redraws(msgs[i])
    ensures Run(st0, msgs, meta) == Going(st0)
  {
    if msgs != [] {
      RunWithoutRedraws(st0, msgs[..|msgs| - 1], meta);
    }
  }

  /** The line a tracked series is drawn with: its name, its glyphs and its newest value. */
  function SeriesLineOf(sparks: Sparks, meta: map<SeriesId, SeriesRepr.Metadata>, id: SeriesId): Line
    requires WellFormed(sparks) && id in sparks
    requires SeriesRepr.DisplayName(MetadataOf(meta, id)).Success?
  {
    SeriesLine(id, SeriesRepr.DisplayName(MetadataOf(meta, id)).value,
               Glyphs(LiveStyle, sparks[id]), sparks[id][SparkLength - 1])
  }

  function SeriesLines(sparks: Sparks, meta: map<SeriesId, SeriesRepr.Metadata>, order: seq<SeriesId>): (r: seq<Out>)
    requires WellFormed(sparks)
    requires forall id :: id in order ==> id in sparks && SeriesRepr.DisplayName(MetadataOf(meta, id)).Success?
    ensures |r| == |order|
    ensures forall i :: 0 <= i < |r| ==> r[i] == Print(SeriesLineOf(sparks, meta, order[i]))
  {
    seq(|order|, i requires 0 <= i < |order| => Print(SeriesLineOf(sparks, meta, order[i])))
  }

  lemma SeriesLinesSnoc(sparks: Sparks, meta: map<SeriesId, SeriesRepr.Metadata>, order: seq<SeriesId>, id: SeriesId)
    requires WellFormed(sparks) && id in sparks && SeriesRepr.DisplayName(MetadataOf(meta, id)).Success?
    requires forall x :: x in order ==> x in sparks && SeriesRepr.DisplayName(MetadataOf(meta, x)).Success?
    ensures SeriesLines(sparks, meta, order + [id]) == SeriesLines(sparks, meta, order) + [Print(SeriesLineOf(sparks, meta, id))]
  {
  }

  function EventLines(events: seq<EventRecord>): (r: seq<Out>)
    ensures |r| == |events|
    ensures forall i :: 0 <= i < |r| ==> r[i] == Print(EventLine(events[i]))
  {
    seq(|events|, i requires 0 <= i < |events| => Print(EventLine(events[i])))
  }

  /** `order` lists every tracked series exactly once. */
  ghost predicate IsOrdering(order: seq<SeriesId>, sparks: Sparks)
  {
    && |order| == |sparks|
    && (forall id :: id in sparks <==> id in order)
    && (forall i, j :: 0 <= i < j < |order| ==> order[i] != order[j])
  }

  class LiveOutputDisplay {
    const computation: Computation
    /** `_sparks`. */
    var sparks: Sparks
    /** `_events`, newest first. */
    var events: seq<EventRecord>
    /** Everything written to the terminal so far. */
    var out: seq<Out>

    ghost predicate Valid()
      reads this
    {
      WellFormed(sparks) && |events| <= LatestEventsCount
    }

    function State(): DisplayState
      reads this, computation
    {
      DisplayState(sparks, events, computation.lastLogicalTs)
    }

    constructor (c: Computation)
      ensures computation == c && sparks == map[] && events == [] && out == []
      ensures Valid()
    {
      computation := c;
      sparks := map[];
      events := [];
      out := [];
    }

    /** `_add_to_spark`. */
    method AddToSpark(id: SeriesId, v: int)
      requires Valid()
      modifies this`sparks
      ensures Valid()
      ensures sparks == Recorded(old(sparks), id, v)
    {
      var b := if id in sparks then sparks[id] else Blank();
      sparks := sparks[id := b[..|b| - 1] + [Present(v)]];
    }

    /** `_tick_sparks`: shifts each buffer in turn. */
    method TickSparks()
      requires Valid()
      modifies this`sparks
      ensures Valid()
      ensures sparks == Ticked(old(sparks))
    {
      ghost var before := sparks;
      var todo := sparks.Keys;
      while todo != {}
        invariant todo <= sparks.Keys && sparks.Keys == before.Keys
        invariant forall id :: id in todo ==> sparks[id] == before[id]
        invariant forall id :: id in sparks && id !in todo ==> sparks[id] == Shifted(before[id])
        decreases todo
      {
        var id :| id in todo;
        sparks := sparks[id := sparks[id][1..] + [Empty]];
        todo := todo - {id};
      }
      assert sparks == Ticked(before);
    }

    /** The values of one Data message, recorded one series at a time. */
    method RecordValues(values: map<SeriesId, int>)
      requires Valid()
      modifies this`sparks
      ensures Valid()
      ensures sparks == RecordedAll(old(sparks), values)
    {
      ghost var start := sparks;
      ghost var done: map<SeriesId, int> := map[];
      var todo := values.Keys;
      while todo != {}
        invariant Valid()
        invariant todo <= values.Keys
        invariant done.Keys == values.Keys - todo
        invariant forall k :: k in done ==> done[k] == values[k]
        invariant sparks == RecordedAll(start, done)
        decreases todo
      {
        var id :| id in todo;
        RecordedAllStep(start, done, id, values[id]);
        AddToSpark(id, values[id]);
        done := done[id := values[id]];
        todo := todo - {id};
      }
      assert done == values;
    }

    /** The event insert of `stream`. */
    method InsertEvent(e: EventRecord)
      requires Valid()
      modifies this`events
      ensures Valid()
      ensures events == Pushed(old(events), e)
    {
      if |events| == LatestEventsCount {
        events := events[..|events| - 1];
      }
      events := [e] + events;
    }

    /**
     * `_render_latest_data`: the header line, then one line per tracked
     * series in some order. It raises as soon as a series' name does.
     */
    method RenderLatestData() returns (lines: nat, ok: bool, ghost order: seq<SeriesId>)
      requires Valid()
      modifies this`out
      ensures ok <==> NamesResolve(sparks, computation.metadata)
      ensures ok ==> lines == |sparks| + 1
      ensures ok ==> IsOrdering(order, sparks)
      ensures ok ==> out == old(out) + [Print(DataHeader(computation.lastLogicalTs))]
                                    + SeriesLines(sparks, computation.metadata, order)
      ensures !ok ==> old(out) < out
    {
      var meta, sp := computation.metadata, sparks;
      out := out + [Print(DataHeader(computation.lastLogicalTs))];
      ghost var start := out;
      var todo := sp.Keys;
      order := [];
      ok := true;
      while todo != {}
        invariant todo <= sp.Keys
        invariant forall id :: id in order ==> id in sp && id !in todo
        invariant forall id :: id in order ==> SeriesRepr.DisplayName(MetadataOf(meta, id)).Success?
        invariant forall id :: id in sp ==> id in todo || id in order
        invariant forall i, j :: 0 <= i < j < |order| ==> order[i] != order[j]
        invariant |order| + |todo| == |sp|
        invariant out == start + SeriesLines(sp, meta, order)
        decreases todo
      {
        var id :| id in todo;
        var name := SeriesRepr.DisplayName(computation.GetMetadata(id));
        if name.Failure? {
          ok := false;
          lines := 0;
          return;
        }
        ghost var before := SeriesLines(sp, meta, order);
        SeriesLinesSnoc(sp, meta, order, id);
        var line := Print(SeriesLineOf(sp, meta, id));
        AppendAfter(start, before, line);
        out := out + [line];
        order := order + [id];
        todo := todo - {id};
      }
      lines := |sparks| + 1;
    }

    /** `_render_latest_events`: a blank line, the title, one line per event. */
    method RenderLatestEvents() returns (lines: nat)
      modifies this`out
      ensures lines == 2 + |events|
      ensures out == old(out) + [Print(BlankLine), Print(EventsTitle)] + EventLines(events)
    {
      out := out + [Print(BlankLine), Print(EventsTitle)];
      ghost var start := out;
      for i := 0 to |events|
        invariant out == start + EventLines(events[..i])
      {
        out := out + [Print(EventLine(events[i]))];
      }
      assert events[..|events|] == events;
      lines := 2 + |events|;
    }

    /**
     * `_render`: the data block when there is a last logical timestamp, the
     * events block when there are events, then a cursor move up by exactly
     * the number of lines printed.
     */
    method Render() returns (ok: bool)
      requires Valid()
      modifies this`out
      ensures ok <==> !RedrawFails(State(), computation.metadata)
      ensures ok ==> Redrawn(old(out), out, BlockHeight(State()))
      ensures !ok ==> old(out) < out
    {
      var lines := 0;
      if computation.lastLogicalTs != 0 {
        var n, good, order := RenderLatestData();
        if !good {
          return false;
        }
        lines := lines + n;
      }
      if events != [] {
        var n := RenderLatestEvents();
        lines := lines + n;
      }
      out := out + [CursorUp(lines)];
      ok := true;
    }

    /** One iteration of the message loop of `stream`: returns false when the redraw raised. */
    method Handle(m: Message) returns (ok: bool)
      requires Valid()
      modifies this, computation`lastLogicalTs
      ensures Valid()
      ensures State() == Step(old(State()), m)
      ensures ok <==> !(Redraws(m) && RedrawFails(State(), computation.metadata))
      ensures m.JobStart? ==> out == old(out) + [Say(Started)]
      ensures m.JobProgress? ==> out == old(out) + [Say(Progress(m.progress))]
      ensures m.OtherKind? ==> out == old(out)
      ensures Redraws(m) && ok ==> Redrawn(old(out), out, BlockHeight(State()))
    {
      computation.Deliver(m);
      match m
      case JobStart =>
        out := out + [Say(Started)];
        ok := true;
      case JobProgress(p) =>
        out := out + [Say(Progress(p))];
        ok := true;
      case Data(_, values) =>
        TickSparks();
        RecordValues(values);
        ok := Render();
      case Event(e) =>
        InsertEvent(e);
        ok := Render();
      case OtherKind =>
        ok := true;
    }

    /**
     * `stream`: handles the messages in order until the stream ends or a
     * redraw raises; on every exit it then moves the cursor below the
     * dashboard and closes the computation exactly once.
     */
    method Stream(msgs: seq<Message>, end: StreamEnd) returns (exit: Exit)
      requires Valid()
      modifies this, computation`lastLogicalTs, computation`closeCount
      ensures Valid()
      ensures computation.closeCount == old(computation.closeCount) + 1
      ensures State() == Run(old(State()), msgs, computation.metadata).st
      ensures exit == if Run(old(State()), msgs, computation.metadata).Stopped? then Raised(NamingFailure)
                      else if end == Broken then Raised(StreamFailure)
                      else Returned
      ensures |out| > 0 && out[|out| - 1] == CursorDown(|sparks| + |events| + 2)
    {
      ghost var st0 := State();
      var i := 0;
      var failed := false;
      while i < |msgs| && !failed
        invariant 0 <= i <= |msgs|
        invariant Valid()
        invariant computation.closeCount == old(computation.closeCount)
        invariant !failed ==> Run(st0, msgs[..i], computation.metadata) == Going(State())
        invariant failed ==> Run(st0, msgs, computation.metadata) == Stopped(State())
      {
        assert msgs[..i + 1][..i] == msgs[..i];
        var ok := Handle(msgs[i]);
        i := i + 1;
        if !ok {
          failed := true;
          RunStaysStopped(st0, msgs, i, computation.metadata);
        }
      }
      if !failed {
        assert msgs[..i] == msgs;
        exit := if end == Broken then Raised(StreamFailure) else Returned;
      } else {
        exit := Raised(NamingFailure);
      }
      out := out + [CursorDown(|sparks| + |events| + 2)];
      computation.Close();
    }
  }

  /** Once a run has stopped, later messages are never handled. */
  lemma {:induction false} RunStaysStopped(st0: DisplayState, msgs: seq<Message>, k: nat,
                                           meta: map<SeriesId, SeriesRepr.Metadata>)
    requires ValidState(st0) && k <= |msgs|
    requires Run(st0, msgs[..k], meta).Stopped?
    ensures Run(st0, msgs, meta) == Run(st0, msgs[..k], meta)
    decreases |msgs| - k
  {
    if k < |msgs| {
      assert msgs[..k + 1][..k] == msgs[..k];
      RunStaysStopped(st0, msgs, k + 1, meta);
    } else {
      assert msgs[..k] == msgs;
    }
  }

  /**
   * The module-level `stream`: a computation that could not be requested is
   * reported and nothing is streamed; otherwise a fresh dashboard streams it,
   * and an exception it raises is reported rather than propagated.
   */
  method StreamComputation(c: Computation?, msgs: seq<Message>, end: StreamEnd) returns (trace: seq<Out>)
    modifies if c == null then {} else {c}
    ensures c == null ==> trace == [Say(Requesting), Say(RequestFailed)]
    ensures c != null ==> c.closeCount == old(c.closeCount) + 1
    ensures c != null ==> |trace| > 1 && trace[0] == Say(Requesting)
    ensures c != null ==>
              (trace[|trace| - 1] == Say(Oops) <==>
               Run(DisplayState(map[], [], old(c.lastLogicalTs)), msgs, c.metadata).Stopped? || end == Broken)
  {
    if c == null {
      return [Say(Requesting), Say(RequestFailed)];
    }
    var display := new LiveOutputDisplay(c);
    ghost var st0 := display.State();
    assert st0 == DisplayState(map[], [], old(c.lastLogicalTs));
    var exit := display.Stream(msgs, end);
    assert exit.Raised? <==> Run(st0, msgs, c.metadata).Stopped? || end == Broken;
    if exit.Raised? {
      trace := [Say(Requesting)] + display.out + [Say(Oops)];
    } else {
      trace := [Say(Requesting)] + display.out;
      assert |display.out| > 0 && trace[|trace| - 1] == display.out[|display.out| - 1];
    }
  }
}
