/**
 * What the dashboards consume and produce: the computation messages, the
 * computation handle of the SignalFlow client, and an abstract trace of the
 * terminal output (lines printed, cursor movements, status texts).
 */
module Messages {
  import opened Wrappers
  import opened Sparklines
  import SeriesRepr

  /** An event (alert) as the live dashboard keeps it. */
  datatype EventRecord = EventRecord(tsid: SeriesId, timestampMs: int, properties: map<string, string>)

  /** One computation message, in stream order. `OtherKind` is any kind a dashboard does not handle. */
  datatype Message =
    | JobStart
    | JobProgress(progress: int)
    | Data(logicalTs: int, values: map<SeriesId, int>)
    | Event(event: EventRecord)
    | OtherKind

  /**
   * How the client's message iteration ended after the messages handed over:
   * it ran out, the user interrupted it (KeyboardInterrupt at the iteration
   * boundary), or the client raised (the computation failed or was aborted).
   */
  datatype StreamEnd = Exhausted | Interrupted | Broken

  /** What made a streaming session raise. */
  datatype Cause =
    | StreamFailure    // the client's iteration raised
    | NamingFailure    // `timeseries_repr` raised while a dashboard line was drawn
    | NoTimestamp      // a message without `logical_timestamp_ms` reached the old dashboard

  /** How a streaming session returned to its caller. */
  datatype Exit = Returned | Raised(cause: Cause)

  /** `get_metadata(tsid)`: None for a tsid the client has no metadata for. */
  function MetadataOf(meta: map<SeriesId, SeriesRepr.Metadata>, id: SeriesId): Option<SeriesRepr.Metadata>
  {
    if id in meta then Some(meta[id]) else None
  }

  /**
   * The computation handle. Everything behind it (the network, the backend)
   * is not part of this model: metadata is an oracle, and the handle counts
   * how often it is closed.
   */
  class Computation {
    /** The metadata the client knows for each tsid (`get_metadata`). */
    const metadata: map<SeriesId, SeriesRepr.Metadata>
    /** The old client's own display names (`get_timeseries_repr`). */
    const reprs: map<SeriesId, string>
    /** `last_logical_ts`; 0 stands for "none yet" (both are false in Python). */
    var lastLogicalTs: int
    /** How many times `close()` was called. */
    var closeCount: nat

    constructor (metadata: map<SeriesId, SeriesRepr.Metadata>, reprs: map<SeriesId, string>)
      ensures this.metadata == metadata && this.reprs == reprs
      ensures lastLogicalTs == 0 && closeCount == 0
    {
      this.metadata := metadata;
      this.reprs := reprs;
      lastLogicalTs := 0;
      closeCount := 0;
    }

    /** `get_metadata(tsid)`. */
    function GetMetadata(id: SeriesId): Option<SeriesRepr.Metadata>
    {
      MetadataOf(metadata, id)
    }

    /** `get_timeseries_repr(tsid)` of the old client. */
    function TimeseriesRepr(id: SeriesId): string
    {
      if id in reprs then reprs[id] else ""
    }

    /** The client's bookkeeping as it hands over a message: a Data message sets the last logical timestamp. */
    method Deliver(m: Message)
      modifies this`lastLogicalTs
      ensures lastLogicalTs == if m.Data? then m.logicalTs else old(lastLogicalTs)
    {
      if m.Data? {
        lastLogicalTs := m.logicalTs;
      }
    }

    /** `close()`. */
    method Close()
      modifies this`closeCount
      ensures closeCount == old(closeCount) + 1
    {
      closeCount := closeCount + 1;
    }
  }

  /** A full terminal line of a dashboard. Text formatting (dates, colours, padding) is not modelled. */
  datatype Line =
    | DataHeader(logicalTs: int)
    | SeriesLine(tsid: SeriesId, name: string, glyphs: string, last: Slot)
    | BlankLine
    | EventsTitle
    | EventLine(event: EventRecord)

  /** Status texts written on the current line, without a line break. */
  datatype Status = Requesting | RequestFailed | Started | Progress(percent: int) | WaitingForData | Oops

  /** One terminal write: a line, a status text, or a relative cursor move (`ESC[nA` up, `ESC[nB` down then a newline). */
  datatype Out = Print(line: Line) | Say(status: Status) | CursorUp(n: nat) | CursorDown(n: nat)

  /**
   * `after` is `before` followed by a block of `height` printed lines and a
   * cursor move up by exactly `height`: the next redraw overwrites the block.
   */
  predicate Redrawn(before: seq<Out>, after: seq<Out>, height: nat)
  {
    && |after| == |before| + height + 1
    && after[..|before|] == before
    && (forall i :: |before| <= i < |after| - 1 ==> after[i].Print?)
    && after[|after| - 1] == CursorUp(height)
  }

  /** Appending one more item to a trace that extends `start` keeps it an extension of `start`. */
  lemma AppendAfter(start: seq<Out>, printed: seq<Out>, o: Out)
    ensures (start + printed) + [o] == start + (printed + [o])
  {
  }

  /** Printing a header line and a block of lines, then moving up over both, is a redraw. */
  lemma RedrawnBlock(before: seq<Out>, head: Out, lines: seq<Out>)
    requires head.Print? && forall i :: 0 <= i < |lines| ==> lines[i].Print?
    ensures Redrawn(before, before + [head] + lines + [CursorUp(|lines| + 1)], |lines| + 1)
  {
    var after := before + [head] + lines + [CursorUp(|lines| + 1)];
    assert after[..|before|] == before;
    forall i | |before| <= i < |after| - 1 ensures after[i].Print? {
      if i > |before| {
        assert after[i] == lines[i - |before| - 1];
      }
    }
  }
}
