/**
 * Sparklines: the fixed-length rolling value buffer kept per time series and
 * its rendering as a row of glyphs. Both dashboards of the program share this
 * design (`LiveOutputDisplay` in signalflowcli/live.py and `SignalFlowCli` in
 * signalflowcli/__init__.py); they differ only in their glyph ramp and in the
 * glyph a degenerate window renders with, which `Style` captures.
 */
module Sparklines {

  /** An opaque time-series identifier (a tsid). */
  type SeriesId = string

  /** One buffer slot: no value for that tick (Python `None`), or an integer value. */
  datatype Slot = Empty | Present(v: int)

  /** Every buffer has this many slots; the newest value is in the last one. */
  const SparkLength: nat := 10

  type Spark = seq<Slot>

  type Sparks = map<SeriesId, Spark>

  /** The tracker invariant: every tracked series has a full-length buffer. */
  predicate WellFormed(sparks: Sparks)
  {
    forall id :: id in sparks ==> |sparks[id]| == SparkLength
  }

  /** `[None] * 10`, the buffer of a series seen for the first time. */
  function Blank(): (b: Spark)
    ensures |b| == SparkLength
    ensures forall i :: 0 <= i < |b| ==> b[i] == Empty
  {
    seq(SparkLength, _ => Empty)
  }

  /** `spark[1:] + [None]`: drop the oldest slot and open an empty one at the tail. */
  function Shifted(b: Spark): (r: Spark)
    ensures |b| > 0 ==> |r| == |b|
    ensures |r| > 0 && r[|r| - 1] == Empty
    ensures forall i :: 0 <= i < |b| - 1 ==> r[i] == b[i + 1]
  {
    (if |b| == 0 then [] else b[1..]) + [Empty]
  }

  /** `spark[-1] = v`. */
  function WithLast(b: Spark, v: int): (r: Spark)
    requires |b| > 0
    ensures |r| == |b| && r[|b| - 1] == Present(v)
    ensures forall i :: 0 <= i < |b| - 1 ==> r[i] == b[i]
  {
    b[..|b| - 1] + [Present(v)]
  }

  /** The buffer a value is written into: the existing one, or a blank one. */
  function BufferOf(sparks: Sparks, id: SeriesId): Spark
  {
    if id in sparks then sparks[id] else Blank()
  }

  /** `_tick_sparks`: every buffer shifted by one tick, no series added or removed. */
  function Ticked(sparks: Sparks): (r: Sparks)
    ensures r.Keys == sparks.Keys
    ensures WellFormed(sparks) ==> WellFormed(r)
    ensures forall id :: id in r ==> |r[id]| > 0 && r[id][|r[id]| - 1] == Empty
    ensures forall id, i :: id in sparks && 0 <= i < |sparks[id]| - 1 ==>
              |r[id]| == |sparks[id]| && r[id][i] == sparks[id][i + 1]
  {
    map id | id in sparks :: Shifted(sparks[id])
  }

  /** `_add_to_spark(id, v)`: the value lands in the tail slot of the series' buffer. */
  function Recorded(sparks: Sparks, id: SeriesId, v: int): (r: Sparks)
    requires WellFormed(sparks)
    ensures WellFormed(r)
    ensures r.Keys == sparks.Keys + {id}
    ensures r[id][SparkLength - 1] == Present(v)
    ensures id !in sparks ==> forall i :: 0 <= i < SparkLength - 1 ==> r[id][i] == Empty
    ensures id in sparks ==> forall i :: 0 <= i < SparkLength - 1 ==> r[id][i] == sparks[id][i]
    ensures forall other :: other in sparks && other != id ==> r[other] == sparks[other]
  {
    sparks[id := WithLast(BufferOf(sparks, id), v)]
  }

  /** Every value of one Data message recorded; the keys of a map are distinct, so order is irrelevant. */
  function RecordedAll(sparks: Sparks, values: map<SeriesId, int>): (r: Sparks)
    requires WellFormed(sparks)
    ensures WellFormed(r)
    ensures r.Keys == sparks.Keys + values.Keys
    ensures forall id :: id in values ==> r[id] == WithLast(BufferOf(sparks, id), values[id])
    ensures forall id :: id in sparks && id !in values ==> r[id] == sparks[id]
  {
    map id | id in sparks.Keys + values.Keys ::
      if id in values then WithLast(BufferOf(sparks, id), values[id]) else sparks[id]
  }

  /** Recording values one at a time builds up `RecordedAll`. */
  lemma RecordedAllStep(sparks: Sparks, done: map<SeriesId, int>, id: SeriesId, v: int)
    requires WellFormed(sparks) && id !in done
    ensures Recorded(RecordedAll(sparks, done), id, v) == RecordedAll(sparks, done[id := v])
  {
    RecordedAllStepKeys(sparks, done, id, v);
    RecordedAllStepValues(sparks, done, id, v);
    MapsAgree(Recorded(RecordedAll(sparks, done), id, v), RecordedAll(sparks, done[id := v]));
  }

  lemma RecordedAllStepKeys(sparks: Sparks, done: map<SeriesId, int>, id: SeriesId, v: int)
    requires WellFormed(sparks) && id !in done
    ensures Recorded(RecordedAll(sparks, done), id, v).Keys == RecordedAll(sparks, done[id := v]).Keys
  {
  }

  lemma RecordedAllStepValues(sparks: Sparks, done: map<SeriesId, int>, id: SeriesId, v: int)
    requires WellFormed(sparks) && id !in done
    ensures forall k :: k in Recorded(RecordedAll(sparks, done), id, v) ==>
              k in RecordedAll(sparks, done[id := v]) &&
              Recorded(RecordedAll(sparks, done), id, v)[k] == RecordedAll(sparks, done[id := v])[k]
  {
    forall k | k in Recorded(RecordedAll(sparks, done), id, v)
      ensures k in RecordedAll(sparks, done[id := v])
      ensures Recorded(RecordedAll(sparks, done), id, v)[k] == RecordedAll(sparks, done[id := v])[k]
    {
      RecordedAllStepAt(sparks, done, id, v, k);
    }
  }

  lemma MapsAgree(a: Sparks, b: Sparks)
    requires a.Keys == b.Keys && forall k :: k in a ==> a[k] == b[k]
    ensures a == b
  {
  }

  /** `RecordedAllStep` for one series. */
  lemma RecordedAllStepAt(sparks: Sparks, done: map<SeriesId, int>, id: SeriesId, v: int, k: SeriesId)
    requires WellFormed(sparks) && id !in done
    requires k in sparks.Keys + done.Keys + {id}
    ensures Recorded(RecordedAll(sparks, done), id, v)[k] == RecordedAll(sparks, done[id := v])[k]
  {
    var prev := RecordedAll(sparks, done);
    if k == id {
      assert BufferOf(prev, id) == BufferOf(sparks, id);
    }
  }

  /**
   * What a Data message does to the tracker: tick every buffer first, then
   * record the message's values. A series the message does not mention ends
   * with an empty tail slot; a series it mentions ends with the new value; a
   * series seen for the first time has nothing before its value.
   */
  function Advanced(sparks: Sparks, values: map<SeriesId, int>): (r: Sparks)
    requires WellFormed(sparks)
    ensures WellFormed(r)
    ensures r.Keys == sparks.Keys + values.Keys
    ensures forall id :: id in values ==> r[id][SparkLength - 1] == Present(values[id])
    ensures forall id :: id in sparks && id !in values ==> r[id][SparkLength - 1] == Empty
    ensures forall id, i :: id in sparks && 0 <= i < SparkLength - 1 ==> r[id][i] == sparks[id][i + 1]
    ensures forall id, i :: id !in sparks && id in values && 0 <= i < SparkLength - 1 ==> r[id][i] == Empty
  {
    var r := RecordedAll(Ticked(sparks), values);
    forall id | id in r
      ensures |r[id]| == SparkLength
      ensures id in values ==> r[id][SparkLength - 1] == Present(values[id])
      ensures id !in values ==> r[id][SparkLength - 1] == Empty
      ensures id in sparks ==> forall i :: 0 <= i < SparkLength - 1 ==> r[id][i] == sparks[id][i + 1]
      ensures id !in sparks ==> forall i :: 0 <= i < SparkLength - 1 ==> r[id][i] == Empty
    {
      AdvancedAt(sparks, values, id);
    }
    r
  }

  /** One series' buffer after a Data message. */
  lemma AdvancedAt(sparks: Sparks, values: map<SeriesId, int>, id: SeriesId)
    requires WellFormed(sparks) && id in sparks.Keys + values.Keys
    ensures var b := RecordedAll(Ticked(sparks), values)[id];
            && |b| == SparkLength
            && (id in values ==> b[SparkLength - 1] == Present(values[id]))
            && (id !in values ==> b[SparkLength - 1] == Empty)
            && (id in sparks ==> forall i :: 0 <= i < SparkLength - 1 ==> b[i] == sparks[id][i + 1])
            && (id !in sparks ==> forall i :: 0 <= i < SparkLength - 1 ==> b[i] == Empty)
  {
    var t := Ticked(sparks);
    if id in sparks {
      assert t[id] == Shifted(sparks[id]);
    }
  }

  // ---------------------------------------------------------------------------
  // Rendering a buffer as glyphs
  // ---------------------------------------------------------------------------

  /**
   * A glyph ramp. `ticks[0]` is the blank glyph; a present value maps into
   * `ticks[1..]`; `flatIndex` is the glyph of a degenerate window.
   */
  datatype Style = Style(ticks: seq<char>, flatIndex: nat)

  predicate ValidStyle(st: Style)
  {
    |st.ticks| >= 2 && st.flatIndex < |st.ticks|
  }

  /** live.py: seven glyphs (no half block), a degenerate window is drawn with `ticks[3]`. */
  const LiveStyle: Style :=
    Style([' ', '\U{2581}', '\U{2582}', '\U{2583}', '\U{2585}', '\U{2586}', '\U{2587}'], 3)

  /** __init__.py: nine glyphs up to the full block, a degenerate window is blank. */
  const CliStyle: Style :=
    Style([' ', '\U{2581}', '\U{2582}', '\U{2583}', '\U{2584}', '\U{2585}', '\U{2586}', '\U{2587}', '\U{2588}'], 0)

  /** `filter(None, spark)`: the present, non-zero values in slot order. */
  function Values(spark: Spark): (r: seq<int>)
    ensures forall x :: x in r <==> x != 0 && Present(x) in spark
  {
    if |spark| == 0 then []
    else
      var rest := Values(spark[1..]);
      assert forall s :: s in spark <==> s == spark[0] || s in spark[1..];
      if spark[0].Present? && spark[0].v != 0 then [spark[0].v] + rest else rest
  }

  function MinOf(s: seq<int>): (m: int)
    requires |s| > 0
    ensures m in s && forall x :: x in s ==> m <= x
  {
    if |s| == 1 then s[0]
    else
      var m := MinOf(s[1..]);
      assert forall x :: x in s ==> x == s[0] || x in s[1..];
      if s[0] <= m then s[0] else m
  }

  function MaxOf(s: seq<int>): (m: int)
    requires |s| > 0
    ensures m in s && forall x :: x in s ==> x <= m
  {
    if |s| == 1 then s[0]
    else
      var m := MaxOf(s[1..]);
      assert forall x :: x in s ==> x == s[0] || x in s[1..];
      if s[0] >= m then s[0] else m
  }

  /** A window whose present values are all equal, or that has none (Python: `min == max`, both `None` when empty). */
  predicate Degenerate(spark: Spark)
  {
    var vs := Values(spark);
    |vs| == 0 || MinOf(vs) == MaxOf(vs)
  }

  lemma MulNonneg(x: int, y: int)
    requires x >= 0 && y >= 0
    ensures x * y >= 0
  {
  }

  lemma DivMonotone(a: int, b: int, s: int)
    requires 0 <= a <= b && s > 0
    ensures a / s <= b / s
  {
    var qa, qb := a / s, b / s;
    assert a == qa * s + a % s;
    assert b == qb * s + b % s;
    if qa > qb {
      MulNonneg(qa - qb - 1, s);
      assert false;
    }
  }

  lemma MulDivCancel(k: int, s: int)
    requires s > 0
    ensures k * s / s == k
  {
    var q, r := k * s / s, k * s % s;
    assert q * s + r == k * s;
    assert (q - k) * s == -r;
    if q > k {
      MulNonneg(q - k - 1, s);
      assert false;
    } else if q < k {
      MulNonneg(k - q - 1, s);
      assert false;
    }
  }

  lemma ScaleBounds(k: nat, d: int, span: int)
    requires 0 <= d <= span && span > 0
    ensures 0 <= k * d / span <= k
    ensures d == span ==> k * d / span == k
  {
    MulNonneg(k, d);
    MulNonneg(k, span - d);
    assert k * (span - d) == k * span - k * d;
    DivMonotone(k * d, k * span, span);
    MulDivCancel(k, span);
  }

  lemma ScaleMonotone(k: nat, d1: int, d2: int, span: int)
    requires 0 <= d1 <= d2 && span > 0
    ensures k * d1 / span <= k * d2 / span
  {
    MulNonneg(k, d1);
    MulNonneg(k, d2 - d1);
    assert k * (d2 - d1) == k * d2 - k * d1;
    DivMonotone(k * d1, k * d2, span);
  }

  /** `k * d // span` for `0 <= d <= span`: a position on a ramp of `k + 1` steps. */
  function Scale(k: nat, d: int, span: int): (r: nat)
    requires 0 <= d <= span && span > 0
    ensures r <= k
    ensures d == 0 ==> r == 0
    ensures d == span ==> r == k
  {
    ScaleBounds(k, d, span);
    k * d / span
  }

  /**
   * `to_tick_index(v)` for the slot `slot` of `spark`. The degenerate test
   * comes first, so there every slot, empty ones included, gets `flatIndex`;
   * otherwise an empty or zero slot gets 0 and a value `v` gets
   * `1 + (len(ticks) - 2) * (v - min) // (max - min)` (Python 2 integer
   * division, non-negative operands).
   */
  function TickIndex(st: Style, spark: Spark, slot: Slot): (i: nat)
    requires ValidStyle(st) && slot in spark
    ensures i < |st.ticks|
  {
    TickIndexAmong(st, Values(spark), slot)
  }

  /** The tick index given the present non-zero values `vs` of the window; no values is degenerate. */
  function TickIndexAmong(st: Style, vs: seq<int>, slot: Slot): (i: nat)
    requires ValidStyle(st) && (slot.Present? && slot.v != 0 ==> slot.v in vs)
    ensures i < |st.ticks|
  {
    if |vs| == 0 then st.flatIndex
    else ToTickIndex(st, MinOf(vs), MaxOf(vs), slot)
  }

  /** `to_tick_index(v)`: the closure over the window's minimum `lo` and maximum `hi`. */
  function ToTickIndex(st: Style, lo: int, hi: int, slot: Slot): (i: nat)
    requires ValidStyle(st) && lo <= hi && (slot.Present? && slot.v != 0 ==> lo <= slot.v <= hi)
    ensures i < |st.ticks|
  {
    if lo == hi then st.flatIndex
    else match slot
      case Empty => 0
      case Present(v) =>
        if v == 0 then 0
        else 1 + Scale(|st.ticks| - 2, v - lo, hi - lo)
  }

  /** `_render_spark_line`: one glyph of the ramp per slot. */
  function Glyphs(st: Style, spark: Spark): (r: string)
    requires ValidStyle(st)
    ensures |r| == |spark|
    ensures forall i :: 0 <= i < |r| ==> r[i] in st.ticks
  {
    seq(|spark|, i requires 0 <= i < |spark| => st.ticks[TickIndex(st, spark, spark[i])])
  }

  /** A degenerate window renders the flat glyph in every slot, empty slots included. */
  lemma GlyphsDegenerate(st: Style, spark: Spark)
    requires ValidStyle(st) && Degenerate(spark)
    ensures forall i :: 0 <= i < |spark| ==> Glyphs(st, spark)[i] == st.ticks[st.flatIndex]
  {
  }

  /**
   * Outside the degenerate case, empty and zero slots render blank, and a
   * present non-zero value renders a glyph from `ticks[1..]`: the minimum the
   * first, the maximum the last, and a larger value never a lower glyph.
   */
  lemma GlyphsScaled(st: Style, spark: Spark, i: nat)
    requires ValidStyle(st) && !Degenerate(spark) && i < |spark|
    ensures (spark[i] == Empty || spark[i] == Present(0)) ==> Glyphs(st, spark)[i] == st.ticks[0]
    ensures spark[i].Present? && spark[i].v != 0 ==>
              1 <= TickIndex(st, spark, spark[i]) < |st.ticks|
    ensures spark[i].Present? && spark[i].v != 0 ==>
              TickIndex(st, spark, spark[i]) ==
              1 + (|st.ticks| - 2) * (spark[i].v - MinOf(Values(spark))) / (MaxOf(Values(spark)) - MinOf(Values(spark)))
    ensures spark[i].Present? && spark[i].v != 0 && spark[i].v == MaxOf(Values(spark)) ==>
              Glyphs(st, spark)[i] == st.ticks[|st.ticks| - 1]
    ensures spark[i].Present? && spark[i].v != 0 && spark[i].v == MinOf(Values(spark)) ==>
              Glyphs(st, spark)[i] == st.ticks[1]
  {
    if spark[i].Present? && spark[i].v != 0 {
      GlyphRaised(st, spark, i);
      GlyphFormula(st, spark, i);
      if spark[i].v == MinOf(Values(spark)) {
        GlyphAtMin(st, spark, i);
      }
      if spark[i].v == MaxOf(Values(spark)) {
        GlyphAtMax(st, spark, i);
      }
    } else {
      GlyphBlank(st, spark, i);
    }
  }

  lemma GlyphBlank(st: Style, spark: Spark, i: nat)
    requires ValidStyle(st) && !Degenerate(spark) && i < |spark|
    requires spark[i] == Empty || spark[i] == Present(0)
    ensures Glyphs(st, spark)[i] == st.ticks[0]
  {
    GlyphAt(st, spark, i);
    TickIndexUnfold(st, spark, spark[i]);
    TickIndexBlank(st, Values(spark), spark[i]);
  }

  lemma GlyphRaised(st: Style, spark: Spark, i: nat)
    requires ValidStyle(st) && !Degenerate(spark) && i < |spark|
    requires spark[i].Present? && spark[i].v != 0
    ensures 1 <= TickIndex(st, spark, spark[i]) < |st.ticks|
  {
    var vs := Values(spark);
    assert spark[i].v in vs;
    TickIndexUnfold(st, spark, spark[i]);
    TickIndexRaised(st, vs, spark[i].v);
  }

  lemma {:induction false} GlyphFormula(st: Style, spark: Spark, i: nat)
    requires ValidStyle(st) && !Degenerate(spark) && i < |spark|
    requires spark[i].Present? && spark[i].v != 0
    ensures TickIndex(st, spark, spark[i]) ==
            1 + (|st.ticks| - 2) * (spark[i].v - MinOf(Values(spark))) / (MaxOf(Values(spark)) - MinOf(Values(spark)))
  {
    assert spark[i].v in Values(spark);
    TickIndexUnfold(st, spark, spark[i]);
    TickIndexFormula(st, Values(spark), spark[i].v);
  }

  lemma GlyphAtMax(st: Style, spark: Spark, i: nat)
    requires ValidStyle(st) && !Degenerate(spark) && i < |spark|
    requires spark[i].Present? && spark[i].v != 0 && spark[i].v == MaxOf(Values(spark))
    ensures Glyphs(st, spark)[i] == st.ticks[|st.ticks| - 1]
  {
    TopTick(st, spark, i);
    GlyphTop(st, spark, i);
  }

  lemma GlyphTop(st: Style, spark: Spark, i: nat)
    requires ValidStyle(st) && i < |spark| && TickIndex(st, spark, spark[i]) == |st.ticks| - 1
    ensures Glyphs(st, spark)[i] == st.ticks[|st.ticks| - 1]
  {
    GlyphAt(st, spark, i);
  }

  lemma TopTick(st: Style, spark: Spark, i: nat)
    requires ValidStyle(st) && !Degenerate(spark) && i < |spark|
    requires spark[i].Present? && spark[i].v != 0 && spark[i].v == MaxOf(Values(spark))
    ensures TickIndex(st, spark, spark[i]) == |st.ticks| - 1
  {
    TickIndexUnfold(st, spark, spark[i]);
    TickIndexAtMax(st, Values(spark));
  }

  lemma GlyphAtMin(st: Style, spark: Spark, i: nat)
    requires ValidStyle(st) && !Degenerate(spark) && i < |spark|
    requires spark[i].Present? && spark[i].v != 0 && spark[i].v == MinOf(Values(spark))
    ensures Glyphs(st, spark)[i] == st.ticks[1]
  {
    GlyphAt(st, spark, i);
    TickIndexUnfold(st, spark, spark[i]);
    TickIndexAtMin(st, Values(spark));
  }

  lemma GlyphAt(st: Style, spark: Spark, i: nat)
    requires ValidStyle(st) && i < |spark|
    ensures Glyphs(st, spark)[i] == st.ticks[TickIndex(st, spark, spark[i])]
  {
  }

  lemma TickIndexUnfold(st: Style, spark: Spark, slot: Slot)
    requires ValidStyle(st) && slot in spark
    ensures TickIndex(st, spark, slot) == TickIndexAmong(st, Values(spark), slot)
  {
  }

  /** Outside the degenerate case an empty or zero slot gets the blank glyph. */
  lemma TickIndexBlank(st: Style, vs: seq<int>, slot: Slot)
    requires ValidStyle(st) && |vs| > 0 && MinOf(vs) != MaxOf(vs)
    requires slot == Empty || slot == Present(0)
    ensures TickIndexAmong(st, vs, slot) == 0
  {
  }

  /** Outside the degenerate case a present non-zero value gets a glyph of `ticks[1..]`. */
  lemma TickIndexRaised(st: Style, vs: seq<int>, v: int)
    requires ValidStyle(st) && |vs| > 0 && MinOf(vs) != MaxOf(vs) && v in vs && v != 0
    ensures 1 <= TickIndexAmong(st, vs, Present(v))
  {
  }

  /** Outside the degenerate case a non-zero value gets `1 + (len-2)*(v-min) div (max-min)`. */
  lemma {:induction false} TickIndexFormula(st: Style, vs: seq<int>, v: int)
    requires ValidStyle(st) && |vs| > 0 && MinOf(vs) != MaxOf(vs) && v in vs && v != 0
    ensures TickIndexAmong(st, vs, Present(v)) == 1 + (|st.ticks| - 2) * (v - MinOf(vs)) / (MaxOf(vs) - MinOf(vs))
  {
    assert TickIndexAmong(st, vs, Present(v)) == ToTickIndex(st, MinOf(vs), MaxOf(vs), Present(v));
    ToTickIndexScaled(st, MinOf(vs), MaxOf(vs), v);
  }

  lemma ToTickIndexScaled(st: Style, lo: int, hi: int, v: int)
    requires ValidStyle(st) && lo < hi && lo <= v <= hi && v != 0
    ensures ToTickIndex(st, lo, hi, Present(v)) == 1 + (|st.ticks| - 2) * (v - lo) / (hi - lo)
  {
  }

  /** Outside the degenerate case the maximum, when non-zero, gets the last glyph. */
  lemma TickIndexAtMax(st: Style, vs: seq<int>)
    requires ValidStyle(st) && |vs| > 0 && MinOf(vs) != MaxOf(vs) && MaxOf(vs) != 0
    ensures TickIndexAmong(st, vs, Present(MaxOf(vs))) == |st.ticks| - 1
  {
  }

  /** Outside the degenerate case the minimum, when non-zero, gets the first glyph of `ticks[1..]`. */
  lemma TickIndexAtMin(st: Style, vs: seq<int>)
    requires ValidStyle(st) && |vs| > 0 && MinOf(vs) != MaxOf(vs) && MinOf(vs) != 0
    ensures TickIndexAmong(st, vs, Present(MinOf(vs))) == 1
  {
    var lo, hi := MinOf(vs), MaxOf(vs);
    assert TickIndexAmong(st, vs, Present(lo)) == 1 + Scale(|st.ticks| - 2, lo - lo, hi - lo);
  }

  /** Among present non-zero values the glyph index never decreases as the value grows (a zero value is blank whatever its rank). */
  lemma TickIndexMonotone(st: Style, spark: Spark, i: nat, j: nat)
    requires ValidStyle(st) && !Degenerate(spark) && i < |spark| && j < |spark|
    requires spark[i].Present? && spark[j].Present? && spark[i].v != 0 && spark[j].v != 0
    requires spark[i].v <= spark[j].v
    ensures TickIndex(st, spark, spark[i]) <= TickIndex(st, spark, spark[j])
  {
    var vs := Values(spark);
    assert spark[i].v in vs && spark[j].v in vs;
    TickIndexUnfold(st, spark, spark[i]);
    TickIndexUnfold(st, spark, spark[j]);
    var lo, hi := MinOf(vs), MaxOf(vs);
    ScaleMonotone(|st.ticks| - 2, spark[i].v - lo, spark[j].v - lo, hi - lo);
  }

  /** live.py: a degenerate window is all `▃`; the largest value shows `▇`; scaled values use glyphs 1 to 6. */
  lemma LiveStyleGlyphs(spark: Spark, i: nat)
    requires i < |spark|
    ensures Degenerate(spark) ==> Glyphs(LiveStyle, spark)[i] == '\U{2583}'
    ensures !Degenerate(spark) && spark[i].Present? && spark[i].v != 0 ==>
              1 <= TickIndex(LiveStyle, spark, spark[i]) <= 6
    ensures !Degenerate(spark) && spark[i].Present? && spark[i].v != 0 && spark[i].v == MaxOf(Values(spark)) ==>
              Glyphs(LiveStyle, spark)[i] == '\U{2587}'
  {
    if !Degenerate(spark) {
      GlyphsScaled(LiveStyle, spark, i);
    }
  }

  /** __init__.py: a degenerate window is blank; the largest value shows the full block `█`; scaled values use glyphs 1 to 8. */
  lemma CliStyleGlyphs(spark: Spark, i: nat)
    requires i < |spark|
    ensures Degenerate(spark) ==> Glyphs(CliStyle, spark)[i] == ' '
    ensures !Degenerate(spark) && spark[i].Present? && spark[i].v != 0 ==>
              1 <= TickIndex(CliStyle, spark, spark[i]) <= 8
    ensures !Degenerate(spark) && spark[i].Present? && spark[i].v != 0 && spark[i].v == MaxOf(Values(spark)) ==>
              Glyphs(CliStyle, spark)[i] == '\U{2588}'
  {
    if !Degenerate(spark) {
      GlyphsScaled(CliStyle, spark, i);
    }
  }
}
