/**
 * The display name of a time series, computed from its metadata
 * (`timeseries_repr` in signalflowcli/utils.py).
 *
 * A name has up to three parts: the stream label, the primary name (the
 * metric or event type, falling back to the originating one when the
 * primary is a generated `_sf_` name) and the dot-joined values of the
 * remaining dimensions, sorted by dimension key.
 */
module SeriesRepr {
  import opened Wrappers
  import opened Text

  /** Keys that are bookkeeping and never contribute a dimension value. */
  const IgnoredDimensions: set<string> :=
    {"sf_metric", "sf_originatingMetric", "sf_eventType",
     "sf_originatingEventType", "jobId", "programId"}

  const MetricCandidates: seq<string> := ["sf_metric", "sf_originatingMetric"]
  const EventCandidates: seq<string> := ["sf_eventType", "sf_originatingEventType"]

  /**
   * A metadata object: its string-valued properties and, kept apart because
   * it is the one list-valued entry, its `sf_key` list of dimension keys.
   */
  datatype Metadata = Metadata(props: map<string, string>, sfKey: Option<seq<string>>)

  /** The two ways the source raises: `ValueError` for the type, `KeyError` for a lookup. */
  datatype ReprError = UnknownType(sfType: Option<string>) | MissingKey(key: string)

  /** `dict.get`. */
  function Get(props: map<string, string>, k: string): Option<string>
  {
    if k in props then Some(props[k]) else None
  }

  /** Python's `not obj` for an absent or empty metadata object. */
  predicate Falsy(obj: Option<Metadata>)
  {
    obj.None? || (obj.value.props == map[] && obj.value.sfKey.None?)
  }

  /** The ordered candidate primary-name keys for a series kind; None for an unknown kind. */
  function Candidates(sfType: Option<string>): (r: Option<seq<string>>)
    ensures r.Some? <==> sfType == Some("MetricTimeSeries") || sfType == Some("EventTimeSeries")
    ensures sfType == Some("MetricTimeSeries") ==> r == Some(MetricCandidates)
    ensures sfType == Some("EventTimeSeries") ==> r == Some(EventCandidates)
  {
    if sfType == Some("MetricTimeSeries") then Some(MetricCandidates)
    else if sfType == Some("EventTimeSeries") then Some(EventCandidates)
    else None
  }

  /** A generated name: its lower-cased form starts with `_sf_`. */
  predicate Generated(name: string)
  {
    "_sf_" <= Lower(name)
  }

  /** A candidate key can name the series: present and not generated. */
  predicate Usable(props: map<string, string>, c: string)
  {
    c in props && !Generated(props[c])
  }

  /** The index of the first usable candidate, if any. */
  function FirstUsable(props: map<string, string>, cands: seq<string>): (r: Option<nat>)
    ensures r.Some? ==> r.value < |cands| && Usable(props, cands[r.value])
    ensures r.Some? ==> forall j :: 0 <= j < r.value ==> !Usable(props, cands[j])
    ensures r.None? ==> forall j :: 0 <= j < |cands| ==> !Usable(props, cands[j])
  {
    if |cands| == 0 then None
    else if Usable(props, cands[0]) then Some(0)
    else match FirstUsable(props, cands[1..])
      case None => None
      case Some(i) => Some(i + 1)
  }

  /** The primary part: the value of the first usable candidate. */
  function Primary(props: map<string, string>, cands: seq<string>): (r: Option<string>)
    ensures r.Some? <==> exists j :: 0 <= j < |cands| && Usable(props, cands[j])
  {
    match FirstUsable(props, cands)
    case None => None
    case Some(i) => Some(props[cands[i]])
  }

  /** `filter(lambda k: k not in drop, keys)`. */
  function Without(keys: seq<string>, drop: set<string>): (r: seq<string>)
    ensures forall k :: k in r ==> k !in drop
    ensures forall k :: multiset(r)[k] == if k in drop then 0 else multiset(keys)[k]
  {
    if |keys| == 0 then []
    else
      assert keys == [keys[0]] + keys[1..];
      var rest := Without(keys[1..], drop);
      if keys[0] in drop then rest else [keys[0]] + rest
  }

  /** The dimension keys that are shown, in sorted order. */
  function DimensionKeys(keys: seq<string>): (r: seq<string>)
    ensures Sorted(r)
    ensures forall k :: k in r ==> k !in IgnoredDimensions
    ensures forall k :: multiset(r)[k] == if k in IgnoredDimensions then 0 else multiset(keys)[k]
  {
    var r := Sort(Without(keys, IgnoredDimensions));
    assert forall k :: k in r ==> k in multiset(Without(keys, IgnoredDimensions));
    r
  }

  /** `[obj[k] for k in ks]`, failing on the first key that is absent. */
  function LookupAll(props: map<string, string>, ks: seq<string>): (r: Result<seq<string>, ReprError>)
    ensures r.Success? <==> forall i :: 0 <= i < |ks| ==> ks[i] in props
    ensures r.Success? ==> |r.value| == |ks| && forall i :: 0 <= i < |ks| ==> r.value[i] == props[ks[i]]
    ensures r.Failure? ==> exists i :: 0 <= i < |ks| && ks[i] !in props && r.error == MissingKey(ks[i])
  {
    if |ks| == 0 then Success([])
    else if ks[0] !in props then Failure(MissingKey(ks[0]))
    else match LookupAll(props, ks[1..])
      case Failure(e) => Failure(e)
      case Success(vs) => Success([props[ks[0]]] + vs)
  }

  /** The dimension part: the values (not `key=value` pairs) of the shown keys, joined with `.`. */
  function DimensionName(props: map<string, string>, keys: seq<string>): (r: Result<string, ReprError>)
    ensures r.Success? <==> forall k :: k in DimensionKeys(keys) ==> k in props
    ensures r.Success? ==> exists vs: seq<string> ::
      |vs| == |DimensionKeys(keys)| &&
      (forall i :: 0 <= i < |vs| ==> vs[i] == props[DimensionKeys(keys)[i]]) &&
      r.value == Join(".", vs)
    ensures r.Failure? ==> exists k :: k in DimensionKeys(keys) && k !in props && r.error == MissingKey(k)
  {
    match LookupAll(props, DimensionKeys(keys))
    case Failure(e) => Failure(e)
    case Success(vs) => Success(Join(".", vs))
  }

  /** `'/'.join(filter(None, [primary, dims]))`: empty parts are dropped. */
  function Compose(primary: Option<string>, dims: string): (s: string)
    ensures primary.Some? && primary.value != "" && dims != "" ==> s == primary.value + "/" + dims
    ensures (primary.None? || primary.value == "") ==> s == dims
    ensures primary.Some? && dims == "" ==> s == primary.value
  {
    var parts := (if primary.Some? && primary.value != "" then [primary.value] else [])
                 + (if dims != "" then [dims] else []);
    if |parts| == 2 then JoinPair("/", parts[0], parts[1]); Join("/", parts) else
    Join("/", parts)
  }

  /** Prefixes `label: ` when the stream label is present and non-empty. */
  function Labelled(streamLabel: Option<string>, s: string): string
  {
    if streamLabel.Some? && streamLabel.value != "" then streamLabel.value + ": " + s else s
  }

  /** The name before any label: primary part and dimension part, or the error raised. */
  function Unlabelled(m: Metadata): (r: Result<string, ReprError>)
    ensures (r.Failure? && r.error.UnknownType?) <==> Candidates(Get(m.props, "sf_type")).None?
  {
    match Candidates(Get(m.props, "sf_type"))
    case None => Failure(UnknownType(Get(m.props, "sf_type")))
    case Some(cands) =>
      match m.sfKey
      case None => Failure(MissingKey("sf_key"))
      case Some(keys) =>
        match DimensionName(m.props, keys)
        case Failure(e) => Failure(e)
        case Success(dims) => Success(Compose(Primary(m.props, cands), dims))
  }

  /** `timeseries_repr(obj)`: None for absent metadata, an error for an unknown kind. */
  function Repr(obj: Option<Metadata>): (r: Result<Option<string>, ReprError>)
    ensures r == Success(None) <==> Falsy(obj)
    ensures (r.Failure? && r.error.UnknownType?) <==>
            (!Falsy(obj) && Candidates(Get(obj.value.props, "sf_type")).None?)
  {
    if Falsy(obj) then Success(None)
    else match Unlabelled(obj.value)
      case Failure(e) => Failure(e)
      case Success(s) => Success(Some(Labelled(Get(obj.value.props, "sf_streamLabel"), s)))
  }

  /** The name shown on a dashboard line: `timeseries_repr(metadata) or ''`. */
  function DisplayName(obj: Option<Metadata>): (r: Result<string, ReprError>)
    ensures r.Failure? <==> Repr(obj).Failure?
    ensures Falsy(obj) ==> r == Success("")
  {
    match Repr(obj)
    case Failure(e) => Failure(e)
    case Success(None) => Success("")
    case Success(Some(s)) => Success(s)
  }

  // ---------------------------------------------------------------------------
  // Properties of the naming function
  // ---------------------------------------------------------------------------

  /**
   * The primary name is the first candidate, in order, that is present and
   * not generated: a generated `sf_metric` falls back to `sf_originatingMetric`,
   * and the name then starts with it.
   */
  lemma GeneratedMetricFallsBack(props: map<string, string>, keys: seq<string>)
    requires Get(props, "sf_type") == Some("MetricTimeSeries")
    requires "sf_metric" in props && Generated(props["sf_metric"])
    requires Usable(props, "sf_originatingMetric")
    requires "sf_streamLabel" !in props
    requires Repr(Some(Metadata(props, Some(keys)))).Success?
    ensures Primary(props, MetricCandidates) == Some(props["sf_originatingMetric"])
    ensures props["sf_originatingMetric"] <= Repr(Some(Metadata(props, Some(keys)))).value.value
  {
    assert MetricCandidates[0] == "sf_metric" && MetricCandidates[1] == "sf_originatingMetric";
    assert FirstUsable(props, MetricCandidates) == Some(1);
    var m := Metadata(props, Some(keys));
    assert Unlabelled(m) == Success(Compose(Some(props["sf_originatingMetric"]), DimensionName(props, keys).value));
    ComposePrefix(props["sf_originatingMetric"], DimensionName(props, keys).value);
    ReprWithoutLabel(m);
  }

  lemma ReprWithoutLabel(m: Metadata)
    requires m.sfKey.Some? && "sf_streamLabel" !in m.props && Unlabelled(m).Success?
    ensures Repr(Some(m)) == Success(Some(Unlabelled(m).value))
  {
    assert Get(m.props, "sf_streamLabel") == None;
  }

  lemma ComposePrefix(primary: string, dims: string)
    ensures primary <= Compose(Some(primary), dims)
  {
  }

  /** The worked example: `_sf_generated` with originating metric `cpu.util`. */
  lemma GeneratedMetricExample()
    ensures Repr(Some(Metadata(
              map["sf_type" := "MetricTimeSeries", "sf_metric" := "_sf_generated",
                  "sf_originatingMetric" := "cpu.util"],
              Some(["sf_metric"])))) == Success(Some("cpu.util"))
  {
    var props := map["sf_type" := "MetricTimeSeries", "sf_metric" := "_sf_generated",
                     "sf_originatingMetric" := "cpu.util"];
    assert Generated(props["sf_metric"]) by {
      assert Lower("_sf_generated")[..4] == "_sf_";
    }
    assert !Generated("cpu.util") by {
      assert Lower("cpu.util")[0] == 'c';
    }
    assert Primary(props, MetricCandidates) == Some("cpu.util");
    assert Without(["sf_metric"], IgnoredDimensions) == [];
    assert DimensionKeys(["sf_metric"]) == [];
  }

  /** The shown dimension keys depend on `sf_key` only as a multiset. */
  lemma DimensionKeysOrderFree(k1: seq<string>, k2: seq<string>)
    requires multiset(k1) == multiset(k2)
    ensures DimensionKeys(k1) == DimensionKeys(k2)
  {
    var a, b := DimensionKeys(k1), DimensionKeys(k2);
    assert multiset(a) == multiset(b) by {
      forall k ensures multiset(a)[k] == multiset(b)[k] { }
    }
    SortedUnique(a, b);
  }

  /** Dropping the bookkeeping keys first does not change the shown dimension keys. */
  lemma DimensionKeysWithout(keys: seq<string>)
    ensures DimensionKeys(keys) == DimensionKeys(Without(keys, IgnoredDimensions))
  {
    var a, b := DimensionKeys(keys), DimensionKeys(Without(keys, IgnoredDimensions));
    assert multiset(a) == multiset(b) by {
      forall k ensures multiset(a)[k] == multiset(b)[k] { }
    }
    SortedUnique(a, b);
  }

  /** The name depends on `sf_key` only through the shown dimension keys. */
  lemma ReprKeyCongruent(props: map<string, string>, k1: seq<string>, k2: seq<string>)
    requires DimensionKeys(k1) == DimensionKeys(k2)
    ensures Repr(Some(Metadata(props, Some(k1)))) == Repr(Some(Metadata(props, Some(k2))))
  {
    assert DimensionName(props, k1) == DimensionName(props, k2);
  }

  /** No bookkeeping key contributes: dropping them from `sf_key` changes nothing. */
  lemma ReprIgnoresBookkeeping(props: map<string, string>, keys: seq<string>)
    ensures Repr(Some(Metadata(props, Some(keys))))
         == Repr(Some(Metadata(props, Some(Without(keys, IgnoredDimensions)))))
  {
    DimensionKeysWithout(keys);
    ReprKeyCongruent(props, keys, Without(keys, IgnoredDimensions));
  }

  /** The order of `sf_key` is irrelevant: dimension keys are sorted first. */
  lemma ReprKeyOrderFree(props: map<string, string>, k1: seq<string>, k2: seq<string>)
    requires multiset(k1) == multiset(k2)
    ensures Repr(Some(Metadata(props, Some(k1)))) == Repr(Some(Metadata(props, Some(k2))))
  {
    DimensionKeysOrderFree(k1, k2);
    ReprKeyCongruent(props, k1, k2);
  }

  lemma {:induction false} LookupAllAgree(p1: map<string, string>, p2: map<string, string>, ks: seq<string>)
    requires forall i :: 0 <= i < |ks| ==> Get(p1, ks[i]) == Get(p2, ks[i])
    ensures LookupAll(p1, ks) == LookupAll(p2, ks)
  {
    if |ks| > 0 {
      LookupAllAgree(p1, p2, ks[1..]);
    }
  }

  lemma {:induction false} FirstUsableAgree(p1: map<string, string>, p2: map<string, string>, cs: seq<string>)
    requires forall i :: 0 <= i < |cs| ==> Get(p1, cs[i]) == Get(p2, cs[i])
    ensures FirstUsable(p1, cs) == FirstUsable(p2, cs)
  {
    if |cs| > 0 {
      assert Get(p1, cs[0]) == Get(p2, cs[0]);
      FirstUsableAgree(p1, p2, cs[1..]);
    }
  }

  lemma DimensionNameIgnoresLabel(p1: map<string, string>, p2: map<string, string>, keys: seq<string>)
    requires forall k :: k != "sf_streamLabel" ==> Get(p1, k) == Get(p2, k)
    requires "sf_streamLabel" !in keys
    ensures DimensionName(p1, keys) == DimensionName(p2, keys)
  {
    var dk := DimensionKeys(keys);
    forall i | 0 <= i < |dk| ensures Get(p1, dk[i]) == Get(p2, dk[i]) {
      assert multiset(dk)[dk[i]] > 0;
      assert dk[i] in keys;
    }
    LookupAllAgree(p1, p2, dk);
  }

  lemma UnlabelledIgnoresLabel(p1: map<string, string>, p2: map<string, string>, keys: seq<string>)
    requires forall k :: k != "sf_streamLabel" ==> Get(p1, k) == Get(p2, k)
    requires "sf_streamLabel" !in keys
    ensures Unlabelled(Metadata(p1, Some(keys))) == Unlabelled(Metadata(p2, Some(keys)))
  {
    DimensionNameIgnoresLabel(p1, p2, keys);
    CandidatesAvoidLabel();
    PrimaryAgree(p1, p2, MetricCandidates);
    PrimaryAgree(p1, p2, EventCandidates);
    UnlabelledCongruent(Metadata(p1, Some(keys)), Metadata(p2, Some(keys)));
  }

  lemma CandidatesAvoidLabel()
    ensures forall i :: 0 <= i < |MetricCandidates| ==> MetricCandidates[i] != "sf_streamLabel"
    ensures forall i :: 0 <= i < |EventCandidates| ==> EventCandidates[i] != "sf_streamLabel"
  {
    assert MetricCandidates[0][3] != "sf_streamLabel"[3] && MetricCandidates[1][3] != "sf_streamLabel"[3];
    assert EventCandidates[0][3] != "sf_streamLabel"[3] && EventCandidates[1][3] != "sf_streamLabel"[3];
  }

  lemma PrimaryAgree(p1: map<string, string>, p2: map<string, string>, cs: seq<string>)
    requires forall i :: 0 <= i < |cs| ==> Get(p1, cs[i]) == Get(p2, cs[i])
    ensures Primary(p1, cs) == Primary(p2, cs)
  {
    FirstUsableAgree(p1, p2, cs);
    if FirstUsable(p1, cs).Some? {
      var i := FirstUsable(p1, cs).value;
      assert Get(p1, cs[i]) == Get(p2, cs[i]);
    }
  }

  lemma UnlabelledCongruent(m1: Metadata, m2: Metadata)
    requires m1.sfKey == m2.sfKey && m1.sfKey.Some?
    requires Get(m1.props, "sf_type") == Get(m2.props, "sf_type")
    requires DimensionName(m1.props, m1.sfKey.value) == DimensionName(m2.props, m2.sfKey.value)
    requires Primary(m1.props, MetricCandidates) == Primary(m2.props, MetricCandidates)
    requires Primary(m1.props, EventCandidates) == Primary(m2.props, EventCandidates)
    ensures Unlabelled(m1) == Unlabelled(m2)
  {
  }

  /** Applies the label prefix to a successful name and passes everything else through. */
  function Relabel(name: string, r: Result<Option<string>, ReprError>): Result<Option<string>, ReprError>
  {
    match r
    case Success(Some(s)) => Success(Some(Labelled(Some(name), s)))
    case _ => r
  }

  /**
   * The stream label only ever adds the prefix `label: `: with a non-empty
   * label the name is `label: ` followed by the name the same metadata has
   * without a label, and an empty label adds nothing.
   */
  lemma ReprLabelPrefix(props: map<string, string>, keys: seq<string>, name: string)
    requires "sf_streamLabel" !in keys
    ensures Repr(Some(Metadata(props["sf_streamLabel" := name], Some(keys))))
         == Relabel(name, Repr(Some(Metadata(props - {"sf_streamLabel"}, Some(keys)))))
  {
    var p1, p2 := props["sf_streamLabel" := name], props - {"sf_streamLabel"};
    var m1, m2 := Metadata(p1, Some(keys)), Metadata(p2, Some(keys));
    UnlabelledIgnoresLabel(p1, p2, keys);
    assert Get(p1, "sf_streamLabel") == Some(name);
    assert Get(p2, "sf_streamLabel") == None;
    assert !Falsy(Some(m1)) && !Falsy(Some(m2));
    match Unlabelled(m2)
    case Failure(e) =>
      assert Repr(Some(m2)) == Failure(e);
    case Success(s) =>
      assert Repr(Some(m2)) == Success(Some(s));
      assert Repr(Some(m1)) == Success(Some(Labelled(Some(name), s)));
  }
}
