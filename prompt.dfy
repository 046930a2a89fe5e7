/**
 * The interactive prompt's own logic (signalflowcli/prompt.py): expanding
 * the user's parameters before a computation is executed, tab completion of
 * `.`-commands and `!`-file names, `.<param> <value>` settings, and the
 * choice of output sink.
 */
module Prompt {
  import opened Wrappers

  // ---------------------------------------------------------------------
  // process_params
  // ---------------------------------------------------------------------

  /** A parameter after expansion: the text as given (None when unset), or a millisecond value. */
  datatype ParamValue = Raw(text: Option<string>) | Millis(ms: int)

  /** Python truthiness of a parameter: None and the empty string are false. */
  predicate Truthy(v: Option<string>)
  {
    v.Some? && v.value != ""
  }

  /** Parameters given as absolute or relative timestamps. */
  predicate IsTimestamp(k: string)
  {
    k == "start" || k == "stop"
  }

  /** Parameters given as durations, which the parser reads after an `=`. */
  predicate IsDuration(k: string)
  {
    k == "resolution" || k == "max_delay"
  }

  /** The value one parameter ends with. */
  function Expanded(k: string, v: Option<string>, parse: string -> int): ParamValue
  {
    if !Truthy(v) then Raw(v)
    else if IsTimestamp(k) then Millis(parse(v.value))
    else if IsDuration(k) then Millis(parse("=" + v.value))
    else Raw(v)
  }

  /** No parameter is both a timestamp and a duration, so at most one expansion applies. */
  lemma TimestampNotDuration(k: string)
    ensures !(IsTimestamp(k) && IsDuration(k))
  {
    if IsTimestamp(k) {
      assert |k| <= 5;
    }
  }

  /**
   * `process_params`: drops `output` (a missing `output` raises KeyError) and
   * expands every truthy timestamp or duration with `parse`, which stands
   * for `tslib.parse_to_timestamp`; everything else passes through unchanged.
   */
  method ProcessParams(kwargs: map<string, Option<string>>, parse: string -> int)
    returns (r: Result<map<string, ParamValue>, string>)
    ensures r.Failure? <==> "output" !in kwargs
    ensures r.Success? ==> r.value.Keys == kwargs.Keys - {"output"}
    ensures r.Success? ==> forall k :: k in r.value && !Truthy(kwargs[k]) ==> r.value[k] == Raw(kwargs[k])
    ensures r.Success? ==> forall k :: k in r.value && Truthy(kwargs[k]) && IsTimestamp(k) ==>
                             r.value[k] == Millis(parse(kwargs[k].value))
    ensures r.Success? ==> forall k :: k in r.value && Truthy(kwargs[k]) && IsDuration(k) ==>
                             r.value[k] == Millis(parse("=" + kwargs[k].value))
    ensures r.Success? ==> forall k :: k in r.value && Truthy(kwargs[k]) && !IsTimestamp(k) && !IsDuration(k) ==>
                             r.value[k] == Raw(kwargs[k])
  {
    if "output" !in kwargs {
      return Failure("output");
    }
    var params := map k | k in kwargs && k != "output" :: Raw(kwargs[k]);
    var todo := params.Keys;
    while todo != {}
      invariant todo <= params.Keys
      invariant params.Keys == kwargs.Keys - {"output"}
      invariant forall k :: k in params ==> params[k] == if k in todo then Raw(kwargs[k]) else Expanded(k, kwargs[k], parse)
      decreases todo
    {
      var k :| k in todo;
      var v := kwargs[k];
      TimestampNotDuration(k);
      if Truthy(v) {
        if IsTimestamp(k) {
          params := params[k := Millis(parse(v.value))];
        }
        if IsDuration(k) {
          params := params[k := Millis(parse("=" + v.value))];
        }
      }
      todo := todo - {k};
    }
    forall k | k in params
      ensures !Truthy(kwargs[k]) ==> params[k] == Raw(kwargs[k])
      ensures Truthy(kwargs[k]) && IsTimestamp(k) ==> params[k] == Millis(parse(kwargs[k].value))
      ensures Truthy(kwargs[k]) && IsDuration(k) ==> params[k] == Millis(parse("=" + kwargs[k].value))
      ensures Truthy(kwargs[k]) && !IsTimestamp(k) && !IsDuration(k) ==> params[k] == Raw(kwargs[k])
    {
      TimestampNotDuration(k);
    }
    r := Success(params);
  }

  // ---------------------------------------------------------------------
  // Completion
  // ---------------------------------------------------------------------

  /** `OptionCompleter.OPTS`. */
  const Opts: seq<string> := ["start", "stop", "resolution", "max_delay", "output"]

  /** A prompt_toolkit document: the input text and the cursor position (which may be negative). */
  datatype Document = Document(text: string, cursor: int)

  /** A completion: the text to insert and where, relative to the cursor, it starts. */
  datatype Completion = Completion(text: string, startPosition: int)

  /** Python's `s[:n]`: a negative end counts from the back, and the end is clamped to the string. */
  function SliceTo(s: string, n: int): (r: string)
    ensures r <= s
    ensures 0 <= n <= |s| ==> |r| == n
    ensures n > |s| ==> r == s
    ensures n < 0 ==> |r| == if |s| + n < 0 then 0 else |s| + n
  {
    if n >= |s| then s
    else if n >= 0 then s[..n]
    else if |s| + n >= 0 then s[..|s| + n]
    else []
  }

  /** `document.text_before_cursor`. */
  function TextBeforeCursor(doc: Document): string
  {
    SliceTo(doc.text, doc.cursor)
  }

  /** Some completion in `r` inserts `o`. */
  predicate Offers(r: seq<Completion>, o: string)
  {
    exists i :: 0 <= i < |r| && r[i].text == o
  }

  /**
   * `OptionCompleter.get_completions` over a list of options: every option
   * that `typed` is a prefix of, each starting at `start`.
   */
  function Matching(opts: seq<string>, typed: string, start: int): (r: seq<Completion>)
    ensures |r| <= |opts|
    ensures forall i :: 0 <= i < |r| ==> r[i].startPosition == start
    ensures forall i :: 0 <= i < |r| ==> r[i].text in opts && typed <= r[i].text
    decreases |opts|
  {
    if opts == [] then []
    else
      var rest := Matching(opts[1..], typed, start);
      if typed <= opts[0] then [Completion(opts[0], start)] + rest else rest
  }

  /** Every option that `typed` is a prefix of is offered. */
  lemma {:induction false} MatchingComplete(opts: seq<string>, typed: string, start: int, o: string)
    requires o in opts && typed <= o
    ensures Offers(Matching(opts, typed, start), o)
    decreases |opts|
  {
    var r := Matching(opts, typed, start);
    if o == opts[0] {
      assert r[0].text == o;
    } else {
      assert o in opts[1..];
      MatchingComplete(opts[1..], typed, start, o);
      var rest := Matching(opts[1..], typed, start);
      var k :| 0 <= k < |rest| && rest[k].text == o;
      if typed <= opts[0] {
        assert r[k + 1].text == o;
      } else {
        assert r[k].text == o;
      }
    }
  }

  /** An option is offered exactly when `typed` is a prefix of it. */
  lemma MatchingExactly(opts: seq<string>, typed: string, start: int)
    ensures var r := Matching(opts, typed, start);
            forall o :: o in opts ==> (typed <= o <==> Offers(r, o))
  {
    var r := Matching(opts, typed, start);
    forall o | o in opts
      ensures typed <= o <==> Offers(r, o)
    {
      if typed <= o {
        MatchingComplete(opts, typed, start, o);
      } else {
        forall i | 0 <= i < |r| ensures r[i].text != o {
          assert typed <= r[i].text;
        }
      }
    }
  }

  /**
   * `OptionCompleter.get_completions` with the option list `opts` (the
   * completer's `OPTS`): exactly the options that the text before the cursor
   * is a prefix of, each replacing that text.
   */
  function OptionCompletions(opts: seq<string>, doc: Document): (r: seq<Completion>)
    ensures forall o :: o in opts ==> (TextBeforeCursor(doc) <= o <==> Offers(r, o))
    ensures forall i :: 0 <= i < |r| ==> r[i].text in opts && r[i].startPosition == -doc.cursor
  {
    MatchingExactly(opts, TextBeforeCursor(doc), -doc.cursor);
    Matching(opts, TextBeforeCursor(doc), -doc.cursor)
  }

  /** The completions come in the order of the options: their positions in `opts` strictly increase. */
  lemma {:induction false} MatchingInOrder(opts: seq<string>, typed: string, start: int) returns (pos: seq<nat>)
    ensures |pos| == |Matching(opts, typed, start)|
    ensures forall i :: 0 <= i < |pos| ==> pos[i] < |opts| && opts[pos[i]] == Matching(opts, typed, start)[i].text
    ensures forall i, j :: 0 <= i < j < |pos| ==> pos[i] < pos[j]
    decreases |opts|
  {
    if opts == [] {
      pos := [];
    } else {
      var tail := MatchingInOrder(opts[1..], typed, start);
      var rest := Matching(opts[1..], typed, start);
      var shifted := ShiftAll(tail);
      forall i | 0 <= i < |shifted| ensures shifted[i] < |opts| && opts[shifted[i]] == rest[i].text {
        assert opts[shifted[i]] == opts[1..][tail[i]];
      }
      if typed <= opts[0] {
        pos := [0] + shifted;
        var r := Matching(opts, typed, start);
        assert r == [Completion(opts[0], start)] + rest;
        forall i | 0 < i < |pos| ensures pos[i] < |opts| && opts[pos[i]] == r[i].text {
          assert pos[i] == shifted[i - 1] && r[i] == rest[i - 1];
        }
      } else {
        pos := shifted;
      }
    }
  }

  /** Every position moved one option further on. */
  function ShiftAll(ps: seq<nat>): (r: seq<nat>)
    ensures |r| == |ps| && forall i :: 0 <= i < |ps| ==> r[i] == ps[i] + 1
  {
    seq(|ps|, i requires 0 <= i < |ps| => ps[i] + 1)
  }

  /** With nothing typed before the cursor, every option is offered, in order. */
  lemma {:induction false} MatchingEverything(opts: seq<string>, start: int)
    ensures |Matching(opts, [], start)| == |opts|
    ensures forall i :: 0 <= i < |opts| ==> Matching(opts, [], start)[i] == Completion(opts[i], start)
  {
    MatchingEmptyTyped(opts, start);
  }

  /** Every option, in order, as a completion starting at `start`. */
  function AllCompletions(opts: seq<string>, start: int): (r: seq<Completion>)
    ensures |r| == |opts|
    ensures forall i :: 0 <= i < |opts| ==> r[i] == Completion(opts[i], start)
  {
    seq(|opts|, i requires 0 <= i < |opts| => Completion(opts[i], start))
  }

  lemma {:induction false} MatchingEmptyTyped(opts: seq<string>, start: int)
    ensures Matching(opts, [], start) == AllCompletions(opts, start)
    decreases |opts|
  {
    if opts != [] {
      MatchingEmptyTyped(opts[1..], start);
      assert [] <= opts[0];
      assert AllCompletions(opts, start) == [Completion(opts[0], start)] + AllCompletions(opts[1..], start);
    }
  }

  /** `PromptCompleter._offset`: the document without its first `offset` characters. */
  function Offset(doc: Document, offset: nat): (r: Document)
    ensures r.cursor == doc.cursor - offset
    ensures offset <= |doc.text| ==> doc.text == doc.text[..offset] + r.text
    ensures offset > |doc.text| ==> r.text == []
  {
    Document(if offset <= |doc.text| then doc.text[offset..] else [], doc.cursor - offset)
  }

  /**
   * `PromptCompleter.get_completions`: a line starting with `!` completes a
   * file name (with `paths`, which stands for prompt_toolkit's
   * `PathCompleter`), a line starting with `.` completes an option name, and
   * any other line offers nothing.
   */
  function PromptCompletions(doc: Document, paths: Document -> seq<Completion>): (r: seq<Completion>)
    ensures |doc.text| > 0 && doc.text[0] == '!' ==> r == paths(Offset(doc, 1))
    ensures |doc.text| > 0 && doc.text[0] == '.' ==> r == OptionCompletions(Opts, Offset(doc, 1))
    ensures (|doc.text| == 0 || (doc.text[0] != '!' && doc.text[0] != '.')) ==> r == []
  {
    if |doc.text| > 0 && doc.text[0] == '!' then paths(Offset(doc, 1))
    else if |doc.text| > 0 && doc.text[0] == '.' then OptionCompletions(Opts, Offset(doc, 1))
    else []
  }

  /**
   * On a `.` line with the cursor after the dot, the completions are the
   * options that start with what was typed between the dot and the cursor,
   * each replacing exactly that text.
   */
  lemma DotCompletions(typed: string, rest: string, paths: Document -> seq<Completion>)
    ensures var r := PromptCompletions(Document("." + typed + rest, |typed| + 1), paths);
            (forall i :: 0 <= i < |r| ==> r[i].startPosition == -|typed| && typed <= r[i].text && r[i].text in Opts) &&
            (forall o :: o in Opts && typed <= o ==> Offers(r, o))
  {
    var doc := Document("." + typed + rest, |typed| + 1);
    assert doc.text[0] == '.';
    assert Offset(doc, 1).text == typed + rest;
    assert TextBeforeCursor(Offset(doc, 1)) == typed;
  }

  /**
   * With the cursor at the very start of a `.` line, the offset document's
   * cursor is -1: Python's slice then drops the last character instead of
   * taking none, and every completion starts one character after the cursor.
   */
  lemma DotCompletionsAtLineStart(t: string, paths: Document -> seq<Completion>)
    requires |t| >= 1
    ensures var r := PromptCompletions(Document("." + t, 0), paths);
            (forall i :: 0 <= i < |r| ==> r[i].startPosition == 1) &&
            (forall o :: o in Opts ==> (t[..|t| - 1] <= o <==> Offers(r, o)))
  {
    var doc := Document("." + t, 0);
    assert doc.text[0] == '.';
    assert Offset(doc, 1) == Document(t, -1);
  }

  // ---------------------------------------------------------------------
  // Settings and output
  // ---------------------------------------------------------------------

  /** `program[1:].split(' ', 1)`: the parameter name, and the value when a space follows it. */
  function SplitCommand(s: string): (r: (string, Option<string>))
    ensures ' ' !in r.0
    ensures r.1.None? <==> ' ' !in s
    ensures r.1.None? ==> r.0 == s
    ensures r.1.Some? ==> s == r.0 + " " + r.1.value
    decreases |s|
  {
    if s == [] then ([], None)
    else if s[0] == ' ' then ([], Some(s[1..]))
    else
      var (name, value) := SplitCommand(s[1..]);
      ([s[0]] + name, value)
  }

  /** The sink a computation's output goes to. */
  datatype Sink = LiveSink | CsvSink | GraphSink | UnknownSink(name: string)

  /** `params.get('output') or 'live'`. */
  function OutputFormat(params: map<string, Option<string>>): (r: string)
    ensures r != ""
    ensures ("output" !in params || !Truthy(params["output"])) ==> r == "live"
    ensures "output" in params && Truthy(params["output"]) ==> r == params["output"].value
  {
    if "output" in params && Truthy(params["output"]) then params["output"].value else "live"
  }

  /** The dispatch on the output format: `live`, `csv`, `graph`, or an unknown format. */
  function SinkFor(params: map<string, Option<string>>): (r: Sink)
    ensures r == LiveSink <==> OutputFormat(params) == "live"
    ensures r.UnknownSink? <==> OutputFormat(params) !in {"live", "csv", "graph"}
    ensures r.UnknownSink? ==> r.name == OutputFormat(params)
  {
    var f := OutputFormat(params);
    if f == "live" then LiveSink
    else if f == "csv" then CsvSink
    else if f == "graph" then GraphSink
    else UnknownSink(f)
  }

  /** The parameters of a prompt session, which `.`-commands change in place. */
  class Session {
    var params: map<string, Option<string>>

    constructor (params: map<string, Option<string>>)
      ensures this.params == params
    {
      this.params := params;
    }

    /** `set_param`: only a parameter the session already has can be set; returns whether the name was unknown. */
    method SetParam(name: string, value: Option<string>) returns (unknown: bool)
      modifies this
      ensures unknown <==> name !in old(params)
      ensures unknown ==> params == old(params)
      ensures !unknown ==> params == old(params)[name := value]
      ensures params.Keys == old(params.Keys)
    {
      if name !in params {
        return true;
      }
      params := params[name := value];
      unknown := false;
    }

    /**
     * A `.`-command: `.` alone changes nothing; `.<name>` unsets the
     * parameter and `.<name> <value>` sets it, when it exists.
     */
    method Dot(program: string) returns (unknown: bool)
      requires |program| > 0 && program[0] == '.'
      modifies this
      ensures |program| == 1 ==> !unknown && params == old(params)
      ensures |program| > 1 ==> var (name, value) := SplitCommand(program[1..]);
                                (unknown <==> name !in old(params)) &&
                                params == if unknown then old(params) else old(params)[name := value]
      ensures params.Keys == old(params.Keys)
    {
      unknown := false;
      if |program| > 1 {
        var (name, value) := SplitCommand(program[1..]);
        unknown := SetParam(name, value);
      }
    }
  }
}
