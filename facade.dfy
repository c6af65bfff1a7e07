/** The facade class: the shared (static) choice of updater, parser, formatter
    and data set type, and the lookup of a user agent with its random update
    check, its single retry and its fall-back to an empty formatter. */
module Facade {
  import opened Common
  import opened PhpStrings
  import opened Dataset
  import opened Formatters
  import opened Parsers
  import opened Updaters

  /** `InvalidArgumentException` of `setDataSetType`. */
  datatype FacadeError = InvalidDataSetType

  /** The static properties of the facade class, shared by all its objects.
      `defaultParserStatics`, `defaultSourceTypes` and `defaultAnswer` describe
      the INI parser that `getParser` creates when none is set. */
  class BrowscapStatics {
    var updater: Option<AbstractUpdater>
    var parser: Option<Parser>
    var formatter: Option<FormatterRef>
    var dataSetType: int
    const defaultParserStatics: ParserStatics
    const defaultSourceTypes: (string, string, string)
    const defaultAnswer: (seq<ParserCall>, string) -> Option<FormatterRef>

    constructor(defaultParserStatics: ParserStatics, defaultSourceTypes: (string, string, string),
                defaultAnswer: (seq<ParserCall>, string) -> Option<FormatterRef>)
      ensures updater == None && parser == None && formatter == None
      ensures dataSetType == DATASET_TYPE_DEFAULT
      ensures this.defaultParserStatics == defaultParserStatics
      ensures this.defaultSourceTypes == defaultSourceTypes && this.defaultAnswer == defaultAnswer
    {
      updater := None;
      parser := None;
      formatter := None;
      dataSetType := DATASET_TYPE_DEFAULT;
      this.defaultParserStatics := defaultParserStatics;
      this.defaultSourceTypes := defaultSourceTypes;
      this.defaultAnswer := defaultAnswer;
    }

    /** `setDataSetType`: accepts exactly the ints 1, 2 and 3 (a strict
        `in_array`, so the string "2" is refused); anything else is an error
        and changes nothing. */
    method SetDataSetType(v: Value) returns (err: Option<FacadeError>)
      modifies this
      ensures err.None? <==> v.VInt? && IsDataSetType(v.i)
      ensures err.None? ==> dataSetType == v.i
      ensures err.Some? ==> err == Some(InvalidDataSetType) && dataSetType == old(dataSetType)
      ensures updater == old(updater) && parser == old(parser) && formatter == old(formatter)
    {
      if v.VInt? && (v.i == DATASET_TYPE_DEFAULT || v.i == DATASET_TYPE_SMALL || v.i == DATASET_TYPE_LARGE) {
        dataSetType := v.i;
        err := None;
      } else {
        err := Some(InvalidDataSetType);
      }
    }

    function GetDataSetType(): int
      reads this
    {
      dataSetType
    }

    method SetFormatter(f: FormatterRef)
      modifies this
      ensures formatter == Some(f)
      ensures updater == old(updater) && parser == old(parser) && dataSetType == old(dataSetType)
    {
      formatter := Some(f);
    }

    /** `getFormatter`: the formatter set, or else a new object formatter,
        which is then kept. */
    method GetFormatter() returns (f: FormatterRef)
      modifies this
      ensures old(formatter).Some? ==> f == old(formatter).value
      ensures old(formatter).None? ==> f.ObjectFormatter? && fresh(f.obj) && fresh(f.obj.settings)
                                       && f.obj.settings.props == []
      ensures formatter == Some(f)
      ensures updater == old(updater) && parser == old(parser) && dataSetType == old(dataSetType)
    {
      if formatter.None? {
        var o := new PhpGetBrowser();
        SetFormatter(ObjectFormatter(o));
      }
      f := formatter.value;
    }

    method SetParser(p: Parser)
      modifies this
      ensures parser == Some(p)
      ensures updater == old(updater) && formatter == old(formatter) && dataSetType == old(dataSetType)
    {
      parser := Some(p);
    }

    /** `p` is the INI parser `getParser` creates when none is set. */
    ghost predicate IsDefaultParser(p: Parser) {
      && p.answer == defaultAnswer && p.statics == defaultParserStatics
      && (p.sourceType, p.sourceTypeSmall, p.sourceTypeLarge) == defaultSourceTypes
    }

    /** `getParser`: the parser set, or else a new INI parser, which is then kept. */
    method GetParser() returns (p: Parser)
      modifies this
      ensures old(parser).Some? ==> p == old(parser).value
      ensures old(parser).None? ==> fresh(p) && p.log == [] && IsDefaultParser(p)
      ensures parser == Some(p)
      ensures updater == old(updater) && formatter == old(formatter) && dataSetType == old(dataSetType)
    {
      if parser.None? {
        var ini := new Parser(defaultSourceTypes.0, defaultSourceTypes.1, defaultSourceTypes.2,
                              defaultParserStatics, defaultAnswer);
        SetParser(ini);
      }
      p := parser.value;
    }

    method SetUpdater(u: AbstractUpdater)
      modifies this
      ensures updater == Some(u)
      ensures parser == old(parser) && formatter == old(formatter) && dataSetType == old(dataSetType)
    {
      updater := Some(u);
    }

    /** `getUpdater`: the updater set, or else the one the updater factory
        (`factory`) offers, if any; it may stay `null`. */
    method GetUpdater(factory: Option<AbstractUpdater>) returns (u: Option<AbstractUpdater>)
      modifies this
      ensures old(updater).Some? ==> u == old(updater)
      ensures old(updater).None? ==> u == factory
      ensures updater == u
      ensures parser == old(parser) && formatter == old(formatter) && dataSetType == old(dataSetType)
    {
      if updater.None? {
        if factory.Some? {
          SetUpdater(factory.value);
        }
      }
      u := updater;
    }

    /** `update($forceUpdate)`: passed on to the parser. */
    method Update(force: bool)
      modifies this, if parser.Some? then {parser.value} else {}
      ensures parser.Some?
      ensures old(parser).Some? ==> parser == old(parser)
      ensures old(parser).None? ==> fresh(parser.value) && IsDefaultParser(parser.value)
      ensures parser.value.log == (if old(parser).Some? then old(parser.value.log) else []) + [UpdateCall(force)]
      ensures updater == old(updater) && formatter == old(formatter) && dataSetType == old(dataSetType)
    {
      var p := GetParser();
      p.Update(force);
    }
  }

  // ---------------------------------------------------------------- the lookup

  /** How a lookup ends: with the parser's formatter, or with none, in which
      case the shared formatter is returned. */
  datatype Outcome = Found(formatter: FormatterRef) | Fallback

  /** The largest value of the update draw for a probability of `p` percent. */
  function DrawRange(p: int): (r: int)
    requires 1 <= p <= 100
    ensures 1 <= r <= 100 && (r == 1 <==> p > 50) && (p == 100 ==> r == 1)
  {
    100 / p
  }

  /** The parser's log after the update check: an update when `autoUpdate`
      is on and the draw is 1. */
  function Checked(autoUpdate: bool, draw: int, log: seq<ParserCall>): seq<ParserCall> {
    if autoUpdate && draw == 1 then log + [UpdateCall(false)] else log
  }

  /** The calls one `getBrowser` makes on the parser, and its outcome, from the
      parser's call log `log`: an update when `autoUpdate` is on and the draw
      is 1, then a lookup; a lookup without result is tried once more with
      probability 100, whose draw can only be 1. */
  function Run(autoUpdate: bool, p: int, draw: int, log: seq<ParserCall>,
               answer: (seq<ParserCall>, string) -> Option<FormatterRef>, userAgent: string)
    : (Outcome, seq<ParserCall>)
    decreases if p < 100 then 1 else 0
  {
    var log1 := Checked(autoUpdate, draw, log);
    var result := answer(log1, userAgent);
    var log2 := log1 + [LookupCall(userAgent)];
    if result.Some? then (Found(result.value), log2)
    else if p < 100 then Run(autoUpdate, 100, 1, log2, answer, userAgent)
    else (Fallback, log2)
  }

  /** `getBrowser` of an object whose probability is `p` percent, as the
      facade's objects expose it. */
  class Browscap {
    const statics: BrowscapStatics
    var autoUpdate: bool
    /** Probability in percent that the update check is done. */
    var updateProbability: int

    predicate Valid()
      reads this
    {
      1 <= updateProbability <= 100
    }

    /** `new Browscap($autoUpdate)`: the argument is cast `(bool) (int)`. */
    constructor(statics: BrowscapStatics, autoUpdate: Value)
      ensures Valid()
      ensures this.statics == statics && this.autoUpdate == (IntValue(autoUpdate) != 0)
      ensures updateProbability == 1
    {
      this.statics := statics;
      this.autoUpdate := IntValue(autoUpdate) != 0;
      updateProbability := 1;
    }

    /** The update check and the parser's lookup, one attempt of `getBrowser`. */
    method LookupOnce(ua: string, draw: int) returns (found: Option<FormatterRef>)
      modifies statics, if statics.parser.Some? then {statics.parser.value} else {}
      ensures statics.parser.Some? && (old(statics.parser).Some? ==> statics.parser == old(statics.parser))
      ensures old(statics.parser).None? ==> fresh(statics.parser.value) && statics.IsDefaultParser(statics.parser.value)
      ensures var log1 := Checked(autoUpdate, draw,
                                  if old(statics.parser).Some? then old(statics.parser.value.log) else []);
              && found == statics.parser.value.answer(log1, ua)
              && statics.parser.value.log == log1 + [LookupCall(ua)]
      ensures statics.formatter == old(statics.formatter) && statics.updater == old(statics.updater)
      ensures statics.dataSetType == old(statics.dataSetType)
    {
      if autoUpdate {
        var randomInt := draw;
        if randomInt == 1 {
          statics.Update(false);
        }
      }
      var parser := statics.GetParser();
      found := parser.GetBrowser(ua);
    }

    /** `getBrowser($userAgent)`. A missing user agent is the request's
        (`serverUserAgent`), or empty; `draw` is what `random_int` returns. */
    method GetBrowser(userAgent: Option<string>, serverUserAgent: Option<string>, draw: int)
      returns (r: FormatterRef)
      requires Valid()
      modifies this, statics, if statics.parser.Some? then {statics.parser.value} else {}
      decreases if updateProbability < 100 then 1 else 0
      ensures Valid() && updateProbability == old(updateProbability) && autoUpdate == old(autoUpdate)
      ensures statics.parser.Some? && (old(statics.parser).Some? ==> statics.parser == old(statics.parser))
      ensures old(statics.parser).None? ==> fresh(statics.parser.value) && statics.IsDefaultParser(statics.parser.value)
      ensures var ua := userAgent.GetOr(serverUserAgent.GetOr(""));
              var p := statics.parser.value;
              var run := Run(old(autoUpdate), old(updateProbability), draw,
                             if old(statics.parser).Some? then old(statics.parser.value.log) else [],
                             p.answer, ua);
              && p.log == run.1
              && (run.0.Found? ==> r == run.0.formatter)
              && (run.0.Found? ==> statics.formatter == old(statics.formatter))
              && (run.0.Fallback? ==> statics.formatter == Some(r))
              && (run.0.Fallback? && old(statics.formatter).Some? ==> r == old(statics.formatter).value)
              && (run.0.Fallback? && old(statics.formatter).None? ==>
                    r.ObjectFormatter? && fresh(r.obj) && fresh(r.obj.settings) && r.obj.settings.props == [])
      ensures old(statics.formatter).Some? ==> statics.formatter == old(statics.formatter)
      ensures statics.updater == old(statics.updater) && statics.dataSetType == old(statics.dataSetType)
    {
      var ua := userAgent.GetOr(serverUserAgent.GetOr(""));
      var found := LookupOnce(ua, draw);
      if found.None? && updateProbability < 100 {
        var saved := updateProbability;
        updateProbability := 100;
        var retried := GetBrowser(Some(ua), serverUserAgent, 1);
        found := Some(retried);
        updateProbability := saved;
      }
      if found.None? {
        r := statics.GetFormatter();
      } else {
        r := found.value;
      }
    }
  }

  // ---------------------------------------------------------------- properties of the lookup

  /** The calls a lookup added to the parser's log. */
  function NewCalls(autoUpdate: bool, p: int, draw: int, log: seq<ParserCall>,
                    answer: (seq<ParserCall>, string) -> Option<FormatterRef>, userAgent: string)
    : seq<ParserCall>
  {
    var run := Run(autoUpdate, p, draw, log, answer, userAgent).1;
    if |log| <= |run| then run[|log|..] else []
  }

  /** The calls of one attempt: the update check's, then the lookup. */
  function Attempt(autoUpdate: bool, draw: int, userAgent: string): seq<ParserCall> {
    (if autoUpdate && draw == 1 then [UpdateCall(false)] else []) + [LookupCall(userAgent)]
  }

  /** The first lookup found nothing and the probability was below 100. */
  predicate Retries(autoUpdate: bool, p: int, draw: int, log: seq<ParserCall>,
                    answer: (seq<ParserCall>, string) -> Option<FormatterRef>, userAgent: string)
  {
    p < 100 && answer(Checked(autoUpdate, draw, log), userAgent).None?
  }

  /** A lookup only appends to the parser's log: one attempt, and a second
      one, with draw 1, exactly when the first lookup found nothing and the
      probability was below 100 (the retry runs at probability 100 and so
      cannot retry again). */
  lemma RunCalls(autoUpdate: bool, p: int, draw: int, log: seq<ParserCall>,
                 answer: (seq<ParserCall>, string) -> Option<FormatterRef>, userAgent: string)
    ensures var run := Run(autoUpdate, p, draw, log, answer, userAgent).1;
            && |log| <= |run| && run[..|log|] == log
            && NewCalls(autoUpdate, p, draw, log, answer, userAgent)
               == Attempt(autoUpdate, draw, userAgent)
                  + (if Retries(autoUpdate, p, draw, log, answer, userAgent) then Attempt(autoUpdate, 1, userAgent) else [])
  {
    var log2 := Checked(autoUpdate, draw, log) + [LookupCall(userAgent)];
    assert log2 == log + Attempt(autoUpdate, draw, userAgent);
    var run := Run(autoUpdate, p, draw, log, answer, userAgent).1;
    if Retries(autoUpdate, p, draw, log, answer, userAgent) {
      var log4 := Checked(autoUpdate, 1, log2) + [LookupCall(userAgent)];
      assert run == Run(autoUpdate, 100, 1, log2, answer, userAgent).1;
      assert Run(autoUpdate, 100, 1, log2, answer, userAgent).1 == log4;
      assert log4 == log + Attempt(autoUpdate, draw, userAgent) + Attempt(autoUpdate, 1, userAgent);
    } else {
      assert run == log2;
    }
  }

  /** The number of lookups in a list of calls. */
  function Lookups(calls: seq<ParserCall>): nat {
    if calls == [] then 0 else (if calls[0].LookupCall? then 1 else 0) + Lookups(calls[1..])
  }

  lemma {:induction false} LookupsAppend(a: seq<ParserCall>, b: seq<ParserCall>)
    ensures Lookups(a + b) == Lookups(a) + Lookups(b)
  {
    if a != [] {
      assert (a + b)[1..] == a[1..] + b;
      LookupsAppend(a[1..], b);
    } else {
      assert a + b == b;
    }
  }

  lemma AttemptLookups(autoUpdate: bool, draw: int, userAgent: string)
    ensures Lookups(Attempt(autoUpdate, draw, userAgent)) == 1
  {
    assert Lookups([LookupCall(userAgent)]) == 1;
    if autoUpdate && draw == 1 {
      assert Attempt(autoUpdate, draw, userAgent)[1..] == [LookupCall(userAgent)];
    }
  }

  /** The parser sees one lookup, or two when the retry happens: the retry
      happens at most once. */
  lemma LookupCount(autoUpdate: bool, p: int, draw: int, log: seq<ParserCall>,
                    answer: (seq<ParserCall>, string) -> Option<FormatterRef>, userAgent: string)
    ensures Lookups(NewCalls(autoUpdate, p, draw, log, answer, userAgent))
         == if Retries(autoUpdate, p, draw, log, answer, userAgent) then 2 else 1
  {
    RunCalls(autoUpdate, p, draw, log, answer, userAgent);
    AttemptLookups(autoUpdate, draw, userAgent);
    AttemptLookups(autoUpdate, 1, userAgent);
    if Retries(autoUpdate, p, draw, log, answer, userAgent) {
      LookupsAppend(Attempt(autoUpdate, draw, userAgent), Attempt(autoUpdate, 1, userAgent));
    } else {
      assert Attempt(autoUpdate, draw, userAgent) + [] == Attempt(autoUpdate, draw, userAgent);
    }
  }

  /** Without `autoUpdate` a lookup never asks the parser to update. */
  lemma NoUpdateWithoutAutoUpdate(p: int, draw: int, log: seq<ParserCall>,
                                  answer: (seq<ParserCall>, string) -> Option<FormatterRef>, userAgent: string)
    ensures forall c :: c in NewCalls(false, p, draw, log, answer, userAgent) ==> c == LookupCall(userAgent)
  {
    RunCalls(false, p, draw, log, answer, userAgent);
  }

  /** With `autoUpdate` the first call is an update exactly when the draw is
      1; with probability 100 the draw range is [1, 1], so it always is. The
      retry, if any, updates too. An update is never forced. */
  lemma UpdateGate(p: int, draw: int, log: seq<ParserCall>,
                   answer: (seq<ParserCall>, string) -> Option<FormatterRef>, userAgent: string)
    requires 1 <= p <= 100 && 1 <= draw <= DrawRange(p)
    ensures var calls := NewCalls(true, p, draw, log, answer, userAgent);
            && calls != []
            && (calls[0] == UpdateCall(false) <==> draw == 1)
            && (p == 100 ==> calls[0] == UpdateCall(false))
            && (Retries(true, p, draw, log, answer, userAgent) ==> UpdateCall(false) in calls[1..])
            && UpdateCall(true) !in calls
  {
    RunCalls(true, p, draw, log, answer, userAgent);
    var calls := NewCalls(true, p, draw, log, answer, userAgent);
    var a := Attempt(true, draw, userAgent);
    if Retries(true, p, draw, log, answer, userAgent) {
      assert calls[|a|] == UpdateCall(false);
    }
  }

  /** A lookup ends with the fall-back exactly when the parser had no answer
      for the last lookup it was asked. */
  lemma FallbackOnlyWithoutAnswer(autoUpdate: bool, p: int, draw: int, log: seq<ParserCall>,
                                  answer: (seq<ParserCall>, string) -> Option<FormatterRef>, userAgent: string)
    ensures var run := Run(autoUpdate, p, draw, log, answer, userAgent);
            && run.1 != [] && run.1[|run.1| - 1] == LookupCall(userAgent)
            && (run.0.Fallback? <==> answer(run.1[..|run.1| - 1], userAgent).None?)
            && (run.0.Found? ==> Some(run.0.formatter) == answer(run.1[..|run.1| - 1], userAgent))
  {
    var log1 := Checked(autoUpdate, draw, log);
    var log2 := log1 + [LookupCall(userAgent)];
    assert log2[..|log2| - 1] == log1;
    if Retries(autoUpdate, p, draw, log, answer, userAgent) {
      var log3 := Checked(autoUpdate, 1, log2);
      assert (log3 + [LookupCall(userAgent)])[..|log3|] == log3;
    }
  }

  // ---------------------------------------------------------------- the update draw as written

  /** A PHP number: `floor` returns a float even for an int argument. */
  datatype Number = IntNumber(i: int) | FloatNumber(x: real)

  datatype PhpError = TypeError

  /** `floor(100 / $this->updateProbability)` as written, for a probability
      that is an int (100, during the retry) or a float (1.0, the default). */
  function RandomMaxAsWritten(p: Number): (r: Number)
    requires p.IntNumber? ==> p.i > 0
    requires p.FloatNumber? ==> p.x > 0.0
    ensures r.FloatNumber?
  {
    match p
    case IntNumber(i) => FloatNumber((100.0 / (i as real)).Floor as real)
    case FloatNumber(x) => FloatNumber((100.0 / x).Floor as real)
  }

  /** `random_int($min, $max)` called from a file with `strict_types=1`: a
      float argument is a `TypeError`; `draw` is the value drawn otherwise. */
  function RandomIntStrict(min: Number, max: Number, draw: int): (r: Result<int, PhpError>)
    ensures (min.FloatNumber? || max.FloatNumber?) ==> r == Failure(TypeError)
  {
    if min.IntNumber? && max.IntNumber? then Success(draw) else Failure(TypeError)
  }

  /** The update check as written: with `autoUpdate` on, the draw throws for
      every probability, the default 1.0 and the 100 of the retry alike. */
  lemma UpdateCheckAsWrittenThrows(p: Number, draw: int)
    requires p == FloatNumber(1.0) || p == IntNumber(100)
    ensures RandomIntStrict(IntNumber(1), RandomMaxAsWritten(p), draw) == Failure(TypeError)
  {
  }

  /** The evidently intended check draws from the integer range [1, 100 / p];
      the lookup above uses it. The update happens with the draw 1 only, and
      for the default probability 1 there are 100 possible draws. */
  lemma UpdateCheckCorrected(p: int, draw: int)
    requires 1 <= p <= 100 && 1 <= draw <= DrawRange(p)
    ensures RandomIntStrict(IntNumber(1), IntNumber(DrawRange(p)), draw) == Success(draw)
    ensures DrawRange(1) == 100 && DrawRange(100) == 1
  {
  }
}
