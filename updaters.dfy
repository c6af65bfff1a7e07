/** The updater base class: an update interval and a dictionary of options
    whose keys the concrete updater fixes with their default values. Options
    can be changed but never added; an unknown key is an error. */
module Updaters {
  import opened Common
  import opened PhpStrings

  /** Five days, in seconds. */
  const DEFAULT_INTERVAL: int := 432000

  /** The `InvalidArgumentException`s an updater throws. */
  datatype UpdaterError = InvalidOptionKey(key: string) | OptionsNotArray

  /** What the constructor is given: an array, or a scalar (`null`, the
      default, among them). */
  datatype OptionsArg = OptionArray(entries: seq<(string, Value)>) | Scalar(v: Value)

  /** `getOption`: the stored value, `null` for an unknown key. */
  function OptionValue(options: map<string, Value>, key: string): (r: Value)
    ensures key in options ==> r == options[key]
    ensures key !in options ==> r == VNull
  {
    if key in options then options[key] else VNull
  }

  /** `setOptions`: the entries applied in order; the first unknown key stops
      the loop with an error, after the earlier entries were written. */
  function ApplyOptions(options: map<string, Value>, entries: seq<(string, Value)>): (map<string, Value>, Option<UpdaterError>) {
    if entries == [] then (options, None)
    else if entries[0].0 in options then ApplyOptions(options[entries[0].0 := entries[0].1], entries[1..])
    else (options, Some(InvalidOptionKey(entries[0].0)))
  }

  /** Reference for the value an option ends with: the last entry for it. */
  function LastValue(entries: seq<(string, Value)>, key: string): Option<Value> {
    if entries == [] then None
    else match LastValue(entries[1..], key)
      case Some(v) => Some(v)
      case None => if entries[0].0 == key then Some(entries[0].1) else None
  }

  predicate AllKnown(options: map<string, Value>, entries: seq<(string, Value)>) {
    forall i :: 0 <= i < |entries| ==> entries[i].0 in options
  }

  /** The key set of the options never changes. */
  lemma {:induction false} ApplyOptionsKeepsKeys(options: map<string, Value>, entries: seq<(string, Value)>)
    ensures ApplyOptions(options, entries).0.Keys == options.Keys
  {
    if entries != [] && entries[0].0 in options {
      ApplyOptionsKeepsKeys(options[entries[0].0 := entries[0].1], entries[1..]);
    }
  }

  /** `setOptions` succeeds exactly when every key is known. */
  lemma {:induction false} ApplyOptionsSucceeds(options: map<string, Value>, entries: seq<(string, Value)>)
    ensures ApplyOptions(options, entries).1.None? <==> AllKnown(options, entries)
  {
    if entries != [] && entries[0].0 in options {
      var o := options[entries[0].0 := entries[0].1];
      ApplyOptionsSucceeds(o, entries[1..]);
      assert AllKnown(o, entries[1..]) <==> AllKnown(options, entries[1..]);
      assert AllKnown(options, entries) <==> AllKnown(options, entries[1..]) by {
        forall i | 0 <= i < |entries[1..]|
          ensures entries[1..][i] == entries[i + 1]
        {
        }
      }
    }
  }

  /** On success every known option holds the value of the last entry for it,
      or keeps its value when no entry names it. */
  lemma {:induction false} ApplyOptionsValues(options: map<string, Value>, entries: seq<(string, Value)>, key: string)
    requires AllKnown(options, entries)
    ensures OptionValue(ApplyOptions(options, entries).0, key) == LastValue(entries, key).GetOr(OptionValue(options, key))
  {
    if entries != [] {
      var o := options[entries[0].0 := entries[0].1];
      assert AllKnown(o, entries[1..]) by {
        forall i | 0 <= i < |entries[1..]|
          ensures entries[1..][i].0 in o
        {
          assert entries[1..][i] == entries[i + 1];
        }
      }
      ApplyOptionsValues(o, entries[1..], key);
    }
  }

  /** A failing `setOptions` leaves behind exactly the entries before the
      first unknown key. */
  lemma {:induction false} ApplyOptionsPartial(options: map<string, Value>, entries: seq<(string, Value)>, k: nat)
    requires k < |entries| && entries[k].0 !in options
    requires AllKnown(options, entries[..k])
    ensures ApplyOptions(options, entries)
         == (ApplyOptions(options, entries[..k]).0, Some(InvalidOptionKey(entries[k].0)))
  {
    if k > 0 {
      var o := options[entries[0].0 := entries[0].1];
      assert entries[..k][0] == entries[0];
      assert entries[0].0 in options;
      assert entries[1..][k - 1] == entries[k];
      assert entries[..k][1..] == entries[1..][..k - 1];
      assert AllKnown(o, entries[1..][..k - 1]) by {
        var tail := entries[1..][..k - 1];
        forall i | 0 <= i < |tail|
          ensures tail[i].0 in o
        {
          assert tail[i] == entries[..k][i + 1];
        }
      }
      ApplyOptionsPartial(o, entries[1..], k - 1);
    } else {
      assert entries[..0] == [];
    }
  }

  /** An updater. `options` holds the concrete updater's option keys. */
  class AbstractUpdater {
    var interval: int
    var updateMethod: string
    var options: map<string, Value>

    /** The object before the constructor body runs: the class defaults. */
    constructor Init(defaults: map<string, Value>, updateMethod: string)
      ensures interval == DEFAULT_INTERVAL && options == defaults && this.updateMethod == updateMethod
    {
      interval := DEFAULT_INTERVAL;
      options := defaults;
      this.updateMethod := updateMethod;
    }

    /** `setInterval`: stores the value cast to int. */
    method SetInterval(v: Value)
      modifies this
      ensures interval == IntValue(v)
      ensures options == old(options) && updateMethod == old(updateMethod)
    {
      interval := IntValue(v);
    }

    function GetInterval(): int
      reads this
    {
      interval
    }

    /** `setOption`: overwrites a known option; an unknown key is an error and
        changes nothing. */
    method SetOption(key: string, value: Value) returns (err: Option<UpdaterError>)
      modifies this
      ensures key in old(options) ==> err.None? && options == old(options)[key := value]
      ensures key !in old(options) ==> err == Some(InvalidOptionKey(key)) && options == old(options)
      ensures interval == old(interval) && updateMethod == old(updateMethod)
    {
      if key in options {
        options := options[key := value];
        err := None;
      } else {
        err := Some(InvalidOptionKey(key));
      }
    }

    /** `setOptions`: `setOption` for each entry in turn, stopping at the
        first error. */
    method SetOptions(entries: seq<(string, Value)>) returns (err: Option<UpdaterError>)
      modifies this
      ensures (options, err) == ApplyOptions(old(options), entries)
      ensures interval == old(interval) && updateMethod == old(updateMethod)
    {
      var i := 0;
      while i < |entries|
        invariant 0 <= i <= |entries|
        invariant ApplyOptions(options, entries[i..]) == ApplyOptions(old(options), entries)
        invariant interval == old(interval) && updateMethod == old(updateMethod)
      {
        assert entries[i..][1..] == entries[i + 1..];
        err := SetOption(entries[i].0, entries[i].1);
        if err.Some? {
          return;
        }
        i := i + 1;
      }
      err := None;
    }

    /** `getOption`. */
    function GetOption(key: string): Value
      reads this
    {
      OptionValue(options, key)
    }

    /** `getUpdateMethod`: the name the concrete updater reports itself by. */
    function GetUpdateMethod(): string
      reads this
    {
      updateMethod
    }
  }

  /** `new <Updater>($options)`: the class defaults; then a `null` argument
      keeps them, an array is applied with `setOptions`, anything else is an
      error. A constructor that throws hands out no object. */
  method NewUpdater(defaults: map<string, Value>, updateMethod: string, arg: OptionsArg)
    returns (r: Result<AbstractUpdater, UpdaterError>)
    ensures arg == Scalar(VNull) ==> r.Success? && r.value.options == defaults
    ensures arg.Scalar? && !arg.v.VNull? ==> r == Failure(OptionsNotArray)
    ensures arg.OptionArray? ==> match ApplyOptions(defaults, arg.entries)
                                 case (o, None) => r.Success? && r.value.options == o
                                 case (_, Some(e)) => r == Failure(e)
    ensures r.Success? ==> fresh(r.value) && r.value.interval == DEFAULT_INTERVAL
                           && r.value.updateMethod == updateMethod
  {
    var u := new AbstractUpdater.Init(defaults, updateMethod);
    match arg
    case Scalar(VNull) =>
      r := Success(u);
    case OptionArray(entries) =>
      var err := u.SetOptions(entries);
      if err.Some? {
        r := Failure(err.value);
      } else {
        r := Success(u);
      }
    case Scalar(_) =>
      r := Failure(OptionsNotArray);
  }
}
