/** The result formatters. Both rebuild the record the parser hands them with
    every key lower-cased: PhpGetBrowserArray into an ordered array, PhpGetBrowser
    into the properties of a fresh object. A PHP array and the property table
    of an object are both ordered dictionaries: assigning to a present key
    overwrites the value where it stands, a new key is appended. */
module Formatters {
  import opened Common
  import opened PhpStrings

  /** An ordered dictionary (a PHP array with string keys, or the property
      table of an object), as its list of entries. */
  type Entries = seq<(string, Value)>

  predicate HasKey(e: Entries, k: string) {
    exists i :: 0 <= i < |e| && e[i].0 == k
  }

  /** No key occurs twice, as in every PHP array. */
  predicate UniqueKeys(e: Entries) {
    forall i, j :: 0 <= i < j < |e| ==> e[i].0 != e[j].0
  }

  /** The position of the first entry with key `k`. */
  function IndexOfKey(e: Entries, k: string): (r: Option<nat>)
    ensures r.None? <==> !HasKey(e, k)
    ensures r.Some? ==> r.value < |e| && e[r.value].0 == k && forall i :: 0 <= i < r.value ==> e[i].0 != k
  {
    if e == [] then None
    else if e[0].0 == k then Some(0)
    else
      match IndexOfKey(e[1..], k)
      case None =>
        assert forall i :: 1 <= i < |e| ==> e[i] == e[1..][i - 1];
        None
      case Some(i) => Some(i + 1)
  }

  /** `$a[$k]`, `null` when the key is absent. */
  function Find(e: Entries, k: string): (r: Option<Value>)
    ensures r.None? <==> !HasKey(e, k)
    ensures r.Some? ==> exists i :: 0 <= i < |e| && e[i] == (k, r.value)
  {
    match IndexOfKey(e, k)
    case None => None
    case Some(i) => Some(e[i].1)
  }

  /** `$a[$k] = $v`: overwrite in place, or append a new entry. */
  function Put(e: Entries, k: string, v: Value): Entries {
    match IndexOfKey(e, k)
    case None => e + [(k, v)]
    case Some(i) => e[i := (k, v)]
  }

  /** Assignment keeps every key at its place and appends a new key at the end. */
  lemma PutKeys(e: Entries, k: string, v: Value)
    ensures var r := Put(e, k, v);
            && |r| == (if HasKey(e, k) then |e| else |e| + 1)
            && (forall i :: 0 <= i < |e| ==> r[i].0 == e[i].0)
            && (!HasKey(e, k) ==> r[|e|] == (k, v))
  {
  }

  /** After the assignment the key holds the new value; no other key changes. */
  lemma PutFind(e: Entries, k: string, v: Value, k': string)
    ensures Find(Put(e, k, v), k') == if k' == k then Some(v) else Find(e, k')
  {
    var r := Put(e, k, v);
    PutKeys(e, k, v);
    if k' != k {
      var a := IndexOfKey(r, k');
      var b := IndexOfKey(e, k');
      assert forall i :: 0 <= i < |e| ==> (r[i].0 == k' <==> e[i].0 == k');
      assert |r| > |e| ==> r[|e|].0 != k';
      assert a.Some? ==> a.value < |e|;
      assert b.Some? ==> a.Some? && a.value <= b.value;
      assert a == b;
    } else {
      assert IndexOfKey(r, k) == IndexOfKey(e, k) || !HasKey(e, k);
    }
  }

  /** Writing into a dictionary without repeated keys keeps it without. */
  lemma PutKeepsUniqueKeys(e: Entries, k: string, v: Value)
    requires UniqueKeys(e)
    ensures UniqueKeys(Put(e, k, v))
  {
    PutKeys(e, k, v);
  }

  // ---------------------------------------------------------------- the rebuild

  /** The entries `setData` builds from `input`: for each entry in turn,
      `$settings[strtolower($key)] = $value`. */
  function LowerKeys(input: Entries): Entries {
    if input == [] then []
    else
      var last := input[|input| - 1];
      Put(LowerKeys(input[..|input| - 1]), ToLower(last.0), last.1)
  }

  /** Some input key lower-cases to `k`. */
  predicate LowersTo(input: Entries, k: string) {
    exists i :: 0 <= i < |input| && ToLower(input[i].0) == k
  }

  /** Reference definition of the collision rule: the value of the LAST input
      entry whose key lower-cases to `k`. */
  function LastWith(input: Entries, k: string): Option<Value> {
    if input == [] then None
    else if ToLower(input[|input| - 1].0) == k then Some(input[|input| - 1].1)
    else LastWith(input[..|input| - 1], k)
  }

  /** The position of the first input entry whose key lower-cases to `k`. */
  function FirstLowered(input: Entries, k: string): (r: nat)
    requires LowersTo(input, k)
    ensures r < |input| && ToLower(input[r].0) == k
    ensures forall i :: 0 <= i < r ==> ToLower(input[i].0) != k
  {
    if ToLower(input[0].0) == k then 0
    else
      assert LowersTo(input[1..], k) by {
        var i :| 0 <= i < |input| && ToLower(input[i].0) == k;
        assert input[1..][i - 1] == input[i];
      }
      var r := 1 + FirstLowered(input[1..], k);
      assert forall i :: 1 <= i < r ==> input[i] == input[1..][i - 1];
      r
  }

  lemma FirstLoweredOfPrefix(input: Entries, k: string, n: nat)
    requires n <= |input| && LowersTo(input[..n], k)
    ensures LowersTo(input, k) && FirstLowered(input, k) == FirstLowered(input[..n], k)
  {
    var f := FirstLowered(input[..n], k);
    assert input[..n][f] == input[f];
    var g := FirstLowered(input, k);
    assert g < n ==> input[..n][g] == input[g];
  }

  /** Lower-cased keys are lower case. */
  lemma LowerKeyIsLower(input: Entries, k: string)
    requires LowersTo(input, k)
    ensures IsLower(k) && ToLower(k) == k
  {
    var i :| 0 <= i < |input| && ToLower(input[i].0) == k;
    ToLowerIsLower(input[i].0);
    ToLowerIdempotent(input[i].0);
  }

  /** The stored keys are exactly the lower-cased input keys, each once. */
  lemma {:induction false} LowerKeysKeys(input: Entries)
    ensures UniqueKeys(LowerKeys(input))
    ensures forall k :: HasKey(LowerKeys(input), k) <==> LowersTo(input, k)
  {
    if input != [] {
      var init := input[..|input| - 1];
      var last := input[|input| - 1];
      var c := ToLower(last.0);
      LowerKeysKeys(init);
      PutKeepsUniqueKeys(LowerKeys(init), c, last.1);
      PutKeys(LowerKeys(init), c, last.1);
      forall k
        ensures HasKey(LowerKeys(input), k) <==> LowersTo(input, k)
      {
        LowersToSnoc(input, k);
      }
    }
  }

  lemma LowersToSnoc(input: Entries, k: string)
    requires input != []
    ensures LowersTo(input, k) <==> (LowersTo(input[..|input| - 1], k) || ToLower(input[|input| - 1].0) == k)
  {
    var init := input[..|input| - 1];
    if LowersTo(input, k) {
      var i :| 0 <= i < |input| && ToLower(input[i].0) == k;
      if i < |init| {
        assert init[i] == input[i];
      }
    }
    if LowersTo(init, k) {
      var i :| 0 <= i < |init| && ToLower(init[i].0) == k;
      assert input[i] == init[i];
    }
  }

  /** Every stored key is lower case. */
  lemma LowerKeysAreLower(input: Entries, k: string)
    requires HasKey(LowerKeys(input), k)
    ensures IsLower(k) && ToLower(k) == k
  {
    LowerKeysKeys(input);
    LowerKeyIsLower(input, k);
  }

  /** On keys that collide once lower-cased the last input entry wins. */
  lemma {:induction false} LowerKeysLastWins(input: Entries, k: string)
    ensures Find(LowerKeys(input), k) == LastWith(input, k)
  {
    if input != [] {
      var last := input[|input| - 1];
      LowerKeysLastWins(input[..|input| - 1], k);
      PutFind(LowerKeys(input[..|input| - 1]), ToLower(last.0), last.1, k);
    }
  }

  /** The position of the last input entry whose key lower-cases to `k`. */
  function LastLowered(input: Entries, k: string): (r: nat)
    requires LowersTo(input, k)
    ensures r < |input| && ToLower(input[r].0) == k
    ensures forall j :: r < j < |input| ==> ToLower(input[j].0) != k
  {
    var n := |input| - 1;
    if ToLower(input[n].0) == k then n
    else
      LowersToSnoc(input, k);
      var r := LastLowered(input[..n], k);
      assert input[r] == input[..n][r];
      r
  }

  /** The reference value is that of the last input entry with a matching
      key, and there is one exactly when some key matches. */
  lemma {:induction false} LastWithIsLast(input: Entries, k: string)
    ensures LastWith(input, k).None? <==> !LowersTo(input, k)
    ensures LowersTo(input, k) ==> LastWith(input, k) == Some(input[LastLowered(input, k)].1)
  {
    if input != [] {
      var n := |input| - 1;
      LowersToSnoc(input, k);
      LastWithIsLast(input[..n], k);
      if ToLower(input[n].0) != k && LowersTo(input[..n], k) {
        assert input[LastLowered(input[..n], k)] == input[..n][LastLowered(input[..n], k)];
      }
    }
  }

  /** The stored keys are ordered by the first input entry that produced
      them: a key keeps the place of its first write even when a later,
      colliding entry overwrites its value. */
  lemma {:induction false} LowerKeysOrder(input: Entries, a: nat, b: nat)
    requires a < b < |LowerKeys(input)|
    ensures LowersTo(input, LowerKeys(input)[a].0) && LowersTo(input, LowerKeys(input)[b].0)
    ensures FirstLowered(input, LowerKeys(input)[a].0) < FirstLowered(input, LowerKeys(input)[b].0)
  {
    var r := LowerKeys(input);
    LowerKeysKeys(input);
    assert HasKey(r, r[a].0) && HasKey(r, r[b].0);
    var n := |input| - 1;
    var init := input[..n];
    var last := input[n];
    var c := ToLower(last.0);
    var r0 := LowerKeys(init);
    LowerKeysKeys(init);
    PutKeys(r0, c, last.1);
    assert r[a].0 == r0[a].0 && HasKey(r0, r0[a].0);
    FirstLoweredOfPrefix(input, r[a].0, n);
    if b < |r0| {
      assert r[b].0 == r0[b].0 && HasKey(r0, r0[b].0);
      LowerKeysOrder(init, a, b);
      FirstLoweredOfPrefix(input, r[b].0, n);
    } else {
      assert !HasKey(r0, c) && r[b].0 == c;
      assert !LowersTo(init, c);
      assert forall i :: 0 <= i < n ==> ToLower(input[i].0) != c by {
        forall i | 0 <= i < n
          ensures ToLower(input[i].0) != c
        {
          assert input[i] == init[i];
        }
      }
    }
  }

  // ---------------------------------------------------------------- the array formatter

  /** Formats the result as an associative array. */
  class PhpGetBrowserArray {
    var settings: Entries

    constructor()
      ensures settings == []
    {
      settings := [];
    }

    /** Discards the previous settings and stores `input` with lower-cased keys. */
    method SetData(input: Entries)
      modifies this
      ensures settings == LowerKeys(input)
    {
      settings := [];
      var i := 0;
      while i < |input|
        invariant 0 <= i <= |input|
        invariant settings == LowerKeys(input[..i])
      {
        var key := ToLower(input[i].0);
        assert input[..i + 1][..i] == input[..i];
        settings := Put(settings, key, input[i].1);
        i := i + 1;
      }
      assert input[..i] == input;
    }

    /** The array the last `SetData` built; what it holds (the input with
        lower-cased keys) is stated by `SetData`'s contract. */
    function GetData(): (r: Entries)
      reads this
      ensures r == settings
    {
      settings
    }
  }

  // ---------------------------------------------------------------- the object formatter

  /** A PHP `stdClass` object: a table of dynamic properties. */
  class StdClass {
    var props: Entries

    constructor()
      ensures props == []
    {
      props := [];
    }

    /** `$object->$name = $value`. */
    method SetProperty(name: string, value: Value)
      modifies this
      ensures props == Put(old(props), name, value)
    {
      props := Put(props, name, value);
    }
  }

  /** Formats the result as an object, like PHP's own `get_browser()`. */
  class PhpGetBrowser {
    var settings: StdClass

    constructor()
      ensures fresh(settings) && settings.props == []
    {
      settings := new StdClass();
    }

    /** Replaces the settings object with a fresh one holding `input` with
        lower-cased property names; an object handed out earlier keeps its
        properties. */
    method SetData(input: Entries)
      modifies this
      ensures fresh(settings)
      ensures settings.props == LowerKeys(input)
      ensures old(settings).props == old(settings.props)
    {
      var built := new StdClass();
      var i := 0;
      while i < |input|
        invariant 0 <= i <= |input|
        invariant built.props == LowerKeys(input[..i])
        invariant built != settings
      {
        var key := ToLower(input[i].0);
        assert input[..i + 1][..i] == input[..i];
        built.SetProperty(key, input[i].1);
        i := i + 1;
      }
      assert input[..i] == input;
      settings := built;
    }

    /** The object the last `SetData` built; what it holds (the input with
        lower-cased property names) is stated by `SetData`'s contract. */
    function GetData(): (r: StdClass)
      reads this
      ensures r == settings
    {
      settings
    }
  }

  /** A formatter instance, either kind. */
  datatype FormatterRef = ObjectFormatter(obj: PhpGetBrowser) | ArrayFormatter(arr: PhpGetBrowserArray)

  /** The formatter a parser fills, whatever its kind. */
  method SetFormatterData(f: FormatterRef, input: Entries)
    modifies if f.ObjectFormatter? then {f.obj} else {f.arr}
    ensures f.ObjectFormatter? ==> fresh(f.obj.settings) && f.obj.settings.props == LowerKeys(input)
    ensures f.ArrayFormatter? ==> f.arr.settings == LowerKeys(input)
  {
    match f
    case ObjectFormatter(o) => o.SetData(input);
    case ArrayFormatter(a) => a.SetData(input);
  }
}
