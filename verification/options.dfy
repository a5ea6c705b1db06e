/**
 * `factoryOptions(opts, defaultOpts)` of ytsearch.js: the defaults are walked
 * in enumeration order and written into the caller's options object in
 * place. A missing key takes its default, a present key must have the
 * default's `typeof`, and a numeric option must not be negative. The first
 * violation stops the walk; the keys filled in before it stay filled in.
 */
module OptionDefaults {
  import opened Wrappers
  import opened JsValues

  datatype OptionError =
    | WrongType(key: string, expected: string, given: string)
    | Negative(key: string, value: int)

  /** The default options in enumeration order. */
  type Defaults = seq<(string, JsValue)>

  /** An object literal never repeats a key. */
  predicate DistinctKeys(defaults: Defaults) {
    forall i, j :: 0 <= i < j < |defaults| ==> defaults[i].0 != defaults[j].0
  }

  predicate IsDefaultKey(defaults: Defaults, k: string) {
    exists i :: 0 <= i < |defaults| && defaults[i].0 == k
  }

  /** The options object after the walk, and the error that stopped it, if any. */
  datatype Filled = Filled(props: map<string, JsValue>, error: Option<OptionError>)

  /** The value a default's key holds once the default has been applied. */
  function Effective(props: map<string, JsValue>, kd: (string, JsValue)): (v: JsValue) {
    if kd.0 in props then props[kd.0] else kd.1
  }

  /** The options after one default has been applied: a missing key takes the default. */
  function Apply(props: map<string, JsValue>, kd: (string, JsValue)): (p: map<string, JsValue>)
    ensures kd.0 in p && p[kd.0] == Effective(props, kd)
  {
    if kd.0 in props then props else props[kd.0 := kd.1]
  }

  /** Whether one default passes: the effective value has the default's type,
      and is not negative when that type is number. */
  predicate Acceptable(props: map<string, JsValue>, kd: (string, JsValue)) {
    var v := Effective(props, kd);
    TypeOf(v) == TypeOf(kd.1) && (TypeOf(kd.1) == "number" ==> v.n >= 0)
  }

  /** The walk of `factoryOptions` over `defaults` starting from `props`. */
  function Fill(props: map<string, JsValue>, defaults: Defaults): (r: Filled)
    ensures props.Keys <= r.props.Keys
    decreases |defaults|
  {
    if |defaults| == 0 then Filled(props, None)
    else
      var k := defaults[0].0;
      var d := defaults[0].1;
      if k in props && TypeOf(props[k]) != TypeOf(d) then
        Filled(props, Some(WrongType(k, TypeOf(d), TypeOf(props[k]))))
      else
        var p := Apply(props, defaults[0]);
        if TypeOf(d) == "number" && p[k].n < 0 then Filled(p, Some(Negative(k, p[k].n)))
        else Fill(p, defaults[1..])
  }

  /** The walk never changes a value the caller supplied, and adds only default keys. */
  lemma {:induction false} FillKeeps(props: map<string, JsValue>, defaults: Defaults)
    ensures forall k | k in props :: k in Fill(props, defaults).props && Fill(props, defaults).props[k] == props[k]
    ensures forall k | k in Fill(props, defaults).props :: k in props || IsDefaultKey(defaults, k)
    decreases |defaults|
  {
    if |defaults| > 0 {
      var k := defaults[0].0;
      var d := defaults[0].1;
      if !(k in props && TypeOf(props[k]) != TypeOf(d)) {
        var p := Apply(props, defaults[0]);
        if !(TypeOf(d) == "number" && p[k].n < 0) {
          FillKeeps(p, defaults[1..]);
          assert IsDefaultKey(defaults, k) by { assert defaults[0].0 == k; }
          forall k' | IsDefaultKey(defaults[1..], k') ensures IsDefaultKey(defaults, k') {
            var j :| 0 <= j < |defaults[1..]| && defaults[1..][j].0 == k';
            assert defaults[j + 1].0 == k';
          }
        } else {
          assert IsDefaultKey(defaults, k) by { assert defaults[0].0 == k; }
        }
      }
    }
  }

  /** After a successful walk every default key is present and acceptable. */
  lemma {:induction false} FillComplete(props: map<string, JsValue>, defaults: Defaults, i: nat)
    requires Fill(props, defaults).error.None? && i < |defaults|
    ensures defaults[i].0 in Fill(props, defaults).props
    ensures Acceptable(Fill(props, defaults).props, defaults[i])
    decreases |defaults|
  {
    var p := Apply(props, defaults[0]);
    assert Fill(props, defaults) == Fill(p, defaults[1..]);
    FillKeeps(p, defaults[1..]);
    if i > 0 {
      assert defaults[1..][i - 1] == defaults[i];
      FillComplete(p, defaults[1..], i - 1);
    }
  }

  /** The tail of a list of distinct keys is distinct and avoids the head's key. */
  lemma DistinctTail(defaults: Defaults)
    requires DistinctKeys(defaults) && |defaults| > 0
    ensures DistinctKeys(defaults[1..])
    ensures forall j | 0 <= j < |defaults[1..]| :: defaults[1..][j].0 != defaults[0].0
  {
    var rest := defaults[1..];
    forall a, b | 0 <= a < b < |rest| ensures rest[a].0 != rest[b].0 {
      assert rest[a] == defaults[a + 1] && rest[b] == defaults[b + 1];
    }
    forall j | 0 <= j < |rest| ensures rest[j].0 != defaults[0].0 {
      assert rest[j] == defaults[j + 1];
    }
  }

  /** Applying one default does not affect whether a default with another key passes. */
  lemma AcceptableOther(props: map<string, JsValue>, applied: (string, JsValue), kd: (string, JsValue))
    requires kd.0 != applied.0
    ensures Acceptable(Apply(props, applied), kd) == Acceptable(props, kd)
  {
    assert Effective(Apply(props, applied), kd) == Effective(props, kd);
  }

  /** Walking the defaults fails exactly when some default is not acceptable
      against the options as they were given. */
  lemma {:induction false} FillErrorIff(props: map<string, JsValue>, defaults: Defaults)
    requires DistinctKeys(defaults)
    ensures Fill(props, defaults).error.None? <==>
      forall i | 0 <= i < |defaults| :: Acceptable(props, defaults[i])
    decreases |defaults|
  {
    if |defaults| > 0 {
      assert defaults[0..] == defaults;
      if Acceptable(props, defaults[0]) {
        var rest := defaults[1..];
        var p := Apply(props, defaults[0]);
        FillNext(props, defaults, 0);
        DistinctTail(defaults);
        FillErrorIff(p, rest);
        forall j | 0 <= j < |rest| ensures Acceptable(p, rest[j]) == Acceptable(props, rest[j]) {
          AcceptableOther(props, defaults[0], rest[j]);
        }
        forall i | 0 < i < |defaults| ensures defaults[i] == rest[i - 1] { }
      } else {
        if defaults[0].0 in props && TypeOf(props[defaults[0].0]) != TypeOf(defaults[0].1) {
          FillStopType(props, defaults, 0);
        } else {
          FillStopNegative(props, defaults, 0);
        }
      }
    }
  }

  /** A key the caller left out takes its default value. */
  lemma {:induction false} FillMissing(props: map<string, JsValue>, defaults: Defaults, i: nat)
    requires DistinctKeys(defaults)
    requires i < |defaults| && defaults[i].0 !in props
    requires Fill(props, defaults).error.None?
    ensures defaults[i].0 in Fill(props, defaults).props
    ensures Fill(props, defaults).props[defaults[i].0] == defaults[i].1
    decreases |defaults|
  {
    var k := defaults[0].0;
    var d := defaults[0].1;
    var p := Apply(props, defaults[0]);
    var rest := defaults[1..];
    assert Fill(props, defaults) == Fill(p, rest);
    if i > 0 {
      assert DistinctKeys(rest) by {
        forall a, b | 0 <= a < b < |rest| ensures rest[a].0 != rest[b].0 {
          assert rest[a] == defaults[a + 1] && rest[b] == defaults[b + 1];
        }
      }
      assert rest[i - 1] == defaults[i];
      assert defaults[0].0 != defaults[i].0;
      FillMissing(p, rest, i - 1);
    } else {
      FillKeeps(p, rest);
    }
  }

  /** After a successful walk each default key holds its effective value:
      the caller's value if there was one, else the default. */
  lemma FillEffective(props: map<string, JsValue>, defaults: Defaults, i: nat)
    requires DistinctKeys(defaults) && i < |defaults| && Fill(props, defaults).error.None?
    ensures defaults[i].0 in Fill(props, defaults).props
    ensures Fill(props, defaults).props[defaults[i].0] == Effective(props, defaults[i])
  {
    if defaults[i].0 in props {
      FillKeeps(props, defaults);
    } else {
      FillMissing(props, defaults, i);
    }
  }

  /** Once the walk has succeeded, walking the same defaults again changes nothing. */
  lemma FillIdempotent(props: map<string, JsValue>, defaults: Defaults)
    requires DistinctKeys(defaults)
    requires Fill(props, defaults).error.None?
    ensures Fill(Fill(props, defaults).props, defaults) == Filled(Fill(props, defaults).props, None)
  {
    var q := Fill(props, defaults).props;
    forall i | 0 <= i < |defaults| ensures Acceptable(q, defaults[i]) {
      FillComplete(props, defaults, i);
    }
    FillErrorIff(q, defaults);
    var r := Fill(q, defaults);
    FillKeeps(q, defaults);
    forall k | k in r.props ensures k in q {
      if k !in q {
        var i :| 0 <= i < |defaults| && defaults[i].0 == k;
        FillComplete(props, defaults, i);
      }
    }
    assert r.props == q;
  }

  /** One default that passes moves the walk on to the next one. */
  lemma FillNext(props: map<string, JsValue>, defaults: Defaults, i: nat)
    requires i < |defaults| && Acceptable(props, defaults[i])
    ensures Fill(props, defaults[i..]) == Fill(Apply(props, defaults[i]), defaults[i + 1..])
  {
    assert defaults[i..][0] == defaults[i] && defaults[i..][1..] == defaults[i + 1..];
  }

  /** A supplied value of another type stops the walk with a type error. */
  lemma FillStopType(props: map<string, JsValue>, defaults: Defaults, i: nat)
    requires i < |defaults| && defaults[i].0 in props && TypeOf(props[defaults[i].0]) != TypeOf(defaults[i].1)
    ensures Fill(props, defaults[i..]) ==
      Filled(props, Some(WrongType(defaults[i].0, TypeOf(defaults[i].1), TypeOf(props[defaults[i].0]))))
  {
    assert defaults[i..][0] == defaults[i];
  }

  /** A negative effective number stops the walk after the default is applied. */
  lemma FillStopNegative(props: map<string, JsValue>, defaults: Defaults, i: nat)
    requires i < |defaults| && !(defaults[i].0 in props && TypeOf(props[defaults[i].0]) != TypeOf(defaults[i].1))
    requires TypeOf(defaults[i].1) == "number" && Apply(props, defaults[i])[defaults[i].0].n < 0
    ensures Fill(props, defaults[i..]) ==
      Filled(Apply(props, defaults[i]), Some(Negative(defaults[i].0, Apply(props, defaults[i])[defaults[i].0].n)))
  {
    assert defaults[i..][0] == defaults[i];
  }

  /** A JavaScript object the caller owns and `factoryOptions` writes into. */
  class Options {
    var props: map<string, JsValue>

    constructor(props: map<string, JsValue>)
      ensures this.props == props
    {
      this.props := props;
    }

    /** `factoryOptions(this, defaults)`: the new properties and the error are
        those of the walk `Fill`. */
    method FactoryOptions(defaults: Defaults) returns (error: Option<OptionError>)
      modifies this
      ensures Filled(props, error) == Fill(old(props), defaults)
    {
      var i := 0;
      while i < |defaults|
        invariant 0 <= i <= |defaults|
        invariant Fill(props, defaults[i..]) == Fill(old(props), defaults)
      {
        var k := defaults[i].0;
        var d := defaults[i].1;
        ghost var before := props;
        if k !in props {
          props := props[k := d];
        } else if TypeOf(props[k]) != TypeOf(d) {
          FillStopType(before, defaults, i);
          return Some(WrongType(k, TypeOf(d), TypeOf(props[k])));
        }
        assert props == Apply(before, defaults[i]);
        if TypeOf(d) == "number" && props[k].n < 0 {
          FillStopNegative(before, defaults, i);
          return Some(Negative(k, props[k].n));
        }
        FillNext(before, defaults, i);
        i := i + 1;
      }
      return None;
    }
  }
}
