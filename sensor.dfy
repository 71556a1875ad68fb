/**
 * Reading numbers out of ANT+ data messages: `pickNum` takes the first key
 * whose value is a finite number, and the three extractors apply it to the
 * key spellings the two sensor profiles use.
 */
module Sensor {
  import opened JsValues

  /** A field of a data message: a JavaScript number, or a value of any other type. */
  datatype Field = Number(n: JsNumber) | NotNumber

  /** A data message: `None` for null or undefined, otherwise its fields by name. */
  type Message = Option<map<string, Field>>

  const PowerKeys: seq<string> := ["instantaneousPower", "InstantaneousPower", "Power", "CalculatedPower"]
  const CadenceKeys: seq<string> := ["cadence", "Cadence", "CalculatedCadence"]
  const SpeedKeys: seq<string> := ["RealSpeed", "speed", "Speed"]

  /** `o?.[k]` when it is a number and `Number.isFinite` holds of it. */
  function FiniteAt(o: Message, k: string): Option<real> {
    if o.Some? && k in o.value && o.value[k].Number? && o.value[k].n.Finite?
    then Some(o.value[k].n.v)
    else None
  }

  /** The value at the first key of `keys` that holds a finite number. */
  function FirstFinite(o: Message, keys: seq<string>): Option<real> {
    if keys == [] then None
    else if FiniteAt(o, keys[0]).Some? then FiniteAt(o, keys[0])
    else FirstFinite(o, keys[1..])
  }

  /**
   * `FirstFinite` finds a value exactly when some key holds a finite number,
   * and the value it finds is at a key before which no key holds one.
   */
  lemma {:induction false} FirstFiniteIsFirst(o: Message, keys: seq<string>)
    ensures FirstFinite(o, keys).None? <==> forall i | 0 <= i < |keys| :: FiniteAt(o, keys[i]).None?
    ensures FirstFinite(o, keys).Some? ==>
              exists i | 0 <= i < |keys| ::
                && FiniteAt(o, keys[i]) == FirstFinite(o, keys)
                && forall j | 0 <= j < i :: FiniteAt(o, keys[j]).None?
  {
    if keys != [] {
      FirstFiniteIsFirst(o, keys[1..]);
      if FiniteAt(o, keys[0]).None? {
        assert forall i | 1 <= i < |keys| :: keys[i] == keys[1..][i - 1];
        if FirstFinite(o, keys).Some? {
          var i :| 0 <= i < |keys[1..]| && FiniteAt(o, keys[1..][i]) == FirstFinite(o, keys[1..])
                   && forall j | 0 <= j < i :: FiniteAt(o, keys[1..][j]).None?;
          assert FiniteAt(o, keys[i + 1]) == FirstFinite(o, keys);
          forall j | 0 <= j < i + 1 ensures FiniteAt(o, keys[j]).None? {
            if j > 0 {
              assert keys[j] == keys[1..][j - 1];
            }
          }
        }
      }
    }
  }

  /** `pickNum(o, keys)`: the loop returns at the first key with a finite number, and null after the last key. */
  method PickNum(o: Message, keys: seq<string>) returns (r: Option<real>)
    ensures r == FirstFinite(o, keys)
  {
    var i := 0;
    while i < |keys|
      invariant 0 <= i <= |keys|
      invariant FirstFinite(o, keys) == FirstFinite(o, keys[i..])
    {
      var v := FiniteAt(o, keys[i]);
      if v.Some? {
        return v;
      }
      assert keys[i..][1..] == keys[i + 1..];
      i := i + 1;
    }
    return None;
  }

  /** `extractPower(d)` */
  method ExtractPower(d: Message) returns (r: Option<real>)
    ensures r == FirstFinite(d, PowerKeys)
  {
    r := PickNum(d, PowerKeys);
  }

  /** `extractCadence(d)` */
  method ExtractCadence(d: Message) returns (r: Option<real>)
    ensures r == FirstFinite(d, CadenceKeys)
  {
    r := PickNum(d, CadenceKeys);
  }

  /** `extractSpeedKph(d)`: the first finite speed, converted from m/s to km/h. */
  method ExtractSpeedKph(d: Message) returns (r: Option<real>)
    ensures r.None? <==> FirstFinite(d, SpeedKeys).None?
    ensures r.Some? ==> r.value == FirstFinite(d, SpeedKeys).value * 3.6
  {
    var v := PickNum(d, SpeedKeys);
    r := if v.None? then None else Some(v.value * 3.6);
  }

  /**
   * A finite `instantaneousPower` wins over every other spelling; a NaN or
   * non-number there falls through to the later keys in order.
   */
  lemma PowerKeyPrecedence(m: map<string, Field>, p: real, q: real)
    ensures FirstFinite(Some(m["instantaneousPower" := Number(Finite(p))]), PowerKeys) == Some(p)
    ensures FirstFinite(Some(map["instantaneousPower" := Number(NaN), "Power" := Number(Finite(q))]), PowerKeys) == Some(q)
    ensures FirstFinite(None, PowerKeys) == None
  {
    var m2 := map["instantaneousPower" := Number(NaN), "Power" := Number(Finite(q))];
    assert PowerKeys[1..] == ["InstantaneousPower", "Power", "CalculatedPower"];
    assert PowerKeys[1..][1..] == ["Power", "CalculatedPower"];
    assert FiniteAt(Some(m2), "instantaneousPower") == None;
    assert "InstantaneousPower" !in m2;
    assert FiniteAt(Some(m2), "Power") == Some(q);
    assert FirstFinite(Some(m2), PowerKeys[1..][1..]) == Some(q);
    assert FirstFinite(None, PowerKeys[1..][1..][1..]) == None;
  }
}
