/**
 * The override order every resolver follows, as one reference definition:
 * a list of layers, highest precedence first, and the first one that is set wins.
 */
module Precedence {
  import opened Wrappers

  /** None of the first `k` layers is set. */
  ghost predicate NoneBefore<T>(layers: seq<Option<T>>, k: int)
    requires 0 <= k <= |layers|
  {
    forall j :: 0 <= j < k ==> layers[j].None?
  }

  /** The first layer that is set, or `None` when no layer is. */
  function FirstSet<T>(layers: seq<Option<T>>): (r: Option<T>)
    ensures r.None? <==> NoneBefore(layers, |layers|)
    ensures forall i :: 0 <= i < |layers| && layers[i].Some? && NoneBefore(layers, i) ==> r == layers[i]
  {
    if |layers| == 0 then None
    else if layers[0].Some? then layers[0]
    else FirstSet(layers[1..])
  }

  /** A Go slice or string that counts as set exactly when it is non-empty. */
  function NonEmpty<T>(s: seq<T>): (r: Option<seq<T>>)
    ensures r.Some? <==> |s| > 0
    ensures r.Some? ==> r.value == s
  {
    if |s| > 0 then Some(s) else None
  }

  /** Unset layers in front of the others change nothing. */
  lemma {:induction false} FirstSetSkipsUnset<T>(prefix: seq<Option<T>>, rest: seq<Option<T>>)
    requires NoneBefore(prefix, |prefix|)
    ensures FirstSet(prefix + rest) == FirstSet(rest)
  {
    if |prefix| > 0 {
      assert (prefix + rest)[1..] == prefix[1..] + rest;
      FirstSetSkipsUnset(prefix[1..], rest);
    } else {
      assert prefix + rest == rest;
    }
  }

  /** Once a layer is set, nothing below it matters. */
  lemma {:induction false} FirstSetIgnoresLower<T>(upper: seq<Option<T>>, lower: seq<Option<T>>, lower': seq<Option<T>>)
    requires !NoneBefore(upper, |upper|)
    ensures FirstSet(upper + lower) == FirstSet(upper + lower') == FirstSet(upper)
  {
    if upper[0].None? {
      assert (upper + lower)[1..] == upper[1..] + lower;
      assert (upper + lower')[1..] == upper[1..] + lower';
      FirstSetIgnoresLower(upper[1..], lower, lower');
    }
  }

  /** With two layers, a set upper layer decides, whatever the lower one is. */
  lemma UpperOfTwoDecides<T>(upper: Option<T>, lower: Option<T>, lower': Option<T>)
    requires upper.Some?
    ensures FirstSet([upper, lower]) == FirstSet([upper, lower']) == upper
  {
    assert [upper][0].Some?;
    assert [upper] + [lower] == [upper, lower];
    assert [upper] + [lower'] == [upper, lower'];
    FirstSetIgnoresLower([upper], [lower], [lower']);
  }
}
