/** The `Features` aggregate function: it folds flat argument lists
    `k1, v1, k2, v2, ...` into an accumulator of key/value features. */
module FeaturesUdf {
  import opened Values

  /** One feature as the accumulator records it: a string key and its value. */
  datatype Feature = Feature(key: string, value: Value)

  datatype UdfError = OddNumberOfArgumentsException

  /** The `FeatureAccumulator` state: the features added so far, in order. */
  class FeatureAccumulator {
    var features: seq<Feature>

    constructor ()
      ensures features == []
    {
      features := [];
    }

    method Add(key: string, value: Value)
      modifies this
      ensures features == old(features) + [Feature(key, value)]
    {
      features := features + [Feature(key, value)];
    }
  }

  /** `createAccumulator`: a new accumulator holding no features. */
  method CreateAccumulator() returns (acc: FeatureAccumulator)
    ensures fresh(acc) && acc.features == []
  {
    acc := new FeatureAccumulator();
  }

  /** `getValue`: the accumulated features themselves, in the order they were added. */
  function GetValue(acc: FeatureAccumulator): (r: seq<Feature>)
    reads acc
    ensures |r| == |acc.features| && forall k :: 0 <= k < |r| ==> r[k] == acc.features[k]
  {
    acc.features
  }

  /** The features an even-length argument list stands for: the key of each pair
      is the string form of its first element, the value is the second, unchanged. */
  function Pairs(objects: seq<Value>): seq<Feature>
    requires |objects| % 2 == 0
  {
    if objects == [] then [] else [Feature(StringValueOf(objects[0]), objects[1])] + Pairs(objects[2..])
  }

  /** The flat argument list a feature sequence is written as. */
  function Flatten(features: seq<Feature>): (r: seq<Value>)
    ensures |r| == 2 * |features|
  {
    if features == [] then [] else [Str(features[0].key), features[0].value] + Flatten(features[1..])
  }

  lemma {:induction false} PairsAppend(a: seq<Value>, b: seq<Value>)
    requires |a| % 2 == 0 && |b| % 2 == 0
    ensures Pairs(a + b) == Pairs(a) + Pairs(b)
  {
    if a != [] {
      assert (a + b)[2..] == a[2..] + b;
      PairsAppend(a[2..], b);
    } else {
      assert a + b == b;
    }
  }

  /** With 2k arguments there are exactly k features; the i-th has key
      `String.valueOf(objects[2i])` and value `objects[2i+1]`. */
  lemma {:induction false} PairsAt(objects: seq<Value>, i: nat)
    requires |objects| % 2 == 0 && i < |objects| / 2
    ensures |Pairs(objects)| == |objects| / 2
    ensures Pairs(objects)[i] == Feature(StringValueOf(objects[2 * i]), objects[2 * i + 1])
  {
    if i == 0 {
      PairsLength(objects);
    } else {
      PairsAt(objects[2..], i - 1);
    }
  }

  lemma {:induction false} PairsLength(objects: seq<Value>)
    requires |objects| % 2 == 0
    ensures |Pairs(objects)| == |objects| / 2
  {
    if objects != [] {
      PairsLength(objects[2..]);
    }
  }

  /** Reading back a flattened feature sequence gives the same features. */
  lemma {:induction false} PairsOfFlatten(features: seq<Feature>)
    ensures Pairs(Flatten(features)) == features
  {
    if features != [] {
      var f := Flatten(features);
      assert f[2..] == Flatten(features[1..]);
      PairsOfFlatten(features[1..]);
    }
  }

  /** When every key argument is already a string, the features are the
      arguments regrouped: flattening them gives the arguments back. */
  lemma {:induction false} FlattenOfPairs(objects: seq<Value>)
    requires |objects| % 2 == 0
    requires forall k :: 0 <= k < |objects| && k % 2 == 0 ==> objects[k].Str?
    ensures Flatten(Pairs(objects)) == objects
  {
    if objects != [] {
      var rest := objects[2..];
      assert forall k :: 0 <= k < |rest| && k % 2 == 0 ==> rest[k] == objects[k + 2];
      FlattenOfPairs(rest);
      assert objects == [objects[0], objects[1]] + rest;
    }
  }

  /** `accumulate`: an odd number of arguments throws before anything is added;
      otherwise one `add` per pair, in argument order. */
  method Accumulate(acc: FeatureAccumulator, objects: seq<Value>) returns (r: Outcome<UdfError>)
    modifies acc
    ensures |objects| % 2 != 0 ==> r == Fail(OddNumberOfArgumentsException) && acc.features == old(acc.features)
    ensures |objects| % 2 == 0 ==> r == Pass && acc.features == old(acc.features) + Pairs(objects)
  {
    if |objects| % 2 != 0 {
      return Fail(OddNumberOfArgumentsException);
    }
    var elementIndex := 0;
    while elementIndex < |objects|
      invariant 0 <= elementIndex <= |objects| && elementIndex % 2 == 0
      invariant acc.features == old(acc.features) + Pairs(objects[..elementIndex])
    {
      acc.Add(StringValueOf(objects[elementIndex]), objects[elementIndex + 1]);
      var pair := objects[elementIndex..elementIndex + 2];
      assert Pairs(pair) == [Feature(StringValueOf(objects[elementIndex]), objects[elementIndex + 1])];
      assert objects[..elementIndex + 2] == objects[..elementIndex] + pair;
      PairsAppend(objects[..elementIndex], pair);
      elementIndex := elementIndex + 2;
    }
    assert objects[..elementIndex] == objects;
    r := Pass;
  }

  /** A fresh accumulator fed one argument list of even length reports exactly
      the pairs of that list, and one of odd length leaves it empty. */
  method AccumulateOnce(objects: seq<Value>) returns (r: Outcome<UdfError>, value: seq<Feature>)
    ensures r.Pass? <==> |objects| % 2 == 0
    ensures r.Pass? ==> |value| == |objects| / 2
    ensures r.Pass? ==> forall i :: 0 <= i < |value| ==> value[i] == Feature(StringValueOf(objects[2 * i]), objects[2 * i + 1])
    ensures r.Fail? ==> value == []
  {
    var acc := CreateAccumulator();
    r := Accumulate(acc, objects);
    value := GetValue(acc);
    if r.Pass? {
      PairsLength(objects);
      forall i | 0 <= i < |value|
        ensures value[i] == Feature(StringValueOf(objects[2 * i]), objects[2 * i + 1])
      {
        PairsAt(objects, i);
      }
    }
  }
}
