/** go_generator/utils.go: the values of a map and the flattening of a
    slice of slices. Its Map is the same loop as utils.Map (module Utils). */
module GeneratorUtils {

  /** `keys` lists each key of `m` exactly once. */
  ghost predicate EnumeratesKeys<K, V>(keys: seq<K>, m: map<K, V>) {
    && |keys| == |m|
    && m.Keys == (set i | 0 <= i < |keys| :: keys[i])
    && (forall i, j :: 0 <= i < j < |keys| ==> keys[i] != keys[j])
  }

  /** MapItems: the values of the map in the (unspecified) order in which
      ranging over it visits the keys; `keys` is that order. */
  method MapItems<K, V>(mapObj: map<K, V>) returns (values: seq<V>, ghost keys: seq<K>)
    ensures EnumeratesKeys(keys, mapObj)
    ensures |values| == |mapObj|
    ensures forall i :: 0 <= i < |values| ==> keys[i] in mapObj && values[i] == mapObj[keys[i]]
    ensures forall k :: k in mapObj ==> mapObj[k] in values
  {
    values := [];
    keys := [];
    var rest := mapObj;
    while rest != map[]
      invariant |keys| == |values| && |keys| + |rest| == |mapObj|
      invariant forall k :: k in rest ==> k in mapObj && rest[k] == mapObj[k]
      invariant forall k :: k in mapObj ==> (k in rest <==> k !in keys)
      invariant forall i, j :: 0 <= i < j < |keys| ==> keys[i] != keys[j]
      invariant forall i :: 0 <= i < |keys| ==> keys[i] in mapObj && values[i] == mapObj[keys[i]]
      decreases |rest|
    {
      var k :| k in rest;
      values := values + [rest[k]];
      keys := keys + [k];
      rest := rest - {k};
    }
    assert mapObj.Keys == (set i | 0 <= i < |keys| :: keys[i]) by {
      forall k | k in mapObj ensures exists i :: 0 <= i < |keys| && keys[i] == k {
        assert k in keys;
      }
    }
    forall k | k in mapObj ensures mapObj[k] in values {
      var i :| 0 <= i < |keys| && keys[i] == k;
      assert values[i] == mapObj[k];
    }
  }

  /** The rows of a matrix, one after the other. */
  function Concat<T>(matrix: seq<seq<T>>): seq<T>
    decreases |matrix|
  {
    if matrix == [] then [] else Concat(matrix[..|matrix| - 1]) + matrix[|matrix| - 1]
  }

  function TotalLength<T>(matrix: seq<seq<T>>): nat
    decreases |matrix|
  {
    if matrix == [] then 0 else TotalLength(matrix[..|matrix| - 1]) + |matrix[|matrix| - 1]|
  }

  /** Flatten: each row appended in turn. */
  method Flatten<T>(matrix: seq<seq<T>>) returns (values: seq<T>)
    ensures values == Concat(matrix)
  {
    values := [];
    for i := 0 to |matrix|
      invariant values == Concat(matrix[..i])
    {
      assert matrix[..i + 1][..i] == matrix[..i];
      values := values + matrix[i];
    }
    assert matrix[..|matrix|] == matrix;
  }

  /** Flattening two matrices one after the other is concatenating their flattenings. */
  lemma {:induction false} ConcatAppend<T>(a: seq<seq<T>>, b: seq<seq<T>>)
    ensures Concat(a + b) == Concat(a) + Concat(b)
    decreases |b|
  {
    if b == [] {
      assert a + b == a;
    } else {
      var b' := b[..|b| - 1];
      assert (a + b)[..|a + b| - 1] == a + b';
      assert (a + b)[|a + b| - 1] == b[|b| - 1];
      ConcatAppend(a, b');
    }
  }

  /** The flattened length is the sum of the row lengths. */
  lemma {:induction false} ConcatLength<T>(matrix: seq<seq<T>>)
    ensures |Concat(matrix)| == TotalLength(matrix)
    decreases |matrix|
  {
    if matrix != [] {
      ConcatLength(matrix[..|matrix| - 1]);
    }
  }

  /** Every element of the flattening comes from some row, and every row's
      elements are in it. */
  lemma {:induction false} ConcatMembers<T>(matrix: seq<seq<T>>, x: T)
    ensures x in Concat(matrix) <==> exists i :: 0 <= i < |matrix| && x in matrix[i]
    decreases |matrix|
  {
    if matrix != [] {
      var init := matrix[..|matrix| - 1];
      ConcatMembers(init, x);
      assert forall i :: 0 <= i < |init| ==> init[i] == matrix[i];
      if x in matrix[|matrix| - 1] {
        assert x in Concat(matrix);
      }
    }
  }
}
