/** utils/utils.go: mapping over a sequence, and capitalising a name. */
module Utils {
  import opened Wrappers
  import opened GoStrings

  /** Map: f applied to each element, in order. */
  method Map<T1, T2>(arr: seq<T1>, f: T1 -> T2) returns (values: seq<T2>)
    ensures |values| == |arr|
    ensures forall i :: 0 <= i < |arr| ==> values[i] == f(arr[i])
  {
    values := [];
    var i := 0;
    while i < |arr|
      invariant 0 <= i <= |arr| && |values| == i
      invariant forall k :: 0 <= k < i ==> values[k] == f(arr[k])
    {
      values := values + [f(arr[i])];
      i := i + 1;
    }
  }

  /** Capitalize: the first character upper-cased, the rest kept. Indexing
      the first byte of an empty string panics, which is None here. */
  function Capitalize(str: string): (r: Option<string>)
    ensures r.None? <==> str == []
    ensures r.Some? ==> |r.value| == |str| && r.value[1..] == str[1..]
    ensures r.Some? ==> r.value[0] == ToUpperAscii(str[0])
  {
    if str == [] then None else Some([ToUpperAscii(str[0])] + str[1..])
  }

  /** Capitalising twice is capitalising once. */
  lemma CapitalizeIdempotent(str: string)
    requires str != []
    ensures Capitalize(Capitalize(str).value) == Capitalize(str)
  {
    var c := Capitalize(str).value;
    assert ToUpperAscii(ToUpperAscii(str[0])) == ToUpperAscii(str[0]);
    assert c == [c[0]] + c[1..];
  }
}
