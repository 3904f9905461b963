/** The parts of Go's `strings` and `reflect` packages that the generator
    relies on, written over Dafny strings (sequences of Unicode scalar values,
    which order and compare like Go's UTF-8 bytes). */
module GoStrings {
  import opened Wrappers

  predicate HasPrefix(s: string, prefix: string) {
    |prefix| <= |s| && s[..|prefix|] == prefix
  }

  predicate HasSuffix(s: string, suffix: string) {
    |suffix| <= |s| && s[|s| - |suffix|..] == suffix
  }

  lemma PrefixOfAppend(a: string, b: string)
    ensures HasPrefix(a + b, a)
  {
    assert (a + b)[..|a|] == a;
  }

  lemma PrefixExtend(a: string, b: string, p: string)
    requires HasPrefix(a, p)
    ensures HasPrefix(a + b, p)
  {
    assert (a + b)[..|p|] == a[..|p|];
  }

  lemma SuffixOfAppend(a: string, b: string)
    ensures HasSuffix(a + b, b)
  {
    assert (a + b)[|a + b| - |b|..] == b;
  }

  /** strings.TrimSuffix: drops one copy of `suffix` from the end, if present. */
  function TrimSuffix(s: string, suffix: string): (r: string)
    ensures HasSuffix(s, suffix) ==> r + suffix == s
    ensures !HasSuffix(s, suffix) ==> r == s
  {
    if HasSuffix(s, suffix) then
      assert s == s[..|s| - |suffix|] + s[|s| - |suffix|..];
      s[..|s| - |suffix|]
    else s
  }

  lemma TrimSuffixOfAppended(s: string, suffix: string)
    ensures HasSuffix(s + suffix, suffix)
    ensures TrimSuffix(s + suffix, suffix) == s
  {
    var t := s + suffix;
    assert t[|t| - |suffix|..] == suffix;
    assert t[..|t| - |suffix|] == s;
  }

  /** strings.Join. */
  function Join(parts: seq<string>, sep: string): (r: string)
    decreases |parts|
  {
    if |parts| == 0 then ""
    else if |parts| == 1 then parts[0]
    else parts[0] + sep + Join(parts[1..], sep)
  }

  /** Joining one more element: the separator appears only between elements. */
  lemma {:induction false} JoinSnoc(parts: seq<string>, p: string, sep: string)
    ensures Join(parts + [p], sep) == if parts == [] then p else Join(parts, sep) + sep + p
    decreases |parts|
  {
    if |parts| == 0 {
      assert parts + [p] == [p];
    } else if |parts| == 1 {
      assert (parts + [p])[1..] == [p];
    } else {
      assert (parts + [p])[1..] == parts[1..] + [p];
      JoinSnoc(parts[1..], p, sep);
    }
  }

  function SumLengths(parts: seq<string>): nat {
    if parts == [] then 0 else |parts[0]| + SumLengths(parts[1..])
  }

  /** The joined string holds every element plus one separator between each pair. */
  lemma {:induction false} JoinLength(parts: seq<string>, sep: string)
    ensures |Join(parts, sep)| == SumLengths(parts) + (if parts == [] then 0 else (|parts| - 1) * |sep|)
    decreases |parts|
  {
    if |parts| > 1 {
      JoinLength(parts[1..], sep);
    }
  }

  /** The number of occurrences of `c` in `s`. */
  function Count(s: string, c: char): nat {
    if s == [] then 0 else (if s[0] == c then 1 else 0) + Count(s[1..], c)
  }

  lemma {:induction false} CountAppend(s: string, t: string, c: char)
    ensures Count(s + t, c) == Count(s, c) + Count(t, c)
    decreases |s|
  {
    if s == [] {
      assert s + t == t;
    } else {
      assert (s + t)[1..] == s[1..] + t;
      CountAppend(s[1..], t, c);
    }
  }

  lemma {:induction false} CountAbsent(s: string, c: char)
    requires c !in s
    ensures Count(s, c) == 0
    decreases |s|
  {
    if s != [] {
      assert c !in s[1..] by {
        forall k | 0 <= k < |s[1..]| ensures s[1..][k] != c {
          assert s[1..][k] == s[k + 1];
        }
      }
      CountAbsent(s[1..], c);
    }
  }

  /** The joined string holds `c` only where an element or a separator does. */
  lemma {:induction false} JoinCountAbsent(parts: seq<string>, sep: string, c: char)
    requires c !in sep
    requires forall k :: 0 <= k < |parts| ==> c !in parts[k]
    ensures c !in Join(parts, sep)
    decreases |parts|
  {
    if |parts| > 1 {
      JoinCountAbsent(parts[1..], sep, c);
    }
  }

  /** When no element holds `c`, the joined string holds it only in the
      separators between elements. */
  lemma {:induction false} JoinCount(parts: seq<string>, sep: string, c: char)
    requires parts != []
    requires forall k :: 0 <= k < |parts| ==> c !in parts[k]
    ensures Count(Join(parts, sep), c) == (|parts| - 1) * Count(sep, c)
    decreases |parts|
  {
    CountAbsent(parts[0], c);
    if |parts| > 1 {
      JoinCount(parts[1..], sep, c);
      CountAppend(parts[0] + sep, Join(parts[1..], sep), c);
      CountAppend(parts[0], sep, c);
    }
  }

  /** strings.Index(s, " "), for a string that holds a space. */
  function FirstSpace(s: string): (i: nat)
    requires ' ' in s
    ensures i < |s| && s[i] == ' ' && ' ' !in s[..i]
  {
    if s[0] == ' ' then 0
    else
      assert ' ' in s[1..] by {
        var k :| 0 <= k < |s| && s[k] == ' ';
        assert s[1..][k - 1] == ' ';
      }
      var j := FirstSpace(s[1..]);
      assert s[..j + 1] == [s[0]] + s[1..][..j];
      j + 1
  }

  lemma FirstSpaceAfter(a: string, b: string)
    requires ' ' !in a
    ensures ' ' in a + " " + b && FirstSpace(a + " " + b) == |a|
  {
    var s := a + " " + b;
    assert s[|a|] == ' ';
    var i := FirstSpace(s);
    forall k | 0 <= k < i ensures s[k] != ' ' {
      assert s[..i][k] == s[k];
    }
    forall k | 0 <= k < |a| ensures s[k] != ' ' {
      assert s[k] == a[k];
    }
  }

  /** unicode.IsSpace: the Unicode White_Space characters. */
  predicate IsSpace(c: char) {
    ('\t' <= c <= '\r') || c == ' ' || c == '\U{0085}' || c == '\U{00A0}' || c == '\U{1680}'
    || ('\U{2000}' <= c <= '\U{200A}') || c == '\U{2028}' || c == '\U{2029}' || c == '\U{202F}'
    || c == '\U{205F}' || c == '\U{3000}'
  }

  function TrimLeftSpace(s: string): (r: string)
    ensures |r| <= |s| && r == s[|s| - |r|..]
    ensures r == [] || !IsSpace(r[0])
    ensures forall k :: 0 <= k < |s| - |r| ==> IsSpace(s[k])
  {
    if s == [] || !IsSpace(s[0]) then s
    else
      var r := TrimLeftSpace(s[1..]);
      assert forall k :: 1 <= k < |s| - |r| ==> s[k] == s[1..][k - 1];
      r
  }

  function TrimRightSpace(s: string): (r: string)
    ensures |r| <= |s| && r == s[..|r|]
    ensures r == [] || !IsSpace(r[|r| - 1])
    ensures forall k :: |r| <= k < |s| ==> IsSpace(s[k])
  {
    if s == [] || !IsSpace(s[|s| - 1]) then s
    else TrimRightSpace(s[..|s| - 1])
  }

  /** strings.TrimSpace: strips leading and trailing white space. */
  function TrimSpace(s: string): (r: string)
    ensures |r| <= |s|
    ensures r == [] || (!IsSpace(r[0]) && !IsSpace(r[|r| - 1]))
  {
    TrimRightSpace(TrimLeftSpace(s))
  }

  /** Text that neither starts nor ends with white space is left as it is. */
  lemma TrimSpaceKeepsTrimmed(s: string)
    requires s == [] || (!IsSpace(s[0]) && !IsSpace(s[|s| - 1]))
    ensures TrimSpace(s) == s
  {
  }

  /** Trimming twice trims nothing more. */
  lemma TrimSpaceIdempotent(s: string)
    ensures TrimSpace(TrimSpace(s)) == TrimSpace(s)
  {
    TrimSpaceKeepsTrimmed(TrimSpace(s));
  }

  function TrimLeftChar(s: string, c: char): (r: string)
    ensures |r| <= |s| && r == s[|s| - |r|..]
    ensures r == [] || r[0] != c
    ensures forall k :: 0 <= k < |s| - |r| ==> s[k] == c
  {
    if s == [] || s[0] != c then s
    else
      var r := TrimLeftChar(s[1..], c);
      assert forall k :: 1 <= k < |s| - |r| ==> s[k] == s[1..][k - 1];
      r
  }

  function TrimRightChar(s: string, c: char): (r: string)
    ensures |r| <= |s| && r == s[..|r|]
    ensures r == [] || r[|r| - 1] != c
    ensures forall k :: |r| <= k < |s| ==> s[k] == c
  {
    if s == [] || s[|s| - 1] != c then s
    else TrimRightChar(s[..|s| - 1], c)
  }

  /** strings.Trim with a one-character cutset: strips every leading and trailing `c`. */
  function TrimChar(s: string, c: char): (r: string)
    ensures |r| <= |s|
    ensures r == [] || (r[0] != c && r[|r| - 1] != c)
  {
    TrimRightChar(TrimLeftChar(s, c), c)
  }

  /** Trimming a string wrapped in one `c` on each side gives back what was inside. */
  lemma TrimCharWrapped(c: char, inner: string)
    requires inner == [] || (inner[0] != c && inner[|inner| - 1] != c)
    ensures TrimChar([c] + inner + [c], c) == inner
  {
    var right := inner + [c];
    assert [c] + inner + [c] == [c] + right;
    TrimLeftOne(c, right);
    TrimRightOne(c, inner);
    if inner == [] {
      TrimLeftOne(c, []);
      assert right == [c] + [];
    }
  }

  /** One leading `c` is stripped like the rest. */
  lemma TrimLeftOne(c: char, s: string)
    ensures TrimLeftChar([c] + s, c) == TrimLeftChar(s, c)
  {
    assert ([c] + s)[1..] == s;
  }

  /** One trailing `c` is stripped like the rest. */
  lemma TrimRightOne(c: char, s: string)
    ensures TrimRightChar(s + [c], c) == TrimRightChar(s, c)
  {
    assert (s + [c])[..|s|] == s;
  }

  /** unicode.ToUpper restricted to ASCII: lower-case letters map to upper case, nothing else moves. */
  function ToUpperAscii(c: char): (u: char)
    ensures 'a' <= c <= 'z' ==> 'A' <= u <= 'Z' && u as int == c as int - 32
    ensures !('a' <= c <= 'z') ==> u == c
  {
    if 'a' <= c <= 'z' then (c as int - 32) as char else c
  }

  /** strings.Compare: -1, 0 or 1 by lexicographic order. */
  function Compare(a: string, b: string): (r: int)
    ensures r == 0 <==> a == b
    ensures -1 <= r <= 1
  {
    if a == [] && b == [] then 0
    else if a == [] then -1
    else if b == [] then 1
    else if a[0] < b[0] then -1
    else if a[0] > b[0] then 1
    else
      var r := Compare(a[1..], b[1..]);
      assert r == 0 ==> a == [a[0]] + a[1..] && b == [b[0]] + b[1..];
      r
  }

  /** Swapping the operands of strings.Compare negates its result. */
  lemma {:induction false} CompareAntisymmetric(a: string, b: string)
    ensures Compare(a, b) == -Compare(b, a)
    decreases |a|
  {
    if a != [] && b != [] && a[0] == b[0] {
      CompareAntisymmetric(a[1..], b[1..]);
    }
  }

  // ---------------------------------------------------------------------------
  // reflect.StructTag.Lookup: a tag is a space-separated list of key:"value"
  // pairs; Lookup returns the value of the first pair whose key matches.
  // ---------------------------------------------------------------------------

  function SkipSpaces(s: string): (r: string)
    ensures |r| <= |s| && r == s[|s| - |r|..]
    ensures r == [] || r[0] != ' '
  {
    if s != [] && s[0] == ' ' then SkipSpaces(s[1..]) else s
  }

  /** A character the tag syntax allows in a key. */
  predicate IsKeyChar(c: char) {
    c > ' ' && c != ':' && c != '"' && c != '\U{007F}'
  }

  /** The length of the longest prefix of `s` made of key characters. */
  function KeyLength(s: string): (n: nat)
    ensures n <= |s|
    ensures forall k :: 0 <= k < n ==> IsKeyChar(s[k])
    ensures n == |s| || !IsKeyChar(s[n])
  {
    if s != [] && IsKeyChar(s[0]) then
      var n := 1 + KeyLength(s[1..]);
      assert forall k :: 1 <= k < n ==> s[k] == s[1..][k - 1];
      n
    else 0
  }

  /** The index of the closing quote of a quoted string starting at s[0],
      skipping backslash-escaped characters; |s| or more when unterminated. */
  function QuoteEnd(s: string, i: nat): (j: nat)
    requires 1 <= i
    ensures i <= j
    ensures j < |s| ==> s[j] == '"'
    decreases |s| - i
  {
    if i >= |s| || s[i] == '"' then i
    else if s[i] == '\\' then QuoteEnd(s, i + 2)
    else QuoteEnd(s, i + 1)
  }

  /** strconv.Unquote of a double-quoted literal, for values without escapes:
      the characters between the quotes. */
  function UnquoteSimple(q: string): (r: Option<string>)
    requires 2 <= |q|
    ensures r.Some? ==> r.value == q[1..|q| - 1] && '\\' !in r.value && '\n' !in r.value
  {
    var inner := q[1..|q| - 1];
    if '\\' in inner || '\n' in inner then None else Some(inner)
  }

  /** One key:"value" pair at the start of a tag: the key, the quoted value
      with its quotes, and what follows it. */
  datatype TagPair = TagPair(key: string, quoted: string, rest: string)

  /** Reads the pair at the start of `t`, or None where Lookup's scan stops. */
  function NextPair(t: string): (p: Option<TagPair>)
    ensures p.Some? ==> 2 <= |p.value.quoted| && |p.value.rest| < |t|
  {
    var i := KeyLength(t);
    if i == 0 || i + 1 >= |t| || t[i] != ':' || t[i + 1] != '"' then None
    else
      var rest := t[i + 1..];
      var j := QuoteEnd(rest, 1);
      if j >= |rest| then None
      else Some(TagPair(t[..i], rest[..j + 1], rest[j + 1..]))
  }

  function Lookup(tag: string, key: string): (r: Option<string>)
    decreases |tag|
  {
    var t := SkipSpaces(tag);
    if t == [] then None
    else
      match NextPair(t)
      case None => None
      case Some(p) => if key == p.key then UnquoteSimple(p.quoted) else Lookup(p.rest, key)
  }

  /** The pair scanner reads back a well-formed key:"value" pair. */
  lemma NextPairOfPair(key: string, value: string, tail: string)
    requires key != [] && forall k :: 0 <= k < |key| ==> IsKeyChar(key[k])
    requires '"' !in value && '\\' !in value
    ensures NextPair(key + ":\"" + value + "\"" + tail) == Some(TagPair(key, "\"" + value + "\"", tail))
  {
    var quoted := "\"" + value + "\"";
    var rest := quoted + tail;
    var t := key + (":" + rest);
    assert key + ":\"" + value + "\"" + tail == t;
    KeyLengthOfKey(key, ":" + rest);
    assert t[..|key|] == key;
    assert t[|key|] == ':' && t[|key| + 1] == '"';
    assert t[|key| + 1..] == rest;
    PrefixOfAppend(quoted, tail);
    QuoteEndPlain(rest, value);
    assert rest[..|value| + 2] == quoted;
    assert rest[|value| + 2..] == tail;
    NextPairAt(t, |key|, |value| + 1);
  }

  /** NextPair at a key of length i followed by a quoted value closing at j. */
  lemma NextPairAt(t: string, i: nat, j: nat)
    requires KeyLength(t) == i && 0 < i && i + 1 < |t| && t[i] == ':' && t[i + 1] == '"'
    requires QuoteEnd(t[i + 1..], 1) == j && j < |t| - i - 1
    ensures NextPair(t) == Some(TagPair(t[..i], t[i + 1..][..j + 1], t[i + 1..][j + 1..]))
  {
  }

  /** A key with a plain quoted value is found again by Lookup. */
  lemma LookupSinglePair(key: string, value: string)
    requires key != [] && forall k :: 0 <= k < |key| ==> IsKeyChar(key[k])
    requires '"' !in value && '\\' !in value && '\n' !in value
    ensures Lookup(key + ":\"" + value + "\"", key) == Some(value)
  {
    var tag := key + ":\"" + value + "\"";
    assert tag == key + ":\"" + value + "\"" + "";
    assert tag[0] == key[0];
    assert SkipSpaces(tag) == tag;
    NextPairOfPair(key, value, "");
    var q := "\"" + value + "\"";
    assert q[1..|q| - 1] == value;
  }

  /** A pair whose key differs is skipped over. */
  lemma LookupSkipsPair(key: string, value: string, tail: string, other: string)
    requires key != [] && forall k :: 0 <= k < |key| ==> IsKeyChar(key[k])
    requires '"' !in value && '\\' !in value
    requires other != key
    ensures Lookup(key + ":\"" + value + "\"" + tail, other) == Lookup(tail, other)
  {
    var tag := key + ":\"" + value + "\"" + tail;
    assert tag[0] == key[0];
    assert SkipSpaces(tag) == tag;
    NextPairOfPair(key, value, tail);
  }

  lemma KeyLengthOfKey(key: string, tail: string)
    requires forall k :: 0 <= k < |key| ==> IsKeyChar(key[k])
    requires tail != [] && tail[0] == ':'
    ensures KeyLength(key + tail) == |key|
  {
    var t := key + tail;
    var n := KeyLength(t);
    assert t[|key|] == ':';
  }

  lemma QuoteEndPlain(s: string, value: string)
    requires HasPrefix(s, "\"" + value + "\"")
    requires '"' !in value && '\\' !in value
    ensures QuoteEnd(s, 1) == |value| + 1
  {
    forall i | 1 <= i <= |value| + 1 ensures QuoteEnd(s, i) == |value| + 1 {
      QuoteEndFrom(s, value, i);
    }
  }

  lemma QuoteEndFrom(s: string, value: string, i: nat)
    requires HasPrefix(s, "\"" + value + "\"")
    requires '"' !in value && '\\' !in value
    requires 1 <= i <= |value| + 1
    ensures QuoteEnd(s, i) == |value| + 1
    decreases |value| + 1 - i
  {
    assert s[..|value| + 2] == "\"" + value + "\"";
    assert s[|value| + 1] == '"';
    if i <= |value| {
      assert s[i] == value[i - 1];
      QuoteEndFrom(s, value, i + 1);
    }
  }
}
