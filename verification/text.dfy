/**
 * Character classes and the string primitives the pipeline leans on:
 * Python's `str.strip()`, `str.split(sep)` and `sep.join(parts)`.
 */
module Text {

  import opened Wrappers

  /** Python's `str.isspace()`, which is also what `\s` and `str.strip()` use. */
  predicate IsSpace(c: char) {
    || c == ' ' || ('\t' <= c <= '\r')                  // \t \n \v \f \r
    || ('\U{001C}' <= c <= '\U{001F}')
    || c == '\U{0085}' || c == '\U{00A0}' || c == '\U{1680}'
    || ('\U{2000}' <= c <= '\U{200A}')
    || c == '\U{2028}' || c == '\U{2029}' || c == '\U{202F}' || c == '\U{205F}' || c == '\U{3000}'
  }

  predicate IsDigit(c: char) { '0' <= c <= '9' }

  predicate IsLetter(c: char) { 'a' <= c <= 'z' || 'A' <= c <= 'Z' }

  /** `\w`, restricted to ASCII. */
  predicate IsWordChar(c: char) { IsLetter(c) || IsDigit(c) || c == '_' }

  /** `[a-zA-Z\s]`: the characters of an item name or a variant. */
  predicate IsNameChar(c: char) { IsLetter(c) || IsSpace(c) }

  /** `[0-9.]`: the characters of a price. */
  predicate IsPriceChar(c: char) { IsDigit(c) || c == '.' }

  predicate AllSpace(s: string) { forall i :: 0 <= i < |s| ==> IsSpace(s[i]) }

  function TrimLeft(s: string): string {
    if |s| > 0 && IsSpace(s[0]) then TrimLeft(s[1..]) else s
  }

  function TrimRight(s: string): string {
    if |s| > 0 && IsSpace(s[|s| - 1]) then TrimRight(s[..|s| - 1]) else s
  }

  /** `s.strip()` */
  function Strip(s: string): string {
    TrimRight(TrimLeft(s))
  }

  /** `s.index(c)` as an Option: the first position of `c`. */
  function Find(s: string, c: char): (r: Option<nat>)
    ensures r.Some? ==> r.value < |s| && s[r.value] == c && c !in s[..r.value]
    ensures r.None? ==> c !in s
  {
    if |s| == 0 then None
    else if s[0] == c then Some(0)
    else match Find(s[1..], c)
      case None => None
      case Some(i) => Some(i + 1)
  }

  /** `s.split(c)`: the pieces between the occurrences of `c`; never empty. */
  function SplitOn(s: string, c: char): (parts: seq<string>)
    ensures |parts| >= 1
  {
    if |s| == 0 then [""]
    else
      var rest := SplitOn(s[1..], c);
      if s[0] == c then [""] + rest else [[s[0]] + rest[0]] + rest[1..]
  }

  /** `sep.join(parts)` */
  function Join(parts: seq<string>, sep: string): string {
    if |parts| == 0 then ""
    else if |parts| == 1 then parts[0]
    else parts[0] + sep + Join(parts[1..], sep)
  }

  /** `[x] * n` */
  function Repeat<T>(x: T, n: nat): (r: seq<T>)
    ensures |r| == n && forall i :: 0 <= i < n ==> r[i] == x
  {
    if n == 0 then [] else Repeat(x, n - 1) + [x]
  }

  /** `a` is `b` with some elements left out, the others kept in their order. */
  predicate Subsequence<T(==)>(a: seq<T>, b: seq<T>)
    decreases |b|
  {
    if |a| == 0 then true
    else if |b| == 0 then false
    else (a[0] == b[0] && Subsequence(a[1..], b[1..])) || Subsequence(a, b[1..])
  }

  // ---------------------------------------------------------------- strip

  lemma {:induction false} TrimLeftShape(s: string)
    ensures |TrimLeft(s)| <= |s| && TrimLeft(s) == s[|s| - |TrimLeft(s)|..]
    ensures AllSpace(s[..|s| - |TrimLeft(s)|])
    ensures |TrimLeft(s)| > 0 ==> !IsSpace(TrimLeft(s)[0])
  {
    if |s| > 0 && IsSpace(s[0]) {
      TrimLeftShape(s[1..]);
      var k := |s| - |TrimLeft(s)|;
      assert s[..k] == [s[0]] + s[1..][..k - 1];
    }
  }

  lemma {:induction false} TrimRightShape(s: string)
    ensures |TrimRight(s)| <= |s| && TrimRight(s) == s[..|TrimRight(s)|]
    ensures AllSpace(s[|TrimRight(s)|..])
    ensures |TrimRight(s)| > 0 ==> !IsSpace(TrimRight(s)[|TrimRight(s)| - 1])
  {
    if |s| > 0 && IsSpace(s[|s| - 1]) {
      var t := s[..|s| - 1];
      TrimRightShape(t);
      var k := |TrimRight(s)|;
      assert s[k..] == t[k..] + [s[|s| - 1]];
    }
  }

  /** What `strip()` returns: a slice of its input with only whitespace cut off either end,
      and with no whitespace left at either end. */
  lemma StripShape(s: string)
    ensures exists i, j :: 0 <= i <= j <= |s| && Strip(s) == s[i..j]
                           && AllSpace(s[..i]) && AllSpace(s[j..])
    ensures |Strip(s)| > 0 ==> !IsSpace(Strip(s)[0]) && !IsSpace(Strip(s)[|Strip(s)| - 1])
  {
    TrimLeftShape(s);
    var l := TrimLeft(s);
    var i := |s| - |l|;
    TrimRightShape(l);
    var j := i + |TrimRight(l)|;
    assert Strip(s) == s[i..j];
    assert s[j..] == l[|TrimRight(l)|..];
  }

  /** A text with no whitespace at either end is its own `strip()`. */
  lemma StripUnpadded(s: string)
    requires |s| == 0 || (!IsSpace(s[0]) && !IsSpace(s[|s| - 1]))
    ensures Strip(s) == s
  {
  }

  /** `strip()` is idempotent. */
  lemma StripStrip(s: string)
    ensures Strip(Strip(s)) == Strip(s)
  {
    StripShape(s);
    StripUnpadded(Strip(s));
  }

  /** Every character `strip()` keeps was in the input. */
  lemma StripKeeps(s: string)
    ensures forall c :: c in Strip(s) ==> c in s
  {
    StripShape(s);
    var i, j :| 0 <= i <= j <= |s| && Strip(s) == s[i..j];
    forall c | c in Strip(s) ensures c in s {
      var k :| 0 <= k < |s[i..j]| && s[i..j][k] == c;
      assert s[i + k] == c;
    }
  }

  lemma {:induction false} TrimLeftSpacePrefix(a: string, x: string)
    requires AllSpace(a)
    ensures TrimLeft(a + x) == TrimLeft(x)
  {
    if |a| > 0 {
      assert (a + x)[0] == a[0] && (a + x)[1..] == a[1..] + x;
      assert AllSpace(a[1..]) by { forall i | 0 <= i < |a[1..]| ensures IsSpace(a[1..][i]) { assert a[1..][i] == a[i + 1]; } }
      TrimLeftSpacePrefix(a[1..], x);
    } else {
      assert a + x == x;
    }
  }

  lemma {:induction false} TrimRightSpaceSuffix(x: string, b: string)
    requires AllSpace(b)
    ensures TrimRight(x + b) == TrimRight(x)
  {
    if |b| > 0 {
      assert (x + b)[|x + b| - 1] == b[|b| - 1];
      assert (x + b)[..|x + b| - 1] == x + b[..|b| - 1];
      var b' := b[..|b| - 1];
      assert AllSpace(b') by { forall i | 0 <= i < |b'| ensures IsSpace(b'[i]) { assert b'[i] == b[i]; } }
      TrimRightSpaceSuffix(x, b');
    } else {
      assert x + b == x;
    }
  }

  lemma {:induction false} TrimLeftAppend(x: string, b: string)
    ensures TrimLeft(x + b) == if AllSpace(x) then TrimLeft(b) else TrimLeft(x) + b
  {
    if |x| == 0 {
      assert x + b == b;
    } else if IsSpace(x[0]) {
      assert (x + b)[1..] == x[1..] + b;
      TrimLeftAppend(x[1..], b);
      assert AllSpace(x) <==> AllSpace(x[1..]) by {
        if AllSpace(x[1..]) {
          forall i | 0 <= i < |x| ensures IsSpace(x[i]) { if i > 0 { assert x[i] == x[1..][i - 1]; } }
        }
      }
    }
  }

  lemma TrimOfSpace(b: string)
    requires AllSpace(b)
    ensures TrimLeft(b) == "" && TrimRight(b) == ""
  {
    TrimLeftSpacePrefix(b, "");
    TrimRightSpaceSuffix("", b);
    assert b + "" == b && "" + b == b;
  }

  /** Whitespace around a regex group does not change the group once stripped. */
  lemma StripPadded(a: string, x: string, b: string)
    requires AllSpace(a) && AllSpace(b)
    ensures Strip(a + x + b) == Strip(x)
  {
    assert a + x + b == a + (x + b);
    TrimLeftSpacePrefix(a, x + b);
    TrimLeftAppend(x, b);
    if AllSpace(x) {
      TrimOfSpace(b);
      TrimOfSpace(x);
    } else {
      TrimRightSpaceSuffix(TrimLeft(x), b);
    }
  }

  // ---------------------------------------------------------------- split and join

  lemma {:induction false} SplitOnNoSeparator(s: string, c: char)
    requires c !in s
    ensures SplitOn(s, c) == [s]
  {
    if |s| > 0 {
      SplitOnNoSeparator(s[1..], c);
      assert [s[0]] + s[1..] == s;
    }
  }

  lemma {:induction false} SplitOnPrefix(p: string, y: string, c: char)
    requires c !in p
    ensures SplitOn(p + y, c) == [p + SplitOn(y, c)[0]] + SplitOn(y, c)[1..]
  {
    if |p| > 0 {
      assert (p + y)[1..] == p[1..] + y;
      SplitOnPrefix(p[1..], y, c);
      assert [p[0]] + (p[1..] + SplitOn(y, c)[0]) == p + SplitOn(y, c)[0];
    } else {
      assert p + y == y;
      var r := SplitOn(y, c);
      assert p + r[0] == r[0];
      assert [r[0]] + r[1..] == r;
    }
  }

  lemma SplitOnCut(x: string, y: string, c: char)
    requires c !in x
    ensures SplitOn(x + [c] + y, c) == [x] + SplitOn(y, c)
  {
    assert x + [c] + y == x + ([c] + y);
    SplitOnPrefix(x, [c] + y, c);
    assert ([c] + y)[0] == c && ([c] + y)[1..] == y;
    assert SplitOn([c] + y, c) == [""] + SplitOn(y, c);
    assert x + "" == x;
  }

  /** No piece returned by `split(c)` contains `c`. */
  lemma {:induction false} SplitOnPieces(s: string, c: char)
    ensures forall k :: 0 <= k < |SplitOn(s, c)| ==> c !in SplitOn(s, c)[k]
  {
    if |s| > 0 {
      SplitOnPieces(s[1..], c);
    }
  }

  /** Joining the pieces of `split(c)` with `c` gives the string back. */
  lemma {:induction false} JoinSplit(s: string, c: char)
    ensures Join(SplitOn(s, c), [c]) == s
  {
    if |s| > 0 {
      var rest := SplitOn(s[1..], c);
      JoinSplit(s[1..], c);
      if s[0] == c {
        assert Join([""] + rest, [c]) == "" + [c] + Join(rest, [c]);
      } else {
        var parts := [[s[0]] + rest[0]] + rest[1..];
        if |rest| == 1 {
          assert Join(rest, [c]) == rest[0];
        } else {
          assert parts[1..] == rest[1..];
          assert Join(rest, [c]) == rest[0] + [c] + Join(rest[1..], [c]);
        }
      }
    }
  }

  /** Splitting a join on a separator that begins with `c`, when `c` occurs nowhere else,
      gives one piece per joined part, the padding after `c` leading every piece but the first. */
  lemma {:induction false} SplitJoinPadded(parts: seq<string>, c: char, pad: string)
    requires |parts| > 0 && c !in pad
    requires forall k :: 0 <= k < |parts| ==> c !in parts[k]
    ensures |SplitOn(Join(parts, [c] + pad), c)| == |parts|
    ensures SplitOn(Join(parts, [c] + pad), c)[0] == parts[0]
    ensures forall k :: 0 < k < |parts| ==> SplitOn(Join(parts, [c] + pad), c)[k] == pad + parts[k]
  {
    if |parts| == 1 {
      SplitOnNoSeparator(parts[0], c);
    } else {
      var tail := Join(parts[1..], [c] + pad);
      SplitJoinPadded(parts[1..], c, pad);
      assert Join(parts, [c] + pad) == parts[0] + [c] + (pad + tail);
      SplitOnCut(parts[0], pad + tail, c);
      SplitOnPrefix(pad, tail, c);
    }
  }

  /** `split` undoes `join` when no part contains the separator. */
  lemma SplitJoin(parts: seq<string>, c: char)
    requires |parts| > 0
    requires forall k :: 0 <= k < |parts| ==> c !in parts[k]
    ensures SplitOn(Join(parts, [c]), c) == parts
  {
    SplitJoinPadded(parts, c, "");
    assert [c] + "" == [c];
    var r := SplitOn(Join(parts, [c]), c);
    forall k | 0 < k < |parts| ensures r[k] == parts[k] { assert "" + parts[k] == parts[k]; }
  }

  // ---------------------------------------------------------------- subsequences

  /** A subsequence picks its elements at strictly increasing places of the longer one. */
  lemma {:induction false} SubsequenceIndices<T>(a: seq<T>, b: seq<T>) returns (idx: seq<nat>)
    requires Subsequence(a, b)
    ensures |idx| == |a|
    ensures forall k :: 0 <= k < |a| ==> idx[k] < |b| && a[k] == b[idx[k]]
    ensures forall k, l :: 0 <= k < l < |idx| ==> idx[k] < idx[l]
    decreases |b|
  {
    if |a| == 0 {
      idx := [];
    } else if a[0] == b[0] && Subsequence(a[1..], b[1..]) {
      var rest := SubsequenceIndices(a[1..], b[1..]);
      idx := [0] + seq(|rest|, k requires 0 <= k < |rest| => rest[k] + 1);
      forall k | 1 <= k < |a| ensures idx[k] < |b| && a[k] == b[idx[k]] {
        assert a[k] == a[1..][k - 1];
      }
    } else {
      var rest := SubsequenceIndices(a, b[1..]);
      idx := seq(|rest|, k requires 0 <= k < |rest| => rest[k] + 1);
    }
  }

}
