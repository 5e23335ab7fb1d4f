/**
 * The few string and list operations the application relies on, written the
 * way Python defines them: slicing (`s[:n]`, `s[-n:]`), `str.strip()`,
 * `str.lower()` and `str.join`.
 */
module Text {

  type String = seq<char>

  function Min(a: nat, b: nat): nat { if a <= b then a else b }

  /** Python's `s[:n]` for n >= 0: the first n elements, or all of s when it is shorter. */
  function Prefix<T>(s: seq<T>, n: nat): (r: seq<T>)
    ensures |r| == Min(|s|, n)
    ensures r <= s
  {
    if |s| <= n then s else s[..n]
  }

  /** Python's `s[-n:]` for n > 0: the last n elements, or all of s when it is shorter. */
  function LastN<T>(s: seq<T>, n: nat): (r: seq<T>)
    requires n > 0
    ensures |r| == Min(|s|, n)
    ensures r == s[|s| - |r|..]
  {
    if |s| <= n then s else s[|s| - n..]
  }

  /** Keeping the last n entries of a list already cut to n, after appending x,
      is the same as cutting the untruncated list: a bounded FIFO window. */
  lemma {:induction false} LastNAppend<T>(s: seq<T>, x: T, n: nat)
    requires n > 0
    ensures LastN(LastN(s, n) + [x], n) == LastN(s + [x], n)
  {
    if |s| > n {
      var w := s[|s| - n..];
      var a := LastN(w + [x], n);
      var b := LastN(s + [x], n);
      assert a == (w + [x])[1..];
      assert b == (s + [x])[|s| + 1 - n..];
      forall j | 0 <= j < n ensures a[j] == b[j] {
        if j < n - 1 {
          assert a[j] == w[j + 1] == s[|s| - n + j + 1];
          assert b[j] == s[|s| + 1 - n + j];
        } else {
          assert a[j] == x == b[j];
        }
      }
    }
  }

  /** Cutting twice to the same bound is cutting once. */
  lemma {:induction false} LastNIdempotent<T>(s: seq<T>, n: nat)
    requires n > 0
    ensures LastN(LastN(s, n), n) == LastN(s, n)
  {
  }

  /** Python's `str.isspace()` for one character: the characters of Unicode
      category Zs and of bidirectional class WS, B or S. */
  predicate IsSpace(c: char)
  {
    || ('\t' <= c <= '\r')
    || ('\U{1C}' <= c <= ' ')
    || c == '\U{85}' || c == '\U{A0}' || c == '\U{1680}'
    || ('\U{2000}' <= c <= '\U{200A}')
    || c == '\U{2028}' || c == '\U{2029}' || c == '\U{202F}' || c == '\U{205F}'
    || c == '\U{3000}'
  }

  /** Python's `str.lstrip()`: drops the leading whitespace. */
  function TrimStart(s: String): (r: String)
    ensures |r| <= |s| && r == s[|s| - |r|..]
    ensures r == [] || !IsSpace(r[0])
    ensures forall i :: 0 <= i < |s| - |r| ==> IsSpace(s[i])
  {
    if s == [] || !IsSpace(s[0]) then s else TrimStart(s[1..])
  }

  /** Python's `str.rstrip()`: drops the trailing whitespace. */
  function TrimEnd(s: String): (r: String)
    ensures r <= s
    ensures r == [] || !IsSpace(r[|r| - 1])
    ensures forall i :: |r| <= i < |s| ==> IsSpace(s[i])
  {
    if s == [] || !IsSpace(s[|s| - 1]) then s else TrimEnd(s[..|s| - 1])
  }

  /** Python's `str.strip()`: drops whitespace at both ends. */
  function Strip(s: String): (r: String)
    ensures |r| <= |s|
    ensures r == [] || (!IsSpace(r[0]) && !IsSpace(r[|r| - 1]))
  {
    var t := TrimStart(s);
    var r := TrimEnd(t);
    assert r == [] || r[0] == t[0];
    r
  }

  /** A string with no whitespace at either end is left alone by strip(). */
  lemma {:induction false} StripNoOp(s: String)
    requires s == [] || (!IsSpace(s[0]) && !IsSpace(s[|s| - 1]))
    ensures Strip(s) == s
  {
  }

  /** Leading whitespace is all lstrip() removes. */
  lemma {:induction false} TrimStartPadding(pre: String, x: String)
    requires forall i :: 0 <= i < |pre| ==> IsSpace(pre[i])
    requires x == [] || !IsSpace(x[0])
    ensures TrimStart(pre + x) == x
  {
    if pre != [] {
      assert (pre + x)[0] == pre[0] && (pre + x)[1..] == pre[1..] + x;
      TrimStartPadding(pre[1..], x);
    } else {
      assert pre + x == x;
    }
  }

  /** Trailing whitespace is all rstrip() removes. */
  lemma {:induction false} TrimEndPadding(x: String, post: String)
    requires forall i :: 0 <= i < |post| ==> IsSpace(post[i])
    requires x == [] || !IsSpace(x[|x| - 1])
    ensures TrimEnd(x + post) == x
  {
    if post != [] {
      var n := |post| - 1;
      assert (x + post)[|x + post| - 1] == post[n] && (x + post)[..|x + post| - 1] == x + post[..n];
      TrimEndPadding(x, post[..n]);
    } else {
      assert x + post == x;
    }
  }

  /** strip() undoes any whitespace padding around a string with no whitespace at its ends. */
  lemma {:induction false} StripPadding(pre: String, x: String, post: String)
    requires forall i :: 0 <= i < |pre| ==> IsSpace(pre[i])
    requires forall i :: 0 <= i < |post| ==> IsSpace(post[i])
    requires x == [] || (!IsSpace(x[0]) && !IsSpace(x[|x| - 1]))
    ensures Strip(pre + x + post) == x
  {
    assert pre + x + post == pre + (x + post);
    if x == [] {
      assert pre + (x + post) == pre + post;
      assert forall i :: 0 <= i < |pre + post| ==> IsSpace((pre + post)[i]);
      TrimStartPadding(pre + post, []);
      assert pre + post + [] == pre + post;
    } else {
      assert (x + post)[0] == x[0];
      TrimStartPadding(pre, x + post);
      TrimEndPadding(x, post);
    }
  }

  /** Python's `str.lower()` on one character, for the ASCII capitals. */
  function LowerChar(c: char): (r: char)
    ensures 'A' <= c <= 'Z' ==> 'a' <= r <= 'z' && r as int - c as int == 32
    ensures !('A' <= c <= 'Z') ==> r == c
  {
    if 'A' <= c <= 'Z' then (c as int - 'A' as int + 'a' as int) as char else c
  }

  /** Python's `str.lower()`, character by character. */
  function Lower(s: String): (r: String)
    ensures |r| == |s|
    ensures forall i :: 0 <= i < |s| ==> r[i] == LowerChar(s[i])
  {
    if s == [] then [] else [LowerChar(s[0])] + Lower(s[1..])
  }

  /** Lowering keeps whitespace and non-whitespace apart, and lowers only once. */
  lemma LowerCharFacts(c: char)
    ensures IsSpace(LowerChar(c)) <==> IsSpace(c)
    ensures LowerChar(LowerChar(c)) == LowerChar(c)
  {
  }

  /** A string without capitals is its own lower case. */
  lemma {:induction false} LowerOfLowercase(s: String)
    requires forall i :: 0 <= i < |s| ==> !('A' <= s[i] <= 'Z')
    ensures Lower(s) == s
  {
    if s != [] {
      LowerOfLowercase(s[1..]);
    }
  }

  /** `s.strip().lower()`, the normal form compared against the trigger phrase. */
  function Normalize(s: String): String
  {
    Lower(Strip(s))
  }

  /** Normalizing twice is normalizing once. */
  lemma {:induction false} NormalizeIdempotent(s: String)
    ensures Normalize(Normalize(s)) == Normalize(s)
  {
    var t := Strip(s);
    var n := Lower(t);
    if n != [] {
      LowerCharFacts(t[0]);
      LowerCharFacts(t[|t| - 1]);
    }
    StripNoOp(n);
    forall i | 0 <= i < |n| ensures Lower(n)[i] == n[i] {
      LowerCharFacts(t[i]);
    }
    assert Lower(n) == n;
  }

  /** Python's `sep.join(parts)`. */
  function Join(sep: String, parts: seq<String>): String
  {
    if parts == [] then []
    else if |parts| == 1 then parts[0]
    else parts[0] + sep + Join(sep, parts[1..])
  }
}
