/** The Python string operations the answerer relies on: substring search,
    `str.strip()` with no argument, and `str.join`. Strings are sequences of
    code points, as Python's `str` is, so lengths and slices agree with it. */
module Text {
  import opened Wrappers

  /** `t` occurs in `s` starting at index `i`. */
  predicate At(s: string, i: nat, t: string)
  {
    i + |t| <= |s| && s[i..i + |t|] == t
  }

  /** Python's `t in s`. */
  predicate Contains(s: string, t: string)
  {
    exists i: nat | i <= |s| :: At(s, i, t)
  }

  /** The first index at or after `from` where `t` occurs in `s`. */
  function Find(s: string, t: string, from: nat): (r: Option<nat>)
    ensures r.Some? ==> from <= r.value && At(s, r.value, t)
    ensures forall k: nat :: from <= k && (r.None? || k < r.value) ==> !At(s, k, t)
    decreases |s| - from
  {
    if from + |t| > |s| then None
    else if At(s, from, t) then Some(from)
    else Find(s, t, from + 1)
  }

  /** An occurrence of `t` at `j` with none in [from, j) is what Find reports. */
  lemma FindFirst(s: string, t: string, from: nat, j: nat)
    requires from <= j && At(s, j, t)
    requires forall k: nat :: from <= k < j ==> !At(s, k, t)
    ensures Find(s, t, from) == Some(j)
  {
  }

  /** Dropping the first character shifts every occurrence one place left. */
  lemma AtTail(s: string, i: nat, t: string)
    requires |s| > 0
    ensures At(s[1..], i, t) <==> At(s, i + 1, t)
  {
    if i + 1 + |t| <= |s| {
      assert s[1..][i..i + |t|] == s[i + 1..i + 1 + |t|];
    }
  }

  /** An occurrence that ends inside `s` is not affected by what follows `s`. */
  lemma AtPrefix(s: string, u: string, i: nat, t: string)
    requires i + |t| <= |s|
    ensures At(s + u, i, t) <==> At(s, i, t)
  {
    assert (s + u)[i..i + |t|] == s[i..i + |t|];
  }

  /** The characters for which Python's `str.isspace()` holds; these are what
      `str.strip()` removes when called without an argument. */
  predicate IsSpace(c: char)
  {
    || c == ' ' || c == '\t' || c == '\n' || c == '\r' || c == '\U{000B}' || c == '\U{000C}'
    || ('\U{001C}' <= c <= '\U{001F}')
    || c == '\U{0085}' || c == '\U{00A0}' || c == '\U{1680}'
    || ('\U{2000}' <= c <= '\U{200A}')
    || c == '\U{2028}' || c == '\U{2029}' || c == '\U{202F}' || c == '\U{205F}' || c == '\U{3000}'
  }

  /** `s.lstrip()`: a suffix of `s`, preceded only by whitespace, starting with a non-space. */
  function TrimStart(s: string): (r: string)
    ensures |r| <= |s| && r == s[|s| - |r|..]
    ensures forall k {:trigger IsSpace(s[k])} :: 0 <= k < |s| - |r| ==> IsSpace(s[k])
    ensures r != [] ==> !IsSpace(r[0])
  {
    if |s| > 0 && IsSpace(s[0]) then TrimStart(s[1..]) else s
  }

  /** `s.rstrip()`: a prefix of `s`, followed only by whitespace, ending with a non-space. */
  function TrimEnd(s: string): (r: string)
    ensures |r| <= |s| && r == s[..|r|]
    ensures forall k {:trigger IsSpace(s[k])} :: |r| <= k < |s| ==> IsSpace(s[k])
    ensures r != [] ==> !IsSpace(r[|r| - 1])
  {
    if |s| > 0 && IsSpace(s[|s| - 1]) then TrimEnd(s[..|s| - 1]) else s
  }

  /** `s.strip()`: the infix of `s` left after removing leading and trailing whitespace. */
  function StripWhitespace(s: string): (r: string)
    ensures exists i: nat :: At(s, i, r) && (forall k {:trigger IsSpace(s[k])} :: 0 <= k < i ==> IsSpace(s[k]))
                             && (forall k {:trigger IsSpace(s[k])} :: i + |r| <= k < |s| ==> IsSpace(s[k]))
    ensures r != [] ==> !IsSpace(r[0]) && !IsSpace(r[|r| - 1])
  {
    StripWhitespaceInfix(s);
    TrimEnd(TrimStart(s))
  }

  /** Where the stripped string lies in the original: after the leading whitespace. */
  lemma StripWhitespaceInfix(s: string)
    ensures var t := TrimStart(s);
            var r := TrimEnd(t);
            var i := |s| - |t|;
            && At(s, i, r)
            && (forall k {:trigger IsSpace(s[k])} :: 0 <= k < i ==> IsSpace(s[k]))
            && (forall k {:trigger IsSpace(s[k])} :: i + |r| <= k < |s| ==> IsSpace(s[k]))
  {
    var t := TrimStart(s);
    var r := TrimEnd(t);
    var i := |s| - |t|;
    PrefixOfSuffix(s, i, |r|);
    forall k | i + |r| <= k < |s|
      ensures IsSpace(s[k])
    {
      assert IsSpace(t[k - i]);
    }
  }

  /** A prefix of a suffix is an infix. */
  lemma PrefixOfSuffix(s: string, i: nat, n: nat)
    requires i + n <= |s|
    ensures At(s, i, s[i..][..n])
  {
    assert s[i..][..n] == s[i..i + n];
  }

  /** A string with no surrounding whitespace is left as it is by `strip()`. */
  lemma StripWhitespaceIdentity(s: string)
    requires s == [] || (!IsSpace(s[0]) && !IsSpace(s[|s| - 1]))
    ensures StripWhitespace(s) == s
  {
  }

  /** `sep.join(xs)`: empty for no pieces; otherwise it starts with the first
      piece and ends with the last. */
  function Join(sep: string, xs: seq<string>): (r: string)
    ensures |xs| == 0 ==> r == ""
    ensures |xs| > 0 ==> At(r, 0, xs[0])
  {
    if |xs| == 0 then "" else if |xs| == 1 then xs[0] else xs[0] + sep + Join(sep, xs[1..])
  }

  /** The sum of the lengths of the strings in `xs`. */
  function TotalLength(xs: seq<string>): nat
  {
    if |xs| == 0 then 0 else |xs[0]| + TotalLength(xs[1..])
  }

  /** Where `xs[i]` begins in `Join(sep, xs)`: after every earlier piece and its separator. */
  function Offset(sep: string, xs: seq<string>, i: nat): nat
    requires i <= |xs|
  {
    if i == 0 then 0 else |xs[0]| + |sep| + Offset(sep, xs[1..], i - 1)
  }

  /** The joined string is as long as its pieces plus one separator between each two. */
  lemma {:induction false} JoinLength(sep: string, xs: seq<string>)
    ensures |Join(sep, xs)| == if |xs| == 0 then 0 else TotalLength(xs) + |sep| * (|xs| - 1)
  {
    if |xs| > 1 {
      JoinLength(sep, xs[1..]);
    }
  }

  /** Slicing past a left operand of `+` slices the right operand. */
  lemma SliceRight(a: string, b: string, x: nat, y: nat)
    requires x <= y <= |b|
    ensures (a + b)[|a| + x..|a| + y] == b[x..y]
  {
  }

  /** Slicing within the left operand of `+` slices the left operand. */
  lemma SliceLeft(a: string, b: string, x: nat, y: nat)
    requires x <= y <= |a|
    ensures (a + b)[x..y] == a[x..y]
  {
  }

  /** Piece `i` of the input stands, unchanged, at Offset(sep, xs, i) of the joined string,
      so the pieces appear in their original order. */
  lemma {:induction false} JoinPiece(sep: string, xs: seq<string>, i: nat)
    requires i < |xs|
    ensures Offset(sep, xs, i) + |xs[i]| <= |Join(sep, xs)|
    ensures Join(sep, xs)[Offset(sep, xs, i)..Offset(sep, xs, i) + |xs[i]|] == xs[i]
  {
    if i == 0 {
      assert At(Join(sep, xs), 0, xs[0]);
    } else {
      var head := xs[0] + sep;
      var rest := Join(sep, xs[1..]);
      assert Join(sep, xs) == head + rest;
      JoinPiece(sep, xs[1..], i - 1);
      var o := Offset(sep, xs[1..], i - 1);
      assert xs[1..][i - 1] == xs[i];
      assert Offset(sep, xs, i) == |head| + o;
      SliceRight(head, rest, o, o + |xs[i]|);
    }
  }

  /** Between piece `i` and piece `i + 1` stands exactly one separator. */
  lemma {:induction false} JoinSeparator(sep: string, xs: seq<string>, i: nat)
    requires i + 1 < |xs|
    ensures Offset(sep, xs, i + 1) <= |Join(sep, xs)|
    ensures Offset(sep, xs, i + 1) == Offset(sep, xs, i) + |xs[i]| + |sep|
    ensures Join(sep, xs)[Offset(sep, xs, i) + |xs[i]|..Offset(sep, xs, i + 1)] == sep
  {
    var rest := Join(sep, xs[1..]);
    if i == 0 {
      SliceRight(xs[0], sep + rest, 0, |sep|);
      assert Join(sep, xs) == xs[0] + (sep + rest);
      JoinLength(sep, xs[1..]);
    } else {
      JoinSeparator(sep, xs[1..], i - 1);
      var o := Offset(sep, xs[1..], i - 1) + |xs[i]|;
      SliceRight(xs[0] + sep, rest, o, o + |sep|);
    }
  }
}
