/**
 * String primitives of the .NET base library that the generator relies on:
 * Environment.NewLine, new string(c, n), string.Join, string.Split(char)
 * and string.Trim().
 */
module Text {

  /** Environment.NewLine, fixed to one abstract line terminator. */
  const NewLine: string := "\n"

  /** new string(c, n): the character c repeated n times. */
  function Repeat(c: char, n: nat): (r: string)
    ensures |r| == n
  {
    seq(n, _ => c)
  }

  /** Every character of new string(c, n) is c. */
  lemma RepeatIsConstant(c: char, n: nat)
    ensures forall k :: 0 <= k < n ==> Repeat(c, n)[k] == c
  {
  }


  /** string.Join(sep, xs): the pieces with sep between neighbours; it starts with the first piece. */
  function Join(sep: string, xs: seq<string>): (r: string)
    ensures xs == [] ==> r == ""
    ensures |xs| >= 1 ==> |r| >= |xs[0]| && r[..|xs[0]|] == xs[0]
  {
    if |xs| == 0 then ""
    else if |xs| == 1 then xs[0]
    else xs[0] + sep + Join(sep, xs[1..])
  }

  /** string.Split(c): the pieces of s between the occurrences of c. */
  function Split(s: string, c: char): (r: seq<string>)
    ensures |r| >= 1
    ensures forall k :: 0 <= k < |r| ==> c !in r[k]
  {
    if s == [] then [""]
    else
      var t := Split(s[1..], c);
      if s[0] == c then [""] + t else [[s[0]] + t[0]] + t[1..]
  }

  /** Splitting and joining again with the same character gives back the input. */
  lemma {:induction false} SplitThenJoin(s: string, c: char)
    ensures Join([c], Split(s, c)) == s
  {
    if s != [] {
      var t := Split(s[1..], c);
      SplitThenJoin(s[1..], c);
      if s[0] == c {
        assert Split(s, c) == [""] + t;
        if |t| == 1 {
          assert Join([c], [""] + t) == "" + [c] + t[0];
        } else {
          assert Join([c], [""] + t) == "" + [c] + Join([c], t);
        }
      } else {
        var head := [s[0]] + t[0];
        assert Split(s, c) == [head] + t[1..];
        if |t| == 1 {
          assert Join([c], [head]) == head;
        } else {
          assert Join([c], t) == t[0] + [c] + Join([c], t[1..]);
          assert Join([c], [head] + t[1..]) == head + [c] + Join([c], t[1..]);
        }
      }
    }
  }

  /** A text without the separator is one piece. */
  lemma {:induction false} SplitWithoutSeparator(s: string, c: char)
    requires c !in s
    ensures Split(s, c) == [s]
  {
    if s != [] {
      SplitWithoutSeparator(s[1..], c);
      assert [s[0]] + s[1..] == s;
    }
  }

  /** A separator-free prefix is glued onto the first piece of what follows it. */
  lemma {:induction false} SplitAfterPrefix(a: string, t: string, c: char)
    requires c !in a
    ensures Split(a + t, c) == [a + Split(t, c)[0]] + Split(t, c)[1..]
  {
    if a != [] {
      assert (a + t)[0] == a[0] && a[0] != c;
      assert (a + t)[1..] == a[1..] + t;
      SplitAfterPrefix(a[1..], t, c);
      var u := Split(t, c);
      assert [a[0]] + (a[1..] + u[0]) == a + u[0];
    } else {
      assert a + t == t;
      var u := Split(t, c);
      assert a + u[0] == u[0] && u == [u[0]] + u[1..];
    }
  }

  /**
   * Splitting a join at the first character of its separator gives the
   * pieces back, each after the first preceded by the rest of the separator,
   * provided no piece and no rest of the separator holds that character.
   */
  lemma {:induction false} JoinThenSplit(sep: string, xs: seq<string>)
    requires |sep| >= 1 && sep[0] !in sep[1..]
    requires |xs| >= 1
    requires forall k :: 0 <= k < |xs| ==> sep[0] !in xs[k]
    ensures |Split(Join(sep, xs), sep[0])| == |xs|
    ensures Split(Join(sep, xs), sep[0])[0] == xs[0]
    ensures forall k :: 1 <= k < |xs| ==> Split(Join(sep, xs), sep[0])[k] == sep[1..] + xs[k]
  {
    var c := sep[0];
    if |xs| == 1 {
      SplitWithoutSeparator(xs[0], c);
    } else {
      var rest := sep[1..];
      var tail := Join(sep, xs[1..]);
      JoinThenSplit(sep, xs[1..]);
      var u := Split(tail, c);
      SplitAfterPrefix(rest, tail, c);
      var a := Split(rest + tail, c);
      assert a == [rest + u[0]] + u[1..];
      var b := [c] + (rest + tail);
      assert b[0] == c && b[1..] == rest + tail;
      assert Split(b, c) == [""] + a;
      assert sep == [c] + rest;
      assert Join(sep, xs) == xs[0] + b;
      SplitAfterPrefix(xs[0], b, c);
      var r := Split(Join(sep, xs), c);
      assert r == [xs[0] + ""] + a;
      assert xs[0] + "" == xs[0];
      forall k | 1 <= k < |xs|
        ensures r[k] == rest + xs[k]
      {
        if k == 1 {
          assert r[1] == rest + u[0];
        } else {
          assert r[k] == u[k - 1];
          assert xs[1..][k - 1] == xs[k];
        }
      }
    }
  }

  /** Char.IsWhiteSpace: the Unicode space separators, line and paragraph separators, U+0009..U+000D and U+0085. */
  predicate IsWhiteSpace(ch: char)
  {
    var n := ch as int;
    (0x09 <= n <= 0x0D) || n == 0x20 || n == 0x85 || n == 0xA0 || n == 0x1680
    || (0x2000 <= n <= 0x200A) || n == 0x2028 || n == 0x2029 || n == 0x202F
    || n == 0x205F || n == 0x3000
  }

  /**
   * The ASCII space, tab, line feed and carriage return are white space; no
   * letter, digit, `.` or `_`, hence no character of an attribute's name, is.
   */
  lemma WhiteSpaceCharacters(ch: char)
    ensures ch == ' ' || ch == '\t' || ch == '\n' || ch == '\r' ==> IsWhiteSpace(ch)
    ensures ('0' <= ch <= '9') || ('A' <= ch <= 'Z') || ('a' <= ch <= 'z') || ch == '.' || ch == '_' ==> !IsWhiteSpace(ch)
  {
  }

  /** String.TrimStart(): s without its leading white space. */
  function TrimStart(s: string): string
  {
    if s != [] && IsWhiteSpace(s[0]) then TrimStart(s[1..]) else s
  }

  /** String.TrimEnd(): s without its trailing white space. */
  function TrimEnd(s: string): string
  {
    if s != [] && IsWhiteSpace(s[|s| - 1]) then TrimEnd(s[..|s| - 1]) else s
  }

  /** TrimStart removes exactly the leading white space: what remains is a suffix that does not start with white space. */
  lemma {:induction false} TrimStartRemovesLeadingSpace(s: string)
    ensures |TrimStart(s)| <= |s| && TrimStart(s) == s[|s| - |TrimStart(s)|..]
    ensures TrimStart(s) == [] || !IsWhiteSpace(TrimStart(s)[0])
    ensures forall k :: 0 <= k < |s| - |TrimStart(s)| ==> IsWhiteSpace(s[k])
  {
    if s != [] && IsWhiteSpace(s[0]) {
      var t := s[1..];
      TrimStartRemovesLeadingSpace(t);
      var r := TrimStart(t);
      assert TrimStart(s) == r;
      assert t[|t| - |r|..] == s[|s| - |r|..];
      forall k | 0 <= k < |s| - |r|
        ensures IsWhiteSpace(s[k])
      {
        if k > 0 {
          assert s[k] == t[k - 1];
        }
      }
    }
  }

  /** TrimEnd removes exactly the trailing white space: what remains is a prefix that does not end with white space. */
  lemma {:induction false} TrimEndRemovesTrailingSpace(s: string)
    ensures |TrimEnd(s)| <= |s| && TrimEnd(s) == s[..|TrimEnd(s)|]
    ensures TrimEnd(s) == [] || !IsWhiteSpace(TrimEnd(s)[|TrimEnd(s)| - 1])
    ensures forall k :: |TrimEnd(s)| <= k < |s| ==> IsWhiteSpace(s[k])
  {
    if s != [] && IsWhiteSpace(s[|s| - 1]) {
      var t := s[..|s| - 1];
      TrimEndRemovesTrailingSpace(t);
      var r := TrimEnd(t);
      assert TrimEnd(s) == r;
      assert t[..|r|] == s[..|r|];
      forall k | |r| <= k < |s|
        ensures IsWhiteSpace(s[k])
      {
        if k < |s| - 1 {
          assert s[k] == t[k];
        }
      }
    }
  }

  /** String.Trim(): s without its leading and trailing white space. */
  function Trim(s: string): string
  {
    TrimEnd(TrimStart(s))
  }

  /**
   * Trim removes exactly the white space on both sides: the result is the
   * slice of s from `start`, everything before and after that slice is white
   * space, and the result neither starts nor ends with white space.
   */
  lemma TrimRemovesPadding(s: string) returns (start: nat)
    ensures start + |Trim(s)| <= |s| && Trim(s) == s[start..start + |Trim(s)|]
    ensures forall k :: 0 <= k < start ==> IsWhiteSpace(s[k])
    ensures forall k :: start + |Trim(s)| <= k < |s| ==> IsWhiteSpace(s[k])
    ensures Trim(s) == [] || (!IsWhiteSpace(Trim(s)[0]) && !IsWhiteSpace(Trim(s)[|Trim(s)| - 1]))
  {
    var t := TrimStart(s);
    TrimStartRemovesLeadingSpace(s);
    TrimEndRemovesTrailingSpace(t);
    var r := TrimEnd(t);
    start := |s| - |t|;
    assert r == s[start..start + |r|];
    forall k | start + |r| <= k < |s|
      ensures IsWhiteSpace(s[k])
    {
      assert s[k] == t[k - start];
    }
    if r != [] {
      assert r[0] == t[0];
    }
  }

  /** Leading white space does not survive TrimStart. */
  lemma {:induction false} TrimStartPadding(p: string, s: string)
    requires forall k :: 0 <= k < |p| ==> IsWhiteSpace(p[k])
    ensures TrimStart(p + s) == TrimStart(s)
  {
    if p != [] {
      assert (p + s)[0] == p[0];
      assert (p + s)[1..] == p[1..] + s;
      TrimStartPadding(p[1..], s);
    } else {
      assert p + s == s;
    }
  }

  /** Trailing white space does not survive TrimEnd. */
  lemma {:induction false} TrimEndPadding(s: string, q: string)
    requires forall k :: 0 <= k < |q| ==> IsWhiteSpace(q[k])
    ensures TrimEnd(s + q) == TrimEnd(s)
  {
    if q != [] {
      var q' := q[..|q| - 1];
      assert (s + q)[|s + q| - 1] == q[|q| - 1];
      assert (s + q)[..|s + q| - 1] == s + q';
      TrimEndPadding(s, q');
    } else {
      assert s + q == s;
    }
  }

  /** Trim discards any white-space padding on either side. */
  lemma TrimPadding(p: string, s: string, q: string)
    requires forall k :: 0 <= k < |p| ==> IsWhiteSpace(p[k])
    requires forall k :: 0 <= k < |q| ==> IsWhiteSpace(q[k])
    ensures Trim(p + s + q) == Trim(s)
  {
    assert p + s + q == p + (s + q);
    TrimStartPadding(p, s + q);
    TrimBeforePadding(s, q);
  }

  /** Trailing white space makes no difference to Trim. */
  lemma {:induction false} TrimBeforePadding(s: string, q: string)
    requires forall k :: 0 <= k < |q| ==> IsWhiteSpace(q[k])
    ensures TrimEnd(TrimStart(s + q)) == TrimEnd(TrimStart(s))
  {
    if s == [] {
      assert s + q == q + [];
      TrimStartPadding(q, []);
    } else if IsWhiteSpace(s[0]) {
      assert (s + q)[0] == s[0];
      assert (s + q)[1..] == s[1..] + q;
      TrimBeforePadding(s[1..], q);
    } else {
      TrimStartKeepsEndSuffix(s, q);
      TrimEndPadding(s, q);
    }
  }

  /** A text that starts with a non-space is left alone by TrimStart, whatever follows it. */
  lemma TrimStartKeepsEndSuffix(t: string, q: string)
    requires t != [] && !IsWhiteSpace(t[0])
    ensures TrimStart(t + q) == t + q
  {
    assert (t + q)[0] == t[0];
  }

  /** Trim leaves a text alone that neither starts nor ends with white space. */
  lemma TrimUnpadded(s: string)
    requires s == [] || (!IsWhiteSpace(s[0]) && !IsWhiteSpace(s[|s| - 1]))
    ensures Trim(s) == s
  {
    assert TrimStart(s) == s;
  }

  /** Concatenations regrouped, for proofs that build text piece by piece. */
  lemma Regroup(a: string, b: string, c: string, d: string, e: string)
    ensures a + (b + c + d) + e == a + b + c + d + e
  {
  }

  lemma Regroup2(s: string, a: string, b: string)
    ensures s + a + b == s + (a + b)
  {
  }

  lemma Regroup3(s: string, a: string, b: string, c: string)
    ensures s + a + b + c == s + (a + (b + c))
  {
  }

  lemma Regroup4(s: string, a: string, b: string, c: string, d: string)
    ensures s + a + b + c + d == s + (a + (b + (c + d)))
  {
  }
}
