/** The few functions of Go's `strings` package that the pipeline relies on,
    restricted to ASCII. A Go string is a sequence of bytes; here each byte is
    one character, so `len(s)` is `|s|`. */
module Text {

  /** Go's ASCII white space: tab, newline, vertical tab, form feed, carriage
      return and space. */
  predicate IsSpace(c: char) {
    c == ' ' || c == '\t' || c == '\n' || c == '\r' || c == '\U{000B}' || c == '\U{000C}'
  }

  predicate AllSpace(s: string) {
    forall i :: 0 <= i < |s| ==> IsSpace(s[i])
  }

  /** Neither end of `s` is white space. */
  predicate Trimmed(s: string) {
    s == [] || (!IsSpace(s[0]) && !IsSpace(s[|s| - 1]))
  }

  /** strings.TrimLeft(s, white space). Its properties are stated by
      TrimLeftSpec rather than as postconditions, so that a use of the
      function does not bring them into every proof. */
  function TrimLeft(s: string): string {
    if s != [] && IsSpace(s[0]) then TrimLeft(s[1..]) else s
  }

  function TrimRight(s: string): string {
    if s != [] && IsSpace(s[|s| - 1]) then TrimRight(s[..|s| - 1]) else s
  }

  /** TrimLeft removes exactly the leading white space. */
  lemma {:induction false} TrimLeftSpec(s: string)
    ensures |TrimLeft(s)| <= |s| && TrimLeft(s) == s[|s| - |TrimLeft(s)|..]
    ensures AllSpace(s[..|s| - |TrimLeft(s)|])
    ensures TrimLeft(s) == [] || !IsSpace(TrimLeft(s)[0])
  {
    if s != [] && IsSpace(s[0]) {
      TrimLeftSpec(s[1..]);
      var r := TrimLeft(s);
      assert s[..|s| - |r|] == [s[0]] + s[1..][..|s| - 1 - |r|];
    }
  }

  /** TrimRight removes exactly the trailing white space. */
  lemma {:induction false} TrimRightSpec(s: string)
    ensures |TrimRight(s)| <= |s| && TrimRight(s) == s[..|TrimRight(s)|]
    ensures AllSpace(s[|TrimRight(s)|..])
    ensures TrimRight(s) == [] || !IsSpace(TrimRight(s)[|TrimRight(s)| - 1])
  {
    if s != [] && IsSpace(s[|s| - 1]) {
      TrimRightSpec(s[..|s| - 1]);
      var r := TrimRight(s);
      assert s[|r|..] == s[..|s| - 1][|r|..] + [s[|s| - 1]];
    }
  }

  /** strings.TrimSpace: the slice of `s` left after removing white space at
      both ends. */
  function TrimSpace(s: string): (r: string)
    ensures Trimmed(r) && |r| <= |s|
  {
    TrimLeftSpec(s);
    TrimRightSpec(TrimLeft(s));
    var r := TrimRight(TrimLeft(s));
    assert r != [] ==> r[0] == TrimLeft(s)[0];
    r
  }

  lemma TrimSpaceOfTrimmed(s: string)
    requires Trimmed(s)
    ensures TrimSpace(s) == s
  {
    assert TrimLeft(s) == s;
    assert TrimRight(s) == s;
  }

  lemma {:induction false} TrimLeftAfterSpace(pre: string, s: string)
    requires AllSpace(pre) && (s == [] || !IsSpace(s[0]))
    ensures TrimLeft(pre + s) == s
  {
    if pre != [] {
      assert (pre + s)[1..] == pre[1..] + s;
      TrimLeftAfterSpace(pre[1..], s);
    } else {
      assert pre + s == s;
    }
  }

  lemma {:induction false} TrimRightBeforeSpace(s: string, post: string)
    requires AllSpace(post) && (s == [] || !IsSpace(s[|s| - 1]))
    ensures TrimRight(s + post) == s
  {
    if post != [] {
      assert (s + post)[..|s + post| - 1] == s + post[..|post| - 1];
      TrimRightBeforeSpace(s, post[..|post| - 1]);
    } else {
      assert s + post == s;
    }
  }

  /** Stripping white space that surrounds an already trimmed text gives the
      text back. */
  lemma TrimSpaceSurrounded(pre: string, s: string, post: string)
    requires AllSpace(pre) && AllSpace(post) && Trimmed(s)
    ensures TrimSpace(pre + s + post) == s
  {
    if s == [] {
      assert pre + s + post == pre + post + [];
      TrimLeftAfterSpace(pre + post, []);
    } else {
      assert pre + s + post == pre + (s + post);
      TrimLeftAfterSpace(pre, s + post);
      TrimRightBeforeSpace(s, post);
    }
  }

  function Lower(c: char): (d: char)
    ensures IsSpace(d) == IsSpace(c)
  {
    if 'A' <= c <= 'Z' then (c as int + 32) as char else c
  }

  /** strings.ToLower for ASCII letters; every other character is kept. */
  function ToLower(s: string): string {
    if s == [] then [] else [Lower(s[0])] + ToLower(s[1..])
  }

  /** ToLower maps each character independently. */
  lemma {:induction false} ToLowerSpec(s: string)
    ensures |ToLower(s)| == |s|
    ensures forall i :: 0 <= i < |s| ==> ToLower(s)[i] == Lower(s[i])
  {
    if s != [] {
      ToLowerSpec(s[1..]);
    }
  }

  /** The key under which epics and stories are grouped:
      strings.ToLower(strings.TrimSpace(title)). */
  function Normalize(title: string): string {
    ToLower(TrimSpace(title))
  }

  /** Normalizing twice is normalizing once, so merging an already merged
      breakdown finds the same keys. */
  lemma NormalizeIdempotent(title: string)
    ensures Normalize(Normalize(title)) == Normalize(title)
  {
    var t := TrimSpace(title);
    var n := ToLower(t);
    ToLowerSpec(t);
    assert Trimmed(n);
    TrimSpaceOfTrimmed(n);
    ToLowerTwice(t);
  }

  lemma {:induction false} ToLowerTwice(s: string)
    ensures ToLower(ToLower(s)) == ToLower(s)
  {
    if s != [] {
      ToLowerTwice(s[1..]);
      assert ToLower(s)[1..] == ToLower(s[1..]);
    }
  }

  predicate HasPrefix(s: string, p: string) {
    |p| <= |s| && s[..|p|] == p
  }

  predicate HasSuffix(s: string, p: string) {
    |p| <= |s| && s[|s| - |p|..] == p
  }

  function TrimPrefix(s: string, p: string): (r: string)
    ensures HasPrefix(s, p) ==> p + r == s
    ensures !HasPrefix(s, p) ==> r == s
  {
    if HasPrefix(s, p) then s[|p|..] else s
  }

  function TrimSuffix(s: string, p: string): (r: string)
    ensures HasSuffix(s, p) ==> r + p == s
    ensures !HasSuffix(s, p) ==> r == s
  {
    if HasSuffix(s, p) then s[..|s| - |p|] else s
  }

  /** strings.Join. */
  function Join(xs: seq<string>, sep: string): string {
    if xs == [] then ""
    else if |xs| == 1 then xs[0]
    else xs[0] + sep + Join(xs[1..], sep)
  }

  /** strings.Split(s, "\n"): the pieces between newlines. There is always at
      least one piece, and a trailing newline yields a trailing empty piece. */
  function Lines(s: string): (ls: seq<string>)
    ensures |ls| >= 1
    ensures forall i :: 0 <= i < |ls| ==> '\n' !in ls[i]
  {
    if s == [] then [""]
    else
      var rest := Lines(s[1..]);
      if s[0] == '\n' then [""] + rest else [[s[0]] + rest[0]] + rest[1..]
  }

  /** Each piece followed by a newline, all in order. */
  function Terminated(ls: seq<string>): string {
    if ls == [] then "" else ls[0] + "\n" + Terminated(ls[1..])
  }

  lemma {:induction false} TerminatedAppend(a: seq<string>, b: seq<string>)
    ensures Terminated(a + b) == Terminated(a) + Terminated(b)
  {
    if a != [] {
      assert (a + b)[1..] == a[1..] + b;
      TerminatedAppend(a[1..], b);
    } else {
      assert a + b == b;
    }
  }

  /** Re-emitting every piece of strings.Split(s, "\n") with a newline gives
      `s` plus one newline. */
  lemma {:induction false} TerminatedLines(s: string)
    ensures Terminated(Lines(s)) == s + "\n"
  {
    if s != [] {
      var rest := Lines(s[1..]);
      TerminatedLines(s[1..]);
      if s[0] == '\n' {
        assert Terminated([""] + rest) == "\n" + Terminated(rest);
        assert s == "\n" + s[1..];
      } else {
        var ls := [[s[0]] + rest[0]] + rest[1..];
        assert ls[1..] == rest[1..];
        calc {
          Terminated(ls);
          ([s[0]] + rest[0]) + "\n" + Terminated(rest[1..]);
          [s[0]] + (rest[0] + "\n" + Terminated(rest[1..]));
          [s[0]] + Terminated(rest);
          [s[0]] + (s[1..] + "\n");
          { assert s == [s[0]] + s[1..]; }
          s + "\n";
        }
      }
    }
  }

  /** Splitting newline-terminated pieces that hold no newline gives the
      pieces back, followed by the empty piece after the last newline. */
  lemma {:induction false} LinesOfTerminated(ls: seq<string>)
    requires forall i :: 0 <= i < |ls| ==> '\n' !in ls[i]
    ensures Lines(Terminated(ls)) == ls + [""]
  {
    if ls != [] {
      LinesOfTerminated(ls[1..]);
      LinesOfLine(ls[0], Terminated(ls[1..]));
    }
  }

  lemma {:induction false} LinesOfLine(l: string, t: string)
    requires '\n' !in l
    ensures Lines(l + "\n" + t) == [l] + Lines(t)
  {
    if l == [] {
      assert l + "\n" + t == "\n" + t;
      assert ("\n" + t)[1..] == t;
    } else {
      var s := l + "\n" + t;
      assert s[1..] == l[1..] + "\n" + t;
      LinesOfLine(l[1..], t);
      assert [s[0]] + l[1..] == l;
    }
  }
}
