/** The JavaScript string operations the SDK leans on. */
module Strings {

  /** White space as `String.prototype.trim` understands it. */
  predicate IsSpace(c: char) {
    || '\t' <= c <= '\r' || c == ' ' || c == '\U{00A0}' || c == '\U{1680}'
    || '\U{2000}' <= c <= '\U{200A}' || c == '\U{2028}' || c == '\U{2029}'
    || c == '\U{202F}' || c == '\U{205F}' || c == '\U{3000}' || c == '\U{FEFF}'
  }

  function TrimStart(s: string): string {
    if s != [] && IsSpace(s[0]) then TrimStart(s[1..]) else s
  }

  function TrimEnd(s: string): string {
    if s != [] && IsSpace(s[|s| - 1]) then TrimEnd(s[..|s| - 1]) else s
  }

  function Trim(s: string): string {
    TrimEnd(TrimStart(s))
  }

  function LowerChar(c: char): char {
    if 'A' <= c <= 'Z' then 'a' + (c - 'A') else c
  }

  function ToLower(s: string): string {
    seq(|s|, i requires 0 <= i < |s| => LowerChar(s[i]))
  }

  lemma {:induction false} TrimEndIdempotent(s: string)
    ensures TrimEnd(s) <= s
    ensures TrimEnd(s) == "" || !IsSpace(TrimEnd(s)[|TrimEnd(s)| - 1])
    ensures TrimEnd(TrimEnd(s)) == TrimEnd(s)
  {
    if s != [] && IsSpace(s[|s| - 1]) { TrimEndIdempotent(s[..|s| - 1]); }
  }

  lemma {:induction false} TrimStartStops(s: string)
    ensures TrimStart(s) == "" || !IsSpace(TrimStart(s)[0])
  {
    if s != [] && IsSpace(s[0]) { TrimStartStops(s[1..]); }
  }

  lemma TrimIdempotent(s: string)
    ensures Trim(Trim(s)) == Trim(s)
  {
    TrimStartStops(s);
    TrimEndIdempotent(TrimStart(s));
    assert TrimStart(Trim(s)) == Trim(s);
  }

  /** Case makes no difference to white space, so trimming and lowering commute. */
  lemma {:induction false} TrimEndLower(s: string)
    ensures TrimEnd(ToLower(s)) == ToLower(TrimEnd(s))
  {
    if s != [] && IsSpace(s[|s| - 1]) {
      assert ToLower(s)[..|s| - 1] == ToLower(s[..|s| - 1]);
      TrimEndLower(s[..|s| - 1]);
    }
  }

  lemma {:induction false} TrimStartLower(s: string)
    ensures TrimStart(ToLower(s)) == ToLower(TrimStart(s))
  {
    if s != [] && IsSpace(s[0]) {
      assert ToLower(s)[1..] == ToLower(s[1..]);
      TrimStartLower(s[1..]);
    }
  }

  lemma ToLowerIdempotent(s: string)
    ensures ToLower(ToLower(s)) == ToLower(s)
  {
  }

  predicate Free(c: char, s: string) {
    c !in s
  }

  /** `String.indexOf` for one character, with the length standing for "not found". */
  function IndexOf(c: char, s: string): (i: nat)
    ensures i <= |s| && Free(c, s[..i])
    ensures i < |s| ==> s[i] == c
  {
    if s == [] || s[0] == c then 0 else 1 + IndexOf(c, s[1..])
  }

  lemma {:induction false} IndexOfSeparator(c: char, a: string, x: string)
    requires Free(c, a)
    ensures IndexOf(c, a + [c] + x) == |a|
  {
    if a != [] {
      assert a[0] in a;
      assert (a + [c] + x)[1..] == a[1..] + [c] + x;
      IndexOfSeparator(c, a[1..], x);
    }
  }

  /**
   * A separator the left part cannot contain splits a string one way only. Every key, frame
   * and header argument below rests on this.
   */
  lemma SplitUnique(c: char, a: string, b: string, x: string, y: string)
    requires Free(c, a) && Free(c, b)
    requires a + [c] + x == b + [c] + y
    ensures a == b && x == y
  {
    IndexOfSeparator(c, a, x);
    IndexOfSeparator(c, b, y);
    var s := a + [c] + x;
    assert a == s[..|a|] && b == s[..|b|];
    assert x == s[|a| + 1..] && y == s[|b| + 1..];
  }

  /** Of two prefixes of one string, one is a prefix of the other. */
  lemma CommonString(a: string, x: string, b: string, y: string)
    requires a + x == b + y
    ensures a <= b || b <= a
  {
    if |a| <= |b| {
      assert a == (a + x)[..|a|] == (b + y)[..|a|] == b[..|a|];
    } else {
      assert b == (b + y)[..|b|] == (a + x)[..|b|] == a[..|b|];
    }
  }

  /** `String.split` on one character: always at least one part. */
  function Split(c: char, s: string): (parts: seq<string>)
    ensures parts != []
    decreases |s|
  {
    var i := IndexOf(c, s);
    if i == |s| then [s] else [s[..i]] + Split(c, s[i + 1..])
  }

  lemma {:induction false} IndexOfAbsent(c: char, s: string)
    requires Free(c, s)
    ensures IndexOf(c, s) == |s|
  {
    if s != [] {
      assert s[0] in s;
      IndexOfAbsent(c, s[1..]);
    }
  }

  /** Splitting two strings joined by the separator splits each of them. */
  lemma {:induction false} SplitJoin(c: char, x: string, y: string)
    ensures Split(c, x + [c] + y) == Split(c, x) + Split(c, y)
    decreases |x|
  {
    var i := IndexOf(c, x);
    var s := x + [c] + y;
    if i == |x| {
      assert x == x[..i];
      IndexOfSeparator(c, x, y);
      assert s[..|x|] == x && s[|x| + 1..] == y;
    } else {
      var front, back := x[..i], x[i + 1..];
      assert x == front + [c] + back;
      assert s == front + [c] + (back + [c] + y);
      IndexOfSeparator(c, front, back + [c] + y);
      assert s[..i] == front && s[i + 1..] == back + [c] + y;
      SplitJoin(c, back, y);
    }
  }
}
