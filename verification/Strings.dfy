/** Searching, splitting, joining and trimming strings, as the modelled languages' libraries do. */
module Strings {

  /** Position of the first `c`, or the length of `s` without one. */
  function IndexOf(s: string, c: char): (i: nat)
    ensures i <= |s| && c !in s[..i] && (i < |s| ==> s[i] == c)
  {
    if |s| == 0 || s[0] == c then 0 else 1 + IndexOf(s[1..], c)
  }

  /** The parts between the separators; there is always at least one. */
  function Split(s: string, sep: char): (parts: seq<string>)
    ensures parts != []
  {
    var i := IndexOf(s, sep);
    if i == |s| then [s] else [s[..i]] + Split(s[i+1..], sep)
  }

  function Join(parts: seq<string>, sep: char): string {
    if |parts| == 0 then "" else if |parts| == 1 then parts[0] else parts[0] + [sep] + Join(parts[1..], sep)
  }

  /** Order by character codes, a proper prefix coming first. */
  predicate LexLess(a: string, b: string) {
    b != "" && (a == "" || a[0] < b[0] || (a[0] == b[0] && LexLess(a[1..], b[1..])))
  }

  /** The white space that JavaScript trims. */
  const WHITESPACE: set<char> := {
    ' ', '\t', '\n', '\r', '\U{0B}', '\U{0C}', '\U{A0}', '\U{1680}', '\U{2000}', '\U{2001}', '\U{2002}',
    '\U{2003}', '\U{2004}', '\U{2005}', '\U{2006}', '\U{2007}', '\U{2008}', '\U{2009}', '\U{200A}',
    '\U{2028}', '\U{2029}', '\U{202F}', '\U{205F}', '\U{3000}', '\U{FEFF}' }

  predicate IsBlank(s: string) {
    forall c <- s :: c in WHITESPACE
  }

  function Trim(s: string): string {
    if s != "" && s[0] in WHITESPACE then Trim(s[1..])
    else if s != "" && s[|s|-1] in WHITESPACE then Trim(s[..|s|-1])
    else s
  }

  lemma {:induction false} IndexOfAppend(a: string, b: string, c: char)
    requires c !in a && (b == "" || b[0] == c)
    ensures IndexOf(a + b, c) == |a|
    decreases |a|
  {
    if a == "" {
      assert a + b == b;
    } else {
      assert (a + b)[1..] == a[1..] + b;
      IndexOfAppend(a[1..], b, c);
    }
  }

  /** The first separator of a text ends its first part. */
  lemma SplitFirst(head: string, tail: string, sep: char)
    requires sep !in head
    ensures Split(head, sep) == [head]
    ensures Split(head + [sep] + tail, sep) == [head] + Split(tail, sep)
  {
    var s := head + [sep] + tail;
    IndexOfAppend(head, "", sep);
    assert head + "" == head;
    assert s == head + ([sep] + tail);
    IndexOfAppend(head, [sep] + tail, sep);
    assert s[..|head|] == head && s[|head|+1..] == tail;
  }

  lemma {:induction false} SplitJoin(parts: seq<string>, sep: char)
    requires parts != [] && forall p <- parts :: sep !in p
    ensures Split(Join(parts, sep), sep) == parts
    decreases |parts|
  {
    assert parts[0] in parts;
    SplitFirst(parts[0], Join(parts[1..], sep), sep);
    if |parts| > 1 {
      SplitJoin(parts[1..], sep);
      assert parts == [parts[0]] + parts[1..];
    }
  }

  lemma {:induction false} SplitParts(s: string, sep: char)
    ensures forall p <- Split(s, sep) :: sep !in p && forall c <- p :: c in s
    decreases |s|
  {
    var i := IndexOf(s, sep);
    if i < |s| {
      SplitParts(s[i+1..], sep);
    }
  }

  lemma {:induction false} JoinChars(parts: seq<string>, sep: char, c: char)
    requires c != sep && forall p <- parts :: c !in p
    ensures c !in Join(parts, sep)
    decreases |parts|
  {
    if parts != [] {
      assert parts[0] in parts;
      JoinChars(parts[1..], sep, c);
    }
  }

  /** A separator splits the text before it and the text after it on their own. */
  lemma {:induction false} SplitConcat(x: string, y: string, sep: char)
    ensures Split(x + [sep] + y, sep) == Split(x, sep) + Split(y, sep)
    decreases |x|
  {
    var i := IndexOf(x, sep);
    if i == |x| {
      SplitFirst(x, y, sep);
    } else {
      var rest := x[i+1..];
      assert x == x[..i] + [sep] + rest;
      assert x + [sep] + y == x[..i] + [sep] + (rest + [sep] + y);
      SplitFirst(x[..i], rest + [sep] + y, sep);
      SplitConcat(rest, y, sep);
      assert [x[..i]] + (Split(rest, sep) + Split(y, sep)) == [x[..i]] + Split(rest, sep) + Split(y, sep);
    }
  }

  lemma {:induction false} JoinConcat(ps: seq<string>, qs: seq<string>, sep: char)
    requires ps != [] && qs != []
    ensures Join(ps + qs, sep) == Join(ps, sep) + [sep] + Join(qs, sep)
    decreases |ps|
  {
    assert (ps + qs)[1..] == ps[1..] + qs;
    if |ps| > 1 {
      JoinConcat(ps[1..], qs, sep);
      assert ps[0] + [sep] + (Join(ps[1..], sep) + [sep] + Join(qs, sep))
          == ps[0] + [sep] + Join(ps[1..], sep) + [sep] + Join(qs, sep);
    }
  }

  lemma {:induction false} LexTotal(a: string, b: string)
    ensures (if LexLess(a, b) then 1 else 0) + (if a == b then 1 else 0) + (if LexLess(b, a) then 1 else 0) == 1
    decreases |a|
  {
    if a != "" && b != "" {
      LexTotal(a[1..], b[1..]);
      assert a == [a[0]] + a[1..] && b == [b[0]] + b[1..];
    }
  }

  lemma {:induction false} LexTransitive(a: string, b: string, c: string)
    requires LexLess(a, b) && LexLess(b, c)
    ensures LexLess(a, c)
    decreases |a|
  {
    if a != "" && a[0] == b[0] == c[0] {
      LexTransitive(a[1..], b[1..], c[1..]);
    }
  }

  lemma Regroup(x: string, y: string, z: string, t: string)
    ensures x + (y + z + t) == (x + y) + z + t && x + y + z + t == x + y + (z + t)
  {
  }

  /** Trimming takes white space off both ends, and all of it. */
  lemma {:induction false} TrimMeans(s: string) returns (before: string, after: string)
    ensures s == before + Trim(s) + after && IsBlank(before) && IsBlank(after)
    ensures Trim(s) != "" ==> Trim(s)[0] !in WHITESPACE && Trim(s)[|Trim(s)|-1] !in WHITESPACE
    decreases |s|
  {
    if s != "" && s[0] in WHITESPACE {
      before, after := TrimMeans(s[1..]);
      Regroup([s[0]], before, Trim(s), after);
      before := [s[0]] + before;
    } else if s != "" && s[|s|-1] in WHITESPACE {
      before, after := TrimMeans(s[..|s|-1]);
      Regroup(before, Trim(s), after, [s[|s|-1]]);
      after := after + [s[|s|-1]];
    } else {
      before, after := "", "";
    }
  }
}
