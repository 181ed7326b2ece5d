/**
 `editDistance` and `likelySameTranscript` of desktop/src/store.ts: the two-row dynamic program, the
 recursive Levenshtein distance it computes, and the meaning of that distance as the length of a
 shortest edit script.
 */
module EditDistance {
  import opened Prelude

  /** `Math.min` of three numbers. */
  function Min3(x: nat, y: nat, z: nat): (m: nat)
    ensures m <= x && m <= y && m <= z && (m == x || m == y || m == z)
  {
    if x <= y && x <= z then x else if y <= z then y else z
  }

  function Abs(a: int): nat {
    if a >= 0 then a else -a
  }

  function Cost(c: char, d: char): nat {
    if c == d then 0 else 1
  }

  /** The Levenshtein distance of the first `i` characters of `a` and the first `j` of `b`. */
  function LevAt(a: string, b: string, i: nat, j: nat): nat
    requires i <= |a| && j <= |b|
    decreases i + j
  {
    if i == 0 then j
    else if j == 0 then i
    else Min3(LevAt(a, b, i, j-1) + 1, LevAt(a, b, i-1, j) + 1, LevAt(a, b, i-1, j-1) + Cost(a[i-1], b[j-1]))
  }

  function Lev(a: string, b: string): nat {
    LevAt(a, b, |a|, |b|)
  }

  // ---------------------------------------------------------------- the table of distances

  type Table = seq<seq<nat>>

  ghost predicate Shaped(t: Table, a: string, b: string) {
    |t| == |a| + 1 && forall i | 0 <= i <= |a| :: |t[i]| == |b| + 1
  }

  ghost predicate Cell(t: Table, a: string, b: string, i: nat, j: nat)
    requires Shaped(t, a, b) && i <= |a| && j <= |b|
  {
    t[i][j] == if i == 0 then j else if j == 0 then i
               else Min3(t[i][j-1] + 1, t[i-1][j] + 1, t[i-1][j-1] + Cost(a[i-1], b[j-1]))
  }

  ghost predicate IsTable(t: Table, a: string, b: string) {
    Shaped(t, a, b) && forall i, j | 0 <= i <= |a| && 0 <= j <= |b| :: Cell(t, a, b, i, j)
  }

  lemma LevAtUnfolds(a: string, b: string, i: nat, j: nat)
    requires 0 < i <= |a| && 0 < j <= |b|
    ensures LevAt(a, b, i, j) ==
            Min3(LevAt(a, b, i, j-1) + 1, LevAt(a, b, i-1, j) + 1, LevAt(a, b, i-1, j-1) + Cost(a[i-1], b[j-1]))
  {
  }

  /** The recursive distances of all prefixes, as a table that satisfies the recurrence. */
  lemma Distances(a: string, b: string) returns (t: Table)
    ensures IsTable(t, a, b) && t[|a|][|b|] == Lev(a, b)
  {
    t := seq(|a| + 1, i requires 0 <= i <= |a| => seq(|b| + 1, j requires 0 <= j <= |b| => LevAt(a, b, i, j)));
    forall i, j | 0 <= i <= |a| && 0 <= j <= |b| ensures Cell(t, a, b, i, j) {
      if i > 0 && j > 0 {
        LevAtUnfolds(a, b, i, j);
      }
    }
  }

  // ---------------------------------------------------------------- the two-row loop

  method Distance(a: string, b: string) returns (d: nat)
    ensures d == Lev(a, b)
  {
    ghost var t := Distances(a, b);
    assert Cell(t, a, b, |a|, |b|);
    if a == b {
      SelfAt(t, a, |a|);
      return 0;
    }
    if |a| == 0 {
      return |b|;
    }
    if |b| == 0 {
      return |a|;
    }
    var prev := new nat[|b| + 1](i => i);
    var curr := new nat[|b| + 1](i => 0);
    forall j | 0 <= j <= |b| ensures t[0][j] == j {
      assert Cell(t, a, b, 0, j);
    }
    for i := 1 to |a| + 1
      invariant forall j | 0 <= j <= |b| :: prev[j] == t[i-1][j]
    {
      curr[0] := i;
      assert Cell(t, a, b, i, 0);
      for j := 1 to |b| + 1
        invariant forall k | 0 <= k < j :: curr[k] == t[i][k]
        invariant forall k | 0 <= k <= |b| :: prev[k] == t[i-1][k]
      {
        var cost := if a[i-1] == b[j-1] then 0 else 1;
        assert Cell(t, a, b, i, j);
        curr[j] := Min3(curr[j-1] + 1, prev[j] + 1, prev[j-1] + cost);
      }
      for j := 0 to |b| + 1
        invariant forall k | 0 <= k < j :: prev[k] == t[i][k]
        invariant forall k | 0 <= k <= |b| :: curr[k] == t[i][k]
      {
        prev[j] := curr[j];
      }
    }
    return prev[|b|];
  }

  // ---------------------------------------------------------------- a metric

  lemma {:induction false} SelfAt(t: Table, a: string, i: nat)
    requires IsTable(t, a, a) && i <= |a|
    ensures t[i][i] == 0
    decreases i
  {
    assert Cell(t, a, a, i, i);
    if i > 0 {
      SelfAt(t, a, i - 1);
    }
  }

  lemma {:induction false} ZeroAt(t: Table, a: string, b: string, i: nat, j: nat)
    requires IsTable(t, a, b) && i <= |a| && j <= |b| && t[i][j] == 0
    ensures i == j && forall k | 0 <= k < i :: a[k] == b[k]
    decreases i
  {
    assert Cell(t, a, b, i, j);
    if i > 0 && j > 0 {
      ZeroAt(t, a, b, i - 1, j - 1);
    }
  }

  lemma ZeroIffEqual(a: string, b: string)
    ensures Lev(a, b) == 0 <==> a == b
  {
    var t := Distances(a, b);
    if a == b {
      SelfAt(t, a, |a|);
    }
    if t[|a|][|b|] == 0 {
      ZeroAt(t, a, b, |a|, |b|);
    }
  }

  lemma {:induction false} SymmetricAt(t: Table, u: Table, a: string, b: string, i: nat, j: nat)
    requires IsTable(t, a, b) && IsTable(u, b, a) && i <= |a| && j <= |b|
    ensures t[i][j] == u[j][i]
    decreases i + j
  {
    assert Cell(t, a, b, i, j) && Cell(u, b, a, j, i);
    if i > 0 && j > 0 {
      SymmetricAt(t, u, a, b, i, j - 1);
      SymmetricAt(t, u, a, b, i - 1, j);
      SymmetricAt(t, u, a, b, i - 1, j - 1);
    }
  }

  lemma Symmetric(a: string, b: string)
    ensures Lev(a, b) == Lev(b, a)
  {
    var t := Distances(a, b);
    var u := Distances(b, a);
    SymmetricAt(t, u, a, b, |a|, |b|);
  }

  lemma {:induction false} BoundsAt(t: Table, a: string, b: string, i: nat, j: nat)
    requires IsTable(t, a, b) && i <= |a| && j <= |b|
    ensures Abs(i - j) <= t[i][j] <= Max(i, j)
    decreases i + j
  {
    assert Cell(t, a, b, i, j);
    if i > 0 && j > 0 {
      BoundsAt(t, a, b, i, j - 1);
      BoundsAt(t, a, b, i - 1, j);
      BoundsAt(t, a, b, i - 1, j - 1);
    }
  }

  /** The distance lies between the difference of the lengths and the longer length. */
  lemma Bounds(a: string, b: string)
    ensures Abs(|a| - |b|) <= Lev(a, b) <= Max(|a|, |b|)
  {
    var t := Distances(a, b);
    BoundsAt(t, a, b, |a|, |b|);
  }

  lemma {:induction false} TriangleAt(ab: Table, bc: Table, ac: Table, a: string, b: string, c: string, i: nat, j: nat, k: nat)
    requires IsTable(ab, a, b) && IsTable(bc, b, c) && IsTable(ac, a, c)
    requires i <= |a| && j <= |b| && k <= |c|
    ensures ac[i][k] <= ab[i][j] + bc[j][k]
    decreases i + j + k
  {
    assert Cell(ab, a, b, i, j) && Cell(bc, b, c, j, k) && Cell(ac, a, c, i, k);
    if i == 0 || j == 0 || k == 0 {
      BoundsAt(ab, a, b, i, j);
      BoundsAt(bc, b, c, j, k);
      BoundsAt(ac, a, c, i, k);
    } else if ab[i][j] == ab[i-1][j] + 1 {
      TriangleAt(ab, bc, ac, a, b, c, i - 1, j, k);
    } else if bc[j][k] == bc[j][k-1] + 1 {
      TriangleAt(ab, bc, ac, a, b, c, i, j, k - 1);
    } else if ab[i][j] == ab[i][j-1] + 1 && bc[j][k] == bc[j-1][k] + 1 {
      TriangleAt(ab, bc, ac, a, b, c, i, j - 1, k);
    } else if ab[i][j] == ab[i][j-1] + 1 {
      TriangleAt(ab, bc, ac, a, b, c, i, j - 1, k - 1);
    } else if bc[j][k] == bc[j-1][k] + 1 {
      TriangleAt(ab, bc, ac, a, b, c, i - 1, j - 1, k);
    } else {
      TriangleAt(ab, bc, ac, a, b, c, i - 1, j - 1, k - 1);
    }
  }

  lemma Triangle(a: string, b: string, c: string)
    ensures Lev(a, c) <= Lev(a, b) + Lev(b, c)
  {
    var ab := Distances(a, b);
    var bc := Distances(b, c);
    var ac := Distances(a, c);
    TriangleAt(ab, bc, ac, a, b, c, |a|, |b|, |c|);
  }

  // ---------------------------------------------------------------- shortest edit scripts

  datatype Edit = Insert(at: nat, c: char) | Delete(at: nat) | Replace(at: nat, c: char)

  predicate Applicable(e: Edit, s: string) {
    if e.Insert? then e.at <= |s| else e.at < |s|
  }

  function Apply(e: Edit, s: string): string
    requires Applicable(e, s)
  {
    match e
    case Insert(i, c) => s[..i] + [c] + s[i..]
    case Delete(i) => s[..i] + s[i+1..]
    case Replace(i, c) => s[..i] + [c] + s[i+1..]
  }

  /** `script` turns `a` into `b`, one character at a time. */
  ghost predicate Turns(script: seq<Edit>, a: string, b: string)
    decreases |script|
  {
    if script == [] then a == b
    else Applicable(script[0], a) && Turns(script[1..], Apply(script[0], a), b)
  }

  /** Only the compared prefixes matter. */
  lemma {:induction false} SameCells(t: Table, a: string, b: string, u: Table, x: string, y: string, i: nat, j: nat)
    requires IsTable(t, a, b) && IsTable(u, x, y) && a <= x && b <= y && i <= |a| && j <= |b|
    ensures t[i][j] == u[i][j]
    decreases i + j
  {
    assert Cell(t, a, b, i, j) && Cell(u, x, y, i, j);
    if i > 0 && j > 0 {
      SameCells(t, a, b, u, x, y, i, j - 1);
      SameCells(t, a, b, u, x, y, i - 1, j);
      SameCells(t, a, b, u, x, y, i - 1, j - 1);
    }
  }

  lemma {:induction false} SuffixAt(u: Table, a: string, b: string, s: string, n: nat)
    requires IsTable(u, a + s, b + s) && n <= |s|
    ensures u[|a| + n][|b| + n] <= u[|a|][|b|]
    decreases n
  {
    if n > 0 {
      SuffixAt(u, a, b, s, n - 1);
      assert Cell(u, a + s, b + s, |a| + n, |b| + n);
      assert (a + s)[|a|+n-1] == (b + s)[|b|+n-1];
    }
  }

  /** A common suffix does not increase the distance. */
  lemma LevCommonSuffix(a: string, b: string, s: string)
    ensures Lev(a + s, b + s) <= Lev(a, b)
  {
    var t := Distances(a, b);
    var u := Distances(a + s, b + s);
    SameCells(t, a, b, u, a + s, b + s, |a|, |b|);
    SuffixAt(u, a, b, s, |s|);
  }

  /** Distances of a string extended by one character. */
  lemma LastEditAt(t: Table, s: string, x: string, y: string)
    requires IsTable(t, s + x, s + y) && |x| <= 1 && |y| <= 1
    ensures t[|s + x|][|s + y|] <= 1
  {
    var e := Distances(s, s);
    SelfAt(e, s, |s|);
    SameCells(e, s, s, t, s + x, s + y, |s|, |s|);
    assert Cell(t, s + x, s + y, |s + x|, |s + y|);
    assert |x| == 0 && |y| == 1 && |s| == 0 ==> t[0][1] <= 1;
  }

  /** Changing, adding or removing the last character costs at most one. */
  lemma LastEdit(s: string, x: string, y: string)
    requires |x| <= 1 && |y| <= 1
    ensures Lev(s + x, s + y) <= 1
  {
    var t := Distances(s + x, s + y);
    LastEditAt(t, s, x, y);
  }

  lemma OneEdit(e: Edit, s: string)
    requires Applicable(e, s)
    ensures Lev(s, Apply(e, s)) <= 1
  {
    match e
    case Insert(i, c) => OneInsertion(s[..i], s[i..], c); assert s[..i] + s[i..] == s;
    case Delete(i) => OneDeletion(s[..i], s[i+1..], s[i]); assert s[..i] + [s[i]] + s[i+1..] == s;
    case Replace(i, c) => OneReplacement(s[..i], s[i+1..], s[i], c); assert s[..i] + [s[i]] + s[i+1..] == s;
  }

  lemma OneInsertion(x: string, y: string, c: char)
    ensures Lev(x + y, x + [c] + y) <= 1
  {
    LastEdit(x, "", [c]);
    LevCommonSuffix(x + "", x + [c], y);
    assert x + "" == x;
  }

  lemma OneDeletion(x: string, y: string, c: char)
    ensures Lev(x + [c] + y, x + y) <= 1
  {
    LastEdit(x, [c], "");
    LevCommonSuffix(x + [c], x + "", y);
    assert x + "" == x;
  }

  lemma OneReplacement(x: string, y: string, c: char, d: char)
    ensures Lev(x + [c] + y, x + [d] + y) <= 1
  {
    LastEdit(x, [c], [d]);
    LevCommonSuffix(x + [c], x + [d], y);
  }

  /** No script is shorter than the distance. */
  lemma {:induction false} ScriptsAreLong(script: seq<Edit>, a: string, b: string)
    requires Turns(script, a, b)
    ensures Lev(a, b) <= |script|
    decreases |script|
  {
    if script == [] {
      ZeroIffEqual(a, b);
    } else {
      var a' := Apply(script[0], a);
      OneEdit(script[0], a);
      ScriptsAreLong(script[1..], a', b);
      Triangle(a, a', b);
    }
  }

  lemma {:induction false} TurnsConcat(s: seq<Edit>, t: seq<Edit>, a: string, b: string, c: string)
    requires Turns(s, a, b) && Turns(t, b, c)
    ensures Turns(s + t, a, c)
    decreases |s|
  {
    if s == [] {
      assert s + t == t;
    } else {
      assert (s + t)[0] == s[0];
      assert (s + t)[1..] == s[1..] + t;
      TurnsConcat(s[1..], t, Apply(s[0], a), b, c);
    }
  }

  lemma ApplyAppend(e: Edit, a: string, c: char)
    requires Applicable(e, a)
    ensures Apply(e, a + [c]) == Apply(e, a) + [c]
  {
    assert (a + [c])[..e.at] == a[..e.at];
    if e.Insert? {
      assert (a + [c])[e.at..] == a[e.at..] + [c];
    } else {
      assert (a + [c])[e.at+1..] == a[e.at+1..] + [c];
    }
  }

  /** A script goes on working when a character is appended to both strings. */
  lemma {:induction false} TurnsAppend(s: seq<Edit>, a: string, b: string, c: char)
    requires Turns(s, a, b)
    ensures Turns(s, a + [c], b + [c])
    decreases |s|
  {
    if s != [] {
      TurnsAppend(s[1..], Apply(s[0], a), b, c);
      ApplyAppend(s[0], a, c);
    }
  }

  /** `script` followed by one more edit. */
  lemma TurnsThen(script: seq<Edit>, a: string, b: string, e: Edit, c: string)
    requires Turns(script, a, b) && Applicable(e, b) && Apply(e, b) == c
    ensures Turns(script + [e], a, c)
  {
    assert Turns([e], b, c);
    TurnsConcat(script, [e], a, b, c);
  }

  lemma AppendLast(b: string, j: nat)
    requires 0 < j <= |b|
    ensures b[..j] == b[..j-1] + [b[j-1]]
    ensures Apply(Insert(j - 1, b[j-1]), b[..j-1]) == b[..j]
    ensures Apply(Delete(j - 1), b[..j]) == b[..j-1]
    ensures forall c :: Apply(Replace(j - 1, b[j-1]), b[..j-1] + [c]) == b[..j]
  {
    forall c ensures Apply(Replace(j - 1, b[j-1]), b[..j-1] + [c]) == b[..j] {
      assert (b[..j-1] + [c])[..j-1] == b[..j-1] && (b[..j-1] + [c])[j..] == "";
    }
  }

  lemma InsertLast(script: seq<Edit>, x: string, b: string, j: nat) returns (longer: seq<Edit>)
    requires 0 < j <= |b| && Turns(script, x, b[..j-1])
    ensures Turns(longer, x, b[..j]) && |longer| == |script| + 1
  {
    AppendLast(b, j);
    TurnsThen(script, x, b[..j-1], Insert(j - 1, b[j-1]), b[..j]);
    longer := script + [Insert(j - 1, b[j-1])];
  }

  lemma DeleteFirst(script: seq<Edit>, a: string, i: nat, y: string) returns (longer: seq<Edit>)
    requires 0 < i <= |a| && Turns(script, a[..i-1], y)
    ensures Turns(longer, a[..i], y) && |longer| == |script| + 1
  {
    AppendLast(a, i);
    longer := [Delete(i - 1)] + script;
    assert longer[1..] == script;
  }

  /** A script for shorter prefixes, extended by a replacement of the last character if needed. */
  lemma MatchLast(script: seq<Edit>, a: string, b: string, i: nat, j: nat) returns (longer: seq<Edit>)
    requires 0 < i <= |a| && 0 < j <= |b| && Turns(script, a[..i-1], b[..j-1])
    ensures Turns(longer, a[..i], b[..j]) && |longer| == |script| + Cost(a[i-1], b[j-1])
  {
    TurnsAppend(script, a[..i-1], b[..j-1], a[i-1]);
    AppendLast(a, i);
    AppendLast(b, j);
    longer := script;
    if a[i-1] != b[j-1] {
      TurnsThen(script, a[..i], b[..j-1] + [a[i-1]], Replace(j - 1, b[j-1]), b[..j]);
      longer := script + [Replace(j - 1, b[j-1])];
    }
  }

  datatype Move = Extend | Shorten | Both

  /** The last move of a shortest script between two prefixes. */
  lemma LastMove(t: Table, a: string, b: string, i: nat, j: nat) returns (m: Move)
    requires IsTable(t, a, b) && i <= |a| && j <= |b| && i + j > 0
    ensures m.Extend? ==> j > 0 && t[i][j] == t[i][j-1] + 1
    ensures m.Shorten? ==> i > 0 && t[i][j] == t[i-1][j] + 1
    ensures m.Both? ==> i > 0 && j > 0 && t[i][j] == t[i-1][j-1] + Cost(a[i-1], b[j-1])
  {
    assert Cell(t, a, b, i, j);
    if i == 0 {
      assert Cell(t, a, b, i, j - 1);
      return Extend;
    }
    if j == 0 {
      assert Cell(t, a, b, i - 1, j);
      return Shorten;
    }
    m := if t[i][j] == t[i][j-1] + 1 then Extend else if t[i][j] == t[i-1][j] + 1 then Shorten else Both;
  }

  /** Some script between two prefixes has exactly their distance as its length. */
  lemma {:induction false} ShortestScriptAt(t: Table, a: string, b: string, i: nat, j: nat) returns (script: seq<Edit>)
    requires IsTable(t, a, b) && i <= |a| && j <= |b|
    ensures Turns(script, a[..i], b[..j]) && |script| == t[i][j]
    decreases i + j
  {
    if i + j == 0 {
      assert Cell(t, a, b, 0, 0);
      return [];
    }
    var m := LastMove(t, a, b, i, j);
    match m
    case Extend =>
      script := ShortestScriptAt(t, a, b, i, j - 1);
      script := InsertLast(script, a[..i], b, j);
    case Shorten =>
      script := ShortestScriptAt(t, a, b, i - 1, j);
      script := DeleteFirst(script, a, i, b[..j]);
    case Both =>
      script := ShortestScriptAt(t, a, b, i - 1, j - 1);
      script := MatchLast(script, a, b, i, j);
  }

  lemma ShortestScript(a: string, b: string) returns (script: seq<Edit>)
    ensures Turns(script, a, b) && |script| == Lev(a, b)
  {
    var t := Distances(a, b);
    script := ShortestScriptAt(t, a, b, |a|, |b|);
    assert a[..|a|] == a && b[..|b|] == b;
  }

  /** The distance is the least number of single-character edits from one string to the other. */
  lemma DistanceIsShortestScript(a: string, b: string, n: nat)
    ensures Lev(a, b) <= n <==> exists script :: Turns(script, a, b) && |script| <= n
  {
    var shortest := ShortestScript(a, b);
    forall script | Turns(script, a, b) && |script| <= n ensures Lev(a, b) <= n {
      ScriptsAreLong(script, a, b);
    }
  }

  // ---------------------------------------------------------------- similarity

  predicate Includes(s: string, t: string) {
    exists i | 0 <= i <= |s| - |t| :: t <= s[i..]
  }

  function Similarity(a: string, b: string): real
    requires a != "" && b != ""
  {
    1.0 - Lev(a, b) as real / Max(|a|, |b|) as real
  }

  predicate LikelySame(a: string, b: string) {
    var shorter := if |a| <= |b| then a else b;
    var longer := if |a| > |b| then a else b;
    && a != "" && b != ""
    && (|| a == b
        || (|shorter| >= 8 && Includes(longer, shorter))
        || (|longer| <= 80 && Similarity(a, b) >= 0.82))
  }

  method LikelySameTranscript(a: string, b: string) returns (same: bool)
    ensures same == LikelySame(a, b)
  {
    if a == "" || b == "" {
      return false;
    }
    if a == b {
      return true;
    }
    var shorter := if |a| <= |b| then a else b;
    var longer := if |a| > |b| then a else b;
    if |shorter| >= 8 && Includes(longer, shorter) {
      return true;
    }
    if |longer| > 80 {
      return false;
    }
    var distance := Distance(a, b);
    var similarity := 1.0 - distance as real / Max(|a|, |b|) as real;
    return similarity >= 0.82;
  }

  lemma Ratio(d: real, m: real)
    requires 0.0 <= d <= m && m > 0.0
    ensures 0.0 <= d / m <= 1.0 && (d / m == 0.0 <==> d == 0.0) && (d / m <= 0.18 <==> d <= 0.18 * m)
  {
    RatioAtMost(d, m, 0.0);
    RatioAtMost(-d, m, 0.0);
    RatioAtMost(d, m, 1.0);
    RatioAtMost(d, m, 0.18);
    assert -d / m == -(d / m);
  }

  /** The similarity is a number in the unit interval, and 1 for equal strings only. */
  lemma SimilarityInUnitInterval(a: string, b: string)
    requires a != "" && b != ""
    ensures 0.0 <= Similarity(a, b) <= 1.0
    ensures Similarity(a, b) == 1.0 <==> a == b
  {
    Bounds(a, b);
    ZeroIffEqual(a, b);
    Ratio(Lev(a, b) as real, Max(|a|, |b|) as real);
  }

  /** The characters of `s` from `i` on are those of `t`. */
  predicate OccursAt(t: string, s: string, i: int) {
    0 <= i <= |s| - |t| && s[i..i+|t|] == t
  }

  /**
   Likely the same: equal, or one of at least 8 characters occurs in the other, or neither is longer than
   80 and at most 18 edits per 100 characters of the longer one lead from one to the other.
   */
  lemma LikelySameIff(a: string, b: string)
    requires a != "" && b != ""
    ensures LikelySame(a, b) <==>
              || a == b
              || (8 <= |a| <= |b| && exists i :: OccursAt(a, b, i))
              || (8 <= |b| < |a| && exists i :: OccursAt(b, a, i))
              || (|a| <= 80 && |b| <= 80 && 100 * Lev(a, b) <= 18 * Max(|a|, |b|))
  {
    SimilarIffFewEdits(a, b);
    if |a| <= |b| {
      IncludesIff(b, a);
    } else {
      IncludesIff(a, b);
    }
  }

  lemma IncludesIff(s: string, t: string)
    requires |t| <= |s|
    ensures Includes(s, t) <==> exists i :: OccursAt(t, s, i)
  {
    if i :| 0 <= i <= |s| - |t| && t <= s[i..] {
      assert s[i..i+|t|] == s[i..][..|t|];
      assert OccursAt(t, s, i);
    }
    if i :| OccursAt(t, s, i) {
      assert s[i..][..|t|] == s[i..i+|t|];
    }
  }

  lemma LikelySameIsSymmetric(a: string, b: string)
    ensures LikelySame(a, b) == LikelySame(b, a)
  {
    Symmetric(a, b);
    if |a| == |b| {
      assert Includes(b, a) ==> a == b;
      assert Includes(a, b) ==> a == b;
    }
  }

  /** The threshold of 0.82 admits at most 18 edits per 100 characters of the longer string. */
  lemma SimilarIffFewEdits(a: string, b: string)
    requires a != "" && b != ""
    ensures Similarity(a, b) >= 0.82 <==> 100 * Lev(a, b) <= 18 * Max(|a|, |b|)
  {
    Bounds(a, b);
    Ratio(Lev(a, b) as real, Max(|a|, |b|) as real);
  }
}
