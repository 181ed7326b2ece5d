/**
 Lexical path roots of backend/app/agent_capabilities/policy.py: normalization without touching the
 file system, and containment by separator-bounded prefixes.  Unicode case folding is the parameter
 `fold`, applied character by character.
 */
module PathPolicy {
  import opened Prelude
  import opened Strings

  datatype Platform = Posix | Windows

  datatype Reason = InvalidInput | AmbiguousInput

  /** A normalized root, or a normalized request: the two carry the same data. */
  datatype Root = Root(platform: Platform, path: string)

  type CaseFold = char -> string

  // ---------------------------------------------------------------- normalization

  const CONTROL: set<char> := {'\n', '\r', '\0'}
  const EXPANSION: set<char> := {'~', '$', '%', '*', '?', '[', ']'}

  predicate HasAny(s: string, chars: set<char>) {
    exists c <- s :: c in chars
  }

  /** Drops empty and "." components; ".." removes the component before it, if there is one. */
  function Resolve(done: seq<string>, parts: seq<string>): seq<string>
    decreases |parts|
  {
    if parts == [] then done
    else if parts[0] == "" || parts[0] == "." then Resolve(done, parts[1..])
    else if parts[0] == ".." then Resolve(if done == [] then done else done[..|done|-1], parts[1..])
    else Resolve(done + [parts[0]], parts[1..])
  }

  /** `normpath` of the absolute path `anchor` + `tail`, `tail` starting with a separator. */
  function Normal(anchor: string, tail: string, sep: char): string {
    anchor + [sep] + Join(Resolve([], Split(tail, sep)), sep)
  }

  function Backslashed(s: string): string {
    seq(|s|, i requires 0 <= i < |s| => if s[i] == '/' then '\\' else s[i])
  }

  /** Length of `server\share` at the start of the rest of a UNC path. */
  function ShareLength(s: string): (n: nat)
    ensures n <= |s|
  {
    var server := IndexOf(s, '\\');
    if server == |s| then |s| else server + 1 + IndexOf(s[server+1..], '\\')
  }

  /** Length of the drive of `ntpath.splitdrive`, once slashes are backslashes; 0 without one. */
  function DriveLength(s: string): (n: nat)
    ensures n <= |s|
  {
    if |s| < 2 then 0
    else if s[..2] == "\\\\" then 2 + ShareLength(s[2..])
    else if s[1] == ':' then 2
    else 0
  }

  /** The non-empty parts after the two backslashes of a UNC path. */
  function UncParts(parts: seq<string>): nat {
    if parts == [] then 0 else (if parts[0] == "" then 0 else 1) + UncParts(parts[1..])
  }

  predicate DevicePath(s: string) {
    "\\\\?\\" <= s || "\\\\.\\" <= s
  }

  function NormalizePathRoot(platform: Platform, raw: string): Result<string, Reason> {
    if raw == "" || HasAny(raw, CONTROL) then Err(InvalidInput)
    else if HasAny(raw, EXPANSION) then Err(AmbiguousInput)
    else if platform == Posix then
      if !("/" <= raw) || "//" <= raw || '\\' in raw then Err(AmbiguousInput)
      else Ok(Normal("", raw, '/'))
    else if DevicePath(raw) then Err(AmbiguousInput)
    else NormalizeWindows(Backslashed(raw))
  }

  function NormalizeWindows(s: string): Result<string, Reason> {
    var d := DriveLength(s);
    if d == 0 || d == |s| || s[d] != '\\' then Err(AmbiguousInput)
    else
      var n := Normal(s[..d], s[d..], '\\');
      if "\\\\" <= n && UncParts(Split(n[2..], '\\')) < 2 then Err(AmbiguousInput) else Ok(n)
  }

  // ---------------------------------------------------------------- containment

  predicate EndsWithSeparator(s: string) {
    s != "" && s[|s|-1] in {'/', '\\'}
  }

  function Prefix(anchor: string, sep: char): string {
    if EndsWithSeparator(anchor) then anchor else anchor + [sep]
  }

  /** `candidate` is `anchor` or starts with it up to a separator. */
  predicate Under(anchor: string, candidate: string, sep: char) {
    candidate == anchor || Prefix(anchor, sep) <= candidate
  }

  function Fold(fold: CaseFold, s: string): string {
    if s == "" then "" else fold(s[0]) + Fold(fold, s[1..])
  }

  function Separator(p: Platform): char {
    if p == Posix then '/' else '\\'
  }

  function Folded(fold: CaseFold, r: Root): string {
    if r.platform == Posix then r.path else Fold(fold, r.path)
  }

  predicate PathIsWithinRoot(fold: CaseFold, root: Root, request: Root) {
    && request.platform == root.platform
    && Under(Folded(fold, root), Folded(fold, request), Separator(root.platform))
  }

  lemma {:induction false} FoldAppend(fold: CaseFold, a: string, b: string)
    ensures Fold(fold, a + b) == Fold(fold, a) + Fold(fold, b)
    decreases |a|
  {
    if a == "" {
      assert a + b == b;
    } else {
      assert (a + b)[1..] == a[1..] + b;
      FoldAppend(fold, a[1..], b);
    }
  }

  /** On Windows only the case-folded texts count, on POSIX the texts themselves. */
  lemma CaseMatters(fold: CaseFold, root: Root, path: Root, root': Root, path': Root)
    requires root.platform == path.platform == root'.platform == path'.platform
    requires root.platform == Windows ==>
               Fold(fold, root.path) == Fold(fold, root'.path) && Fold(fold, path.path) == Fold(fold, path'.path)
    requires root.platform == Posix ==> root == root' && path == path'
    ensures PathIsWithinRoot(fold, root, path) == PathIsWithinRoot(fold, root', path')
  {
  }

  /** Whatever is written below a Windows root, in any case, is within it, and paths of another platform never. */
  lemma BelowWindowsRoot(fold: CaseFold, root: string, below: string, path: string)
    requires fold('\\') == "\\" && root != "" && !EndsWithSeparator(Fold(fold, root))
    requires Fold(fold, path) == Fold(fold, root + "\\" + below)
    ensures PathIsWithinRoot(fold, Root(Windows, root), Root(Windows, path))
    ensures !PathIsWithinRoot(fold, Root(Windows, root), Root(Posix, path))
  {
    FoldAppend(fold, root + "\\", below);
    FoldAppend(fold, root, "\\");
    assert Fold(fold, "\\") == "\\" + Fold(fold, "");
    assert Fold(fold, path) == Fold(fold, root) + ['\\'] + Fold(fold, below);
  }

  /** Of two anchors above one candidate, one is above the other. */
  lemma AnchorsAreComparable(a: string, b: string, c: string, sep: char)
    requires Under(a, c, sep) && Under(b, c, sep)
    ensures Under(a, b, sep) || Under(b, a, sep)
  {
    if c != a && c != b {
      if |a| == |b| {
        assert a == c[..|a|] == b;
      } else if |a| < |b| {
        assert Prefix(a, sep) == c[..|Prefix(a, sep)|] && b == c[..|b|];
        assert Prefix(a, sep) <= b;
      } else {
        assert Prefix(b, sep) == c[..|Prefix(b, sep)|] && a == c[..|a|];
        assert Prefix(b, sep) <= a;
      }
    }
  }

  // ---------------------------------------------------------------- normalizing twice

  /** A component that normalization leaves alone. */
  predicate Plain(part: string, sep: char) {
    part != "" && part != "." && part != ".." && sep !in part
  }

  lemma {:induction false} ResolveIsPlain(done: seq<string>, parts: seq<string>, sep: char)
    requires (forall p <- done :: Plain(p, sep)) && (forall p <- parts :: sep !in p)
    ensures forall p <- Resolve(done, parts) :: Plain(p, sep) && (p in done || p in parts)
    decreases |parts|
  {
    if parts != [] {
      assert parts[0] in parts;
      var next := if parts[0] == "" || parts[0] == "." then done
                  else if parts[0] == ".." then (if done == [] then done else done[..|done|-1])
                  else done + [parts[0]];
      ResolveIsPlain(next, parts[1..], sep);
    }
  }

  lemma {:induction false} ResolvePlain(done: seq<string>, parts: seq<string>, sep: char)
    requires forall p <- parts :: Plain(p, sep)
    ensures Resolve(done, parts) == done + parts
    decreases |parts|
  {
    if parts != [] {
      assert parts[0] in parts;
      ResolvePlain(done + [parts[0]], parts[1..], sep);
      assert done + [parts[0]] + parts[1..] == done + parts;
    }
  }

  /** The components of a normalized tail are found again by splitting it. */
  lemma ResolveJoin(parts: seq<string>, sep: char)
    requires forall p <- parts :: Plain(p, sep)
    ensures Resolve([], Split([sep] + Join(parts, sep), sep)) == parts
  {
    var s := [sep] + Join(parts, sep);
    assert IndexOf(s, sep) == 0 && s[1..] == Join(parts, sep);
    assert Split(s, sep) == [""] + Split(Join(parts, sep), sep);
    if parts == [] {
      assert Split("", sep) == [""] && [""][1..] == [];
      assert Resolve([], [""] + [""]) == [];
    } else {
      SplitJoin(parts, sep);
      assert ([""] + parts)[1..] == parts;
      ResolvePlain([], parts, sep);
    }
  }

  function Components(tail: string, sep: char): seq<string> {
    Resolve([], Split(tail, sep))
  }

  lemma ComponentsArePlain(tail: string, sep: char)
    ensures forall p <- Components(tail, sep) :: Plain(p, sep) && forall c <- p :: c in tail
  {
    SplitParts(tail, sep);
    ResolveIsPlain([], Split(tail, sep), sep);
  }

  /** Normalization brings in no character but the separator, and starts with one separator only. */
  lemma NormalChars(anchor: string, tail: string, sep: char)
    ensures forall c <- Normal(anchor, tail, sep) :: c == sep || c in anchor || c in tail
    ensures var n := Normal(anchor, tail, sep)[|anchor|..]; n[0] == sep && (|n| > 1 ==> n[1] != sep)
    ensures Normal(anchor, tail, sep)[..|anchor|] == anchor
  {
    ComponentsArePlain(tail, sep);
    var parts := Components(tail, sep);
    forall c <- Normal(anchor, tail, sep) | c != sep && c !in anchor && c !in tail ensures false {
      assert forall p <- parts :: c !in p;
      JoinChars(parts, sep, c);
    }
    if parts != [] {
      assert parts[0] in parts;
      assert Join(parts, sep)[0] == parts[0][0];
    }
    assert Normal(anchor, tail, sep)[|anchor|..] == [sep] + Join(parts, sep);
  }

  lemma NormalTwice(anchor: string, tail: string, sep: char)
    ensures Normal(anchor, Normal(anchor, tail, sep)[|anchor|..], sep) == Normal(anchor, tail, sep)
  {
    ComponentsArePlain(tail, sep);
    ResolveJoin(Components(tail, sep), sep);
    assert Normal(anchor, tail, sep)[|anchor|..] == [sep] + Join(Components(tail, sep), sep);
  }

  lemma PosixTwice(raw: string)
    requires NormalizePathRoot(Posix, raw).Ok?
    ensures NormalizePathRoot(Posix, NormalizePathRoot(Posix, raw).value) == NormalizePathRoot(Posix, raw)
  {
    var n := NormalizePathRoot(Posix, raw).value;
    NormalChars("", raw, '/');
    NormalTwice("", raw, '/');
    assert n[|""|..] == n;
  }

  lemma ShareOf(server: string, share: string, rest: string)
    requires '\\' !in server && '\\' !in share && (rest == "" || rest[0] == '\\')
    ensures ShareLength(server + "\\" + share + rest) == |server| + 1 + |share|
  {
    var s := server + "\\" + share + rest;
    assert s == server + ("\\" + share + rest);
    IndexOfAppend(server, "\\" + share + rest, '\\');
    assert s[|server|+1..] == share + rest;
    IndexOfAppend(share, rest, '\\');
  }

  /** The share length depends on the share only, not on what follows it. */
  lemma ShareStays(s: string, n: string)
    requires var d := ShareLength(s); d < |s| && d < |n| && n[..d] == s[..d] && n[d] == '\\'
    ensures ShareLength(n) == ShareLength(s)
  {
    var d := ShareLength(s);
    var i := IndexOf(s, '\\');
    var share := s[i+1..][..d-i-1];
    assert s[..d] == s[..i] + "\\" + share;
    assert n == s[..i] + "\\" + share + n[d..];
    ShareOf(s[..i], share, n[d..]);
  }

  /** The drive of a normalized Windows path is the drive it was built with. */
  lemma DriveStays(s: string, n: string)
    requires var d := DriveLength(s); 0 < d < |s| && d < |n| && n[..d] == s[..d] && n[d] == '\\'
    ensures DriveLength(n) == DriveLength(s)
  {
    var d := DriveLength(s);
    assert n[..2] == n[..d][..2] && s[..2] == s[..d][..2];
    if s[..2] == "\\\\" {
      assert n[2..][..d-2] == n[..d][2..] && s[2..][..d-2] == s[..d][2..];
      assert n[2..][d-2] == n[d];
      ShareStays(s[2..], n[2..]);
    } else {
      assert s[1] == s[..2][1] && n[1] == n[..2][1];
    }
  }

  lemma BackslashedTwice(s: string)
    requires '/' !in s
    ensures Backslashed(s) == s
  {
  }

  lemma NormalizeWindowsTwice(s: string)
    requires NormalizeWindows(s).Ok?
    ensures NormalizeWindows(NormalizeWindows(s).value) == NormalizeWindows(s)
  {
    var d := DriveLength(s);
    var n := NormalizeWindows(s).value;
    NormalChars(s[..d], s[d..], '\\');
    NormalTwice(s[..d], s[d..], '\\');
    assert n[d] == n[|s[..d]|..][0];
    DriveStays(s, n);
  }

  lemma WindowsChars(raw: string)
    requires NormalizePathRoot(Windows, raw).Ok?
    ensures forall c <- NormalizePathRoot(Windows, raw).value :: c == '\\' || (c in raw && c != '/')
    ensures NormalizePathRoot(Windows, raw).value != ""
  {
    var s := Backslashed(raw);
    var d := DriveLength(s);
    NormalChars(s[..d], s[d..], '\\');
    forall c <- NormalizePathRoot(Windows, raw).value ensures c == '\\' || (c in raw && c != '/') {
      assert c == '\\' || c in s;
    }
  }

  /**
   Normalizing a normalized Windows root gives it back, except that a device path written with
   slashes gets through the first time and is refused the second.
   */
  lemma WindowsTwice(raw: string)
    requires NormalizePathRoot(Windows, raw).Ok?
    ensures var n := NormalizePathRoot(Windows, raw).value;
            NormalizePathRoot(Windows, n) == if DevicePath(n) then Err(AmbiguousInput) else Ok(n)
  {
    var n := NormalizePathRoot(Windows, raw).value;
    WindowsChars(raw);
    BackslashedTwice(n);
    NormalizeWindowsTwice(Backslashed(raw));
  }

  /** A component without a separator or a character that is refused. */
  predicate Harmless(part: string) {
    Plain(part, '\\') && '/' !in part && !HasAny(part, CONTROL) && !HasAny(part, EXPANSION)
  }

  function Device(x: string, y: string): string {
    "\\\\.\\" + x + "\\" + y
  }

  lemma DeviceSlices(x: string, y: string)
    ensures var s, d := Device(x, y), 4 + |x|;
            && |s| == d + 1 + |y| && s[..2] == "\\\\" && s[..4] == "\\\\.\\"
            && s[d..] == ['\\'] + y && s[..d] + ['\\'] + y == s
            && s[2..] == ['.'] + ['\\'] + (x + ['\\'] + y)
  {
  }

  lemma DeviceDrive(x: string, y: string)
    requires Harmless(x) && Harmless(y)
    ensures DriveLength(Device(x, y)) == 4 + |x|
  {
    DeviceSlices(x, y);
    var share, tail := Device(x, y)[2..], "\\" + y;
    assert share == "." + "\\" + x + tail;
    ShareOf(".", x, tail);
  }

  lemma DeviceSplit(x: string, y: string)
    requires Harmless(x) && Harmless(y)
    ensures Split(Device(x, y)[2..], '\\') == ["."] + ([x] + [y])
  {
    DeviceSlices(x, y);
    SplitFirst(".", x + ['\\'] + y, '\\');
    SplitFirst(x, y, '\\');
    SplitFirst(y, "", '\\');
  }

  lemma DeviceParts(x: string, y: string)
    requires x != "" && y != ""
    ensures UncParts(["."] + ([x] + [y])) == 3
  {
    assert [y][1..] == [] && UncParts([y]) == 1;
    assert (["."] + ([x] + [y]))[1..] == [x] + [y] && ([x] + [y])[1..] == [y];
  }

  lemma DeviceStays(x: string, y: string)
    requires Harmless(x) && Harmless(y)
    ensures NormalizeWindows(Device(x, y)) == Ok(Device(x, y))
  {
    DeviceSlices(x, y);
    DeviceDrive(x, y);
    DeviceSplit(x, y);
    DeviceParts(x, y);
    assert Join([y], '\\') == y;
    ResolveJoin([y], '\\');
  }

  function Slashed(x: string, y: string): string {
    "//./" + x + "/" + y
  }

  lemma SlashedBackslashed(x: string, y: string)
    requires Harmless(x) && Harmless(y)
    ensures Backslashed(Slashed(x, y)) == Device(x, y)
  {
    var s, t := Backslashed(Slashed(x, y)), Device(x, y);
    assert |s| == |t|;
    forall k | 0 <= k < |s| ensures s[k] == t[k] {
      if 4 <= k < 4 + |x| {
        assert Slashed(x, y)[k] == x[k-4] && x[k-4] in x;
      } else if k >= 5 + |x| {
        assert Slashed(x, y)[k] == y[k-5-|x|] && y[k-5-|x|] in y;
      }
    }
  }

  lemma SlashedChars(x: string, y: string)
    requires Harmless(x) && Harmless(y)
    ensures !HasAny(Slashed(x, y), CONTROL) && !HasAny(Slashed(x, y), EXPANSION)
    ensures Slashed(x, y) != "" && Slashed(x, y)[0] == '/'
  {
    forall c <- Slashed(x, y) ensures c in x || c in y || c == '/' || c == '.' {
    }
  }

  lemma NoDevicePath(raw: string)
    requires raw != "" && !HasAny(raw, CONTROL) && !HasAny(raw, EXPANSION) && raw[0] == '/'
    ensures NormalizePathRoot(Windows, raw) == NormalizeWindows(Backslashed(raw))
  {
  }

  lemma DeviceRefused(x: string, y: string)
    ensures NormalizePathRoot(Windows, Device(x, y)).Err?
  {
    DeviceSlices(x, y);
  }

  /** A device path is refused when written with backslashes, and let through with slashes. */
  lemma SlashedDevicePath(x: string, y: string)
    requires Harmless(x) && Harmless(y)
    ensures NormalizePathRoot(Windows, Slashed(x, y)) == Ok(Device(x, y))
    ensures NormalizePathRoot(Windows, Device(x, y)).Err?
  {
    var raw := Slashed(x, y);
    assert NormalizePathRoot(Windows, raw) == NormalizeWindows(Backslashed(raw)) by {
      SlashedChars(x, y);
      NoDevicePath(raw);
    }
    assert Backslashed(raw) == Device(x, y) by { SlashedBackslashed(x, y); }
    DeviceStays(x, y);
    DeviceRefused(x, y);
  }

  /** A normalized Windows root is never accepted as a POSIX path. */
  lemma WindowsRootIsNoPosixPath(raw: string)
    requires NormalizePathRoot(Windows, raw).Ok?
    ensures NormalizePathRoot(Posix, NormalizePathRoot(Windows, raw).value).Err?
  {
    var s := Backslashed(raw);
    var d := DriveLength(s);
    var n := NormalizePathRoot(Windows, raw).value;
    NormalChars(s[..d], s[d..], '\\');
    assert n[d] == n[|s[..d]|..][0];
    assert '\\' in n;
  }

  /** A normalized POSIX root passes as a Windows path exactly when its first component is a colon. */
  lemma PosixRootAsWindowsPath(raw: string)
    requires NormalizePathRoot(Posix, raw).Ok?
    ensures var n := NormalizePathRoot(Posix, raw).value;
            NormalizePathRoot(Windows, n).Ok? <==> "/:/" <= n
  {
    var n := NormalizePathRoot(Posix, raw).value;
    NormalChars("", raw, '/');
    assert n[|""|..] == n;
    forall c <- n ensures c !in CONTROL && c !in EXPANSION && c != '\\' {
      assert c == '/' || c in raw;
    }
    var s := Backslashed(n);
    if |n| > 1 {
      assert n[1] in n;
      assert s[..2] != "\\\\" by { assert s[..2][1] == s[1]; }
    }
    if "/:/" <= n {
      assert n[..3][1] == n[1] && n[..3][2] == n[2];
      NormalChars(s[..2], s[2..], '\\');
      var w := Normal(s[..2], s[2..], '\\');
      assert w[1] == w[..2][1];
    }
  }

  // ---------------------------------------------------------------- what is accepted

  /** Characters that no path root may hold: breaks, and those of expansions and globs. */
  predicate Refused(c: char) {
    c == '\n' || c == '\r' || c == '\0' || c == '~' || c == '$' || c == '%' || c == '*' || c == '?' || c == '[' || c == ']'
  }

  lemma RefusedIff(raw: string)
    ensures HasAny(raw, CONTROL) || HasAny(raw, EXPANSION) <==> exists c <- raw :: Refused(c)
  {
  }

  /** A POSIX root starts with exactly one slash and holds neither a backslash nor a refused character. */
  lemma PosixAcceptedIff(raw: string)
    ensures NormalizePathRoot(Posix, raw).Ok? <==>
              && raw != "" && raw[0] == '/' && (|raw| > 1 ==> raw[1] != '/')
              && '\\' !in raw && forall c <- raw :: !Refused(c)
  {
    RefusedIff(raw);
    if |raw| > 1 {
      assert raw[..2] == [raw[0], raw[1]];
      assert "//" <= raw <==> raw[..2] == "//";
    }
  }

  /** A path on a drive letter is accepted when a separator follows the colon. */
  lemma DrivePathAccepted(raw: string)
    requires |raw| >= 3 && raw[1] == ':' && raw[2] in {'/', '\\'} && raw[0] !in {'/', '\\'} && forall c <- raw :: !Refused(c)
    ensures NormalizePathRoot(Windows, raw).Ok?
  {
    RefusedIff(raw);
    var s := Backslashed(raw);
    assert s[0] == raw[0] && s[1] == ':' && s[2] == '\\';
    NormalChars(s[..2], s[2..], '\\');
    var n := Normal(s[..2], s[2..], '\\');
    assert n[0] == n[..2][0] == s[0];
  }

  function Unshared(server: string): string {
    "\\\\" + server + "\\" + "\\"
  }

  lemma UnsharedSlices(server: string)
    ensures var s, d := Unshared(server), 3 + |server|;
            && |s| == d + 1 && s[..2] == "\\\\" && s[d] == '\\' && s[..d] + ['\\'] == s && s[d..] == ['\\']
            && s[2..] == server + "\\" + "" + "\\" && s[2..] == server + ['\\'] + ("" + ['\\'] + "")
  {
  }

  lemma UnsharedDrive(server: string)
    requires '\\' !in server
    ensures DriveLength(Unshared(server)) == 3 + |server|
  {
    UnsharedSlices(server);
    ShareOf(server, "", "\\");
  }

  lemma UnsharedParts(server: string)
    requires server != "" && '\\' !in server
    ensures UncParts(Split(Unshared(server)[2..], '\\')) == 1
  {
    UnsharedSlices(server);
    SplitFirst(server, "" + ['\\'] + "", '\\');
    SplitFirst("", "", '\\');
    ThreeParts(server);
  }

  lemma ThreeParts(server: string)
    requires server != ""
    ensures UncParts([server] + ([""] + [""])) == 1
  {
    assert [""][1..] == [] && UncParts([""]) == 0;
    assert ([""] + [""])[1..] == [""] && ([server] + ([""] + [""]))[1..] == [""] + [""];
  }

  lemma UnsharedNormal(server: string)
    ensures var s, d := Unshared(server), 3 + |server|; Normal(s[..d], s[d..], '\\') == s
  {
    UnsharedSlices(server);
    ResolveJoin([], '\\');
    assert ['\\'] + Join([], '\\') == ['\\'];
    assert Unshared(server)[..3 + |server|] + ['\\'] + "" == Unshared(server)[..3 + |server|] + ['\\'];
  }

  /** A UNC path without a share is refused. */
  lemma UncLacksShare(server: string)
    requires server != "" && '\\' !in server
    ensures NormalizeWindows(Unshared(server)).Err?
  {
    UnsharedSlices(server);
    UnsharedDrive(server);
    UnsharedNormal(server);
    UnsharedParts(server);
  }

  // ---------------------------------------------------------------- special components

  lemma {:induction false} ResolveAppend(done: seq<string>, xs: seq<string>, ys: seq<string>)
    ensures Resolve(done, xs + ys) == Resolve(Resolve(done, xs), ys)
    decreases |xs|
  {
    if xs == [] {
      assert xs + ys == ys;
    } else {
      assert (xs + ys)[1..] == xs[1..] + ys;
      var next := if xs[0] == "" || xs[0] == "." then done
                  else if xs[0] == ".." then (if done == [] then done else done[..|done|-1])
                  else done + [xs[0]];
      ResolveAppend(next, xs[1..], ys);
    }
  }

  lemma ResolveParent(done: seq<string>, x: string)
    requires x != "" && x != "." && x != ".."
    ensures Resolve(done, [x] + [".."]) == done
  {
    assert ([x] + [".."])[1..] == [".."] && [".."][1..] == [];
    assert (done + [x])[..|done + [x]| - 1] == done;
  }

  lemma ResolveIdle(done: seq<string>, x: string)
    requires x == "" || x == "." || (x == ".." && done == [])
    ensures Resolve(done, [x]) == done
  {
    assert [x][1..] == [];
  }

  /** A component followed by ".." cancels out, wherever it stands. */
  lemma ParentRemovesComponent(a: string, x: string, b: string, sep: char)
    requires Plain(x, sep) && sep != '.'
    ensures Components(a + [sep] + (x + [sep] + (".." + [sep] + b)), sep) == Components(a + [sep] + b, sep)
  {
    SplitConcat(a, x + [sep] + (".." + [sep] + b), sep);
    SplitFirst(x, ".." + [sep] + b, sep);
    SplitFirst("..", b, sep);
    SplitConcat(a, b, sep);
    ResolveAppend([], Split(a, sep), [x] + ([".."] + Split(b, sep)));
    ResolveAppend([], Split(a, sep), Split(b, sep));
    assert [x] + ([".."] + Split(b, sep)) == [x] + [".."] + Split(b, sep);
    ResolveAppend(Components(a, sep), [x] + [".."], Split(b, sep));
    ResolveParent(Components(a, sep), x);
  }

  /** Empty components and "." are dropped, wherever they stand. */
  lemma IdleComponentsDropped(a: string, x: string, b: string, sep: char)
    requires x == "" || (x == "." && sep != '.')
    ensures Components(a + [sep] + (x + [sep] + b), sep) == Components(a + [sep] + b, sep)
  {
    SplitConcat(a, x + [sep] + b, sep);
    SplitFirst(x, b, sep);
    SplitConcat(a, b, sep);
    ResolveAppend([], Split(a, sep), [x] + Split(b, sep));
    ResolveAppend([], Split(a, sep), Split(b, sep));
    ResolveAppend(Components(a, sep), [x], Split(b, sep));
    ResolveIdle(Components(a, sep), x);
  }

  /** Above the anchor there is nothing: a leading ".." is dropped. */
  lemma NothingAboveAnchor(b: string, sep: char)
    requires sep != '.'
    ensures Components([sep] + (".." + [sep] + b), sep) == Components([sep] + b, sep)
  {
    assert [sep] + (".." + [sep] + b) == "" + [sep] + (".." + [sep] + b) && [sep] + b == "" + [sep] + b;
    SplitFirst("", ".." + [sep] + b, sep);
    SplitFirst("..", b, sep);
    SplitFirst("", b, sep);
    ResolveAppend([], [""], [".."] + Split(b, sep));
    ResolveAppend([], [""], Split(b, sep));
    ResolveAppend([], [".."], Split(b, sep));
    ResolveIdle([], "");
    ResolveIdle([], "..");
  }

  // ---------------------------------------------------------------- containment by components

  lemma {:induction false} JoinEnd(ps: seq<string>, sep: char)
    requires ps != [] && forall p <- ps :: Plain(p, sep)
    ensures Join(ps, sep) != "" && Join(ps, sep)[|Join(ps, sep)|-1] in ps[|ps|-1]
    decreases |ps|
  {
    assert ps[0] in ps;
    if |ps| > 1 {
      JoinEnd(ps[1..], sep);
    }
  }

  /** The prefix of a normalized path that containment compares with. */
  lemma NormalPrefix(ps: seq<string>)
    requires forall p <- ps :: Plain(p, '/') && '\\' !in p
    ensures Prefix("/" + Join(ps, '/'), '/') == if ps == [] then "/" else "/" + Join(ps, '/') + "/"
  {
    if ps != [] {
      JoinEnd(ps, '/');
      assert ps[|ps|-1] in ps;
    }
  }

  /** Longer component lists give paths below the shorter one. */
  lemma PartsThenUnder(ps: seq<string>, rest: seq<string>)
    requires ps != [] && rest != []
    ensures "/" + Join(ps, '/') + "/" <= "/" + Join(ps + rest, '/')
  {
    JoinConcat(ps, rest, '/');
    assert "/" + Join(ps + rest, '/') == "/" + Join(ps, '/') + "/" + Join(rest, '/');
  }

  lemma UnderThenParts(ps: seq<string>, qs: seq<string>)
    requires ps != [] && (forall p <- ps :: Plain(p, '/')) && (forall q <- qs :: Plain(q, '/'))
    requires "/" + Join(ps, '/') + "/" <= "/" + Join(qs, '/')
    ensures ps <= qs
  {
    var a, c := "/" + Join(ps, '/'), "/" + Join(qs, '/');
    if qs == [] {
      JoinEnd(ps, '/');
    } else {
      PartsOfNormal(ps);
      PartsOfNormal(qs);
      PartsOfLonger(a, c, ps, qs);
    }
  }

  lemma PartsOfLonger(a: string, c: string, ps: seq<string>, qs: seq<string>)
    requires a + "/" <= c && Split(a, '/') == [""] + ps && Split(c, '/') == [""] + qs
    ensures ps <= qs
  {
    var y := c[|a|+1..];
    assert c == a + ['/'] + y;
    SplitConcat(a, y, '/');
    assert [""] + qs == [""] + ps + Split(y, '/');
    assert forall i | 0 <= i < |ps| :: ps[i] == ([""] + ps)[i+1] && qs[i] == ([""] + qs)[i+1];
  }

  /** Below the root directory is everything. */
  lemma RootHoldsAll(qs: seq<string>)
    ensures Under("/" + Join([], '/'), "/" + Join(qs, '/'), '/')
  {
    assert "/" + Join([], '/') == "/";
  }

  lemma PartsThenWithin(ps: seq<string>, qs: seq<string>)
    requires ps != [] && ps <= qs && forall p <- ps :: Plain(p, '/') && '\\' !in p
    ensures Under("/" + Join(ps, '/'), "/" + Join(qs, '/'), '/')
  {
    NormalPrefix(ps);
    if ps != qs {
      assert qs == ps + qs[|ps|..];
      PartsThenUnder(ps, qs[|ps|..]);
    }
  }

  lemma UnderByParts(ps: seq<string>, qs: seq<string>)
    requires forall p <- ps :: Plain(p, '/') && '\\' !in p
    requires forall q <- qs :: Plain(q, '/')
    ensures Under("/" + Join(ps, '/'), "/" + Join(qs, '/'), '/') <==> ps <= qs
  {
    var a, c := "/" + Join(ps, '/'), "/" + Join(qs, '/');
    if ps == [] {
      RootHoldsAll(qs);
    } else if ps <= qs {
      PartsThenWithin(ps, qs);
    } else if c == a {
      SameParts(ps, qs);
    } else if Under(a, c, '/') {
      NormalPrefix(ps);
      UnderThenParts(ps, qs);
    }
  }

  lemma SameParts(ps: seq<string>, qs: seq<string>)
    requires (forall p <- ps :: Plain(p, '/')) && (forall q <- qs :: Plain(q, '/'))
    requires "/" + Join(ps, '/') == "/" + Join(qs, '/')
    ensures ps == qs
  {
    ResolveJoin(ps, '/');
    ResolveJoin(qs, '/');
    assert ['/'] + Join(ps, '/') == "/" + Join(ps, '/') && ['/'] + Join(qs, '/') == "/" + Join(qs, '/');
  }

  lemma PartsOfNormal(ps: seq<string>)
    requires forall p <- ps :: Plain(p, '/')
    ensures ps != [] ==> Split("/" + Join(ps, '/'), '/') == [""] + ps
  {
    if ps != [] {
      var s := "/" + Join(ps, '/');
      assert IndexOf(s, '/') == 0 && s[..0] == "" && s[1..] == Join(ps, '/');
      SplitJoin(ps, '/');
    }
  }

  /** A POSIX path is within a root exactly when the root's components begin the path's. */
  lemma PosixContainment(fold: CaseFold, root: string, path: string)
    requires NormalizePathRoot(Posix, root).Ok? && NormalizePathRoot(Posix, path).Ok?
    ensures PathIsWithinRoot(fold, Root(Posix, NormalizePathRoot(Posix, root).value),
                             Root(Posix, NormalizePathRoot(Posix, path).value))
            <==> Components(root, '/') <= Components(path, '/')
  {
    ComponentsArePlain(root, '/');
    ComponentsArePlain(path, '/');
    assert "" + ['/'] + Join(Components(root, '/'), '/') == "/" + Join(Components(root, '/'), '/');
    assert "" + ['/'] + Join(Components(path, '/'), '/') == "/" + Join(Components(path, '/'), '/');
    UnderByParts(Components(root, '/'), Components(path, '/'));
  }
}
