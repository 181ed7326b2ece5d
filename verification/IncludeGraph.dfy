/**
 `direct_pins` of scripts/check-python-locks.py: a depth-first walk over requirement files that
 include each other with `-r`, possibly in cycles, with one visited set shared by all calls.
 */
module IncludeGraph {
  import opened Prelude

  /** A resolved path. */
  type Path = string

  /** A line with its comment removed; an include names the resolved path of its target. */
  datatype Line = Blank | Include(target: Path) | Pin(package: string, version: string) | NotExact

  type FileSystem = map<Path, seq<Line>>

  type Pins = map<string, set<string>>

  /** The exceptions: an unreadable file, or a line that is no exact pin. */
  datatype Failure = Unreadable(path: Path) | MustBeExact(path: Path)

  ghost predicate Edge(fs: FileSystem, x: Path, y: Path) {
    x in fs && Include(y) in fs[x]
  }

  ghost predicate IsChain(fs: FileSystem, chain: seq<Path>) {
    chain != [] && forall i | 0 <= i < |chain| - 1 :: Edge(fs, chain[i], chain[i+1])
  }

  /** `y` is `x` itself or included by it, directly or through other files. */
  ghost predicate Reaches(fs: FileSystem, x: Path, y: Path) {
    exists chain :: IsChain(fs, chain) && chain[0] == x && chain[|chain|-1] == y
  }

  predicate Bad(fs: FileSystem, f: Path) {
    f !in fs || NotExact in fs[f]
  }

  predicate Has(pins: Pins, package: string, version: string) {
    package in pins && version in pins[package]
  }

  ghost predicate PinnedIn(fs: FileSystem, files: set<Path>, package: string, version: string) {
    exists f <- files :: f in fs && Pin(package, version) in fs[f]
  }

  /** The pins hold what the files pin, and no package without a version. */
  ghost predicate PinsOf(pins: Pins, fs: FileSystem, files: set<Path>) {
    && (forall p, v :: Has(pins, p, v) <==> PinnedIn(fs, files, p, v))
    && (forall p <- pins :: pins[p] != {})
  }

  function Versions(pins: Pins, package: string): set<string> {
    if package in pins then pins[package] else {}
  }

  /** `pins.setdefault(package, set()).update(versions)` for every item of `more`. */
  function Update(pins: Pins, more: Pins): (r: Pins)
    ensures forall p, v :: Has(r, p, v) <==> Has(pins, p, v) || Has(more, p, v)
    ensures (forall p <- pins :: pins[p] != {}) && (forall p <- more :: more[p] != {}) ==> forall p <- r :: r[p] != {}
  {
    map p <- pins.Keys + more.Keys :: Versions(pins, p) + Versions(more, p)
  }

  function Add(pins: Pins, package: string, version: string): (r: Pins)
    ensures forall p, v :: Has(r, p, v) <==> Has(pins, p, v) || (p == package && v == version)
    ensures (forall p <- pins :: pins[p] != {}) ==> forall p <- r :: r[p] != {}
  {
    pins[package := Versions(pins, package) + {version}]
  }

  lemma ReachesSelf(fs: FileSystem, x: Path)
    ensures Reaches(fs, x, x)
  {
    assert IsChain(fs, [x]) && [x][0] == x && [x][|[x]|-1] == x;
  }

  lemma ReachesThrough(fs: FileSystem, x: Path, y: Path, z: Path)
    requires Edge(fs, x, y) && Reaches(fs, y, z)
    ensures Reaches(fs, x, z)
  {
    var chain :| IsChain(fs, chain) && chain[0] == y && chain[|chain|-1] == z;
    var longer := [x] + chain;
    assert forall i | 0 <= i < |longer| - 1 :: i > 0 ==> Edge(fs, chain[i-1], chain[i]);
    assert IsChain(fs, longer) && longer[0] == x && longer[|longer|-1] == z;
  }

  ghost predicate Closed(fs: FileSystem, files: set<Path>, within: set<Path>) {
    forall x, y | x in files && Edge(fs, x, y) :: y in within
  }

  lemma {:induction false} ClosedHoldsReachable(fs: FileSystem, files: set<Path>, chain: seq<Path>)
    requires Closed(fs, files, files) && IsChain(fs, chain) && chain[0] in files
    ensures chain[|chain|-1] in files
    decreases |chain|
  {
    if |chain| > 1 {
      assert Edge(fs, chain[0], chain[1]);
      var rest := chain[1..];
      forall i | 0 <= i < |rest| - 1 ensures Edge(fs, rest[i], rest[i+1]) {
        assert rest[i] == chain[i+1] && rest[i+1] == chain[i+1+1];
      }
      ClosedHoldsReachable(fs, files, rest);
    }
  }

  class LockCheck {
    const fs: FileSystem
    /** The `seen` set, passed on to every recursive call. */
    var visited: set<Path>

    constructor (fs: FileSystem)
      ensures this.fs == fs && visited == {}
    {
      this.fs, visited := fs, {};
    }

    /** Files visited since `before`: read, free of bad lines, and all their includes visited too. */
    ghost predicate Explored(before: set<Path>, root: Path)
      reads this
    {
      && before <= visited
      && (forall f <- visited - before :: !Bad(fs, f) && Reaches(fs, root, f))
      && Closed(fs, visited - before, visited)
    }

    method DirectPins(path: Path) returns (r: Result<Pins, Failure>)
      modifies this
      ensures old(visited) <= visited && path in visited
      ensures r.Ok? ==> Explored(old(visited), path) && PinsOf(r.value, fs, visited - old(visited))
      ensures r.Err? ==> Bad(fs, r.error.path) && Reaches(fs, path, r.error.path)
      ensures r.Err? ==> (r.error.Unreadable? <==> r.error.path !in fs)
      decreases fs.Keys - visited
    {
      if path in visited {
        return Ok(map[]);
      }
      visited := visited + {path};
      ReachesSelf(fs, path);
      if path !in fs {
        return Err(Unreadable(path));
      }
      ghost var before := old(visited);
      var lines := fs[path];
      var pins: Pins := map[];
      for i := 0 to |lines|
        invariant before + {path} <= visited
        invariant NotExact !in lines[..i]
        invariant forall f <- visited - before - {path} :: !Bad(fs, f) && Reaches(fs, path, f)
        invariant Closed(fs, visited - before - {path}, visited)
        invariant forall y | Include(y) in lines[..i] :: y in visited
        invariant forall p <- pins :: pins[p] != {}
        invariant forall p, v :: Has(pins, p, v) <==>
                    Pin(p, v) in lines[..i] || PinnedIn(fs, visited - before - {path}, p, v)
      {
        ghost var sofar := visited;
        assert lines[..i+1] == lines[..i] + [lines[i]];
        match lines[i]
        case Blank =>
        case Include(target) =>
          var included := DirectPins(target);
          assert Edge(fs, path, target);
          if included.Err? {
            ReachesThrough(fs, path, target, included.error.path);
            return included;
          }
          forall f | f in visited - sofar ensures Reaches(fs, path, f) {
            ReachesThrough(fs, path, target, f);
          }
          PinnedUnion(sofar - before - {path}, visited - sofar, visited - before - {path});
          pins := Update(pins, included.value);
        case Pin(package, version) =>
          pins := Add(pins, package, version);
        case NotExact =>
          return Err(MustBeExact(path));
      }
      assert lines[..|lines|] == lines;
      PinnedUnion(visited - before - {path}, {path}, visited - before);
      return Ok(pins);
    }

    lemma PinnedUnion(a: set<Path>, b: set<Path>, c: set<Path>)
      requires c == a + b
      ensures forall p, v :: PinnedIn(fs, c, p, v) <==> PinnedIn(fs, a, p, v) || PinnedIn(fs, b, p, v)
    {
    }

    /**
     From the root, cycles included: the result is the union of the pins of exactly the files
     reachable by `-r`, and the walk fails if and only if one of them is bad.
     */
    method RootPins(root: Path) returns (r: Result<Pins, Failure>)
      requires visited == {}
      modifies this
      ensures r.Ok? <==> forall f | Reaches(fs, root, f) :: !Bad(fs, f)
      ensures r.Ok? ==> PinsOf(r.value, fs, visited) && forall f :: f in visited <==> Reaches(fs, root, f)
      ensures r.Err? ==> Bad(fs, r.error.path) && Reaches(fs, root, r.error.path)
    {
      r := DirectPins(root);
      if r.Ok? {
        assert visited - {} == visited;
        forall f | Reaches(fs, root, f) ensures f in visited {
          var chain :| IsChain(fs, chain) && chain[0] == root && chain[|chain|-1] == f;
          ClosedHoldsReachable(fs, visited, chain);
        }
      }
    }
  }

  /** The pins of a set of files are determined by the files. */
  lemma PinsAreUnique(a: Pins, b: Pins, fs: FileSystem, files: set<Path>)
    requires PinsOf(a, fs, files) && PinsOf(b, fs, files)
    ensures a == b
  {
    forall p ensures p in a <==> p in b {
      if p in a {
        var v :| v in a[p];
        assert Has(a, p, v) && Has(b, p, v);
      }
      if p in b {
        var v :| v in b[p];
        assert Has(b, p, v) && Has(a, p, v);
      }
    }
    forall p | p in a ensures a[p] == b[p] {
      assert forall v :: v in a[p] <==> Has(a, p, v);
      assert forall v :: v in b[p] <==> Has(b, p, v);
    }
  }
}
