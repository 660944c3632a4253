/**
  The dependency scan of dictionary headers: a recursive traversal of include directives that shares
  one growing set of files.
*/
module ScanDictDeps {
  import opened Common

  /** Regular files with the names they include, in order, and directories. */
  datatype FileSystem = FileSystem(files: map<string, seq<string>>, dirs: set<string>)

  predicate Exists(fs: FileSystem, path: string) {
    path in fs.files || path in fs.dirs
  }

  predicate IsAbs(path: string) {
    path != "" && path[0] == '/'
  }

  function JoinPath(d: string, f: string): string {
    if IsAbs(f) then f else if d == "" || d[|d| - 1] == '/' then d + f else d + "/" + f
  }

  /** An absolute name is taken as it is; a relative one is looked up along the search path. */
  function FindFile(fs: FileSystem, filename: string, searchpath: seq<string>): (r: Option<string>)
    ensures r.Some? ==> Exists(fs, r.value)
  {
    if IsAbs(filename) then (if Exists(fs, filename) then Some(filename) else None)
    else FindRelative(fs, filename, searchpath)
  }

  function FindRelative(fs: FileSystem, filename: string, searchpath: seq<string>): (r: Option<string>)
    ensures r.Some? ==> Exists(fs, r.value)
  {
    if searchpath == [] then None
    else if Exists(fs, JoinPath(searchpath[0], filename)) then Some(JoinPath(searchpath[0], filename))
    else FindRelative(fs, filename, searchpath[1..])
  }

  /** The path of a name in a directory, with a slash between them unless the directory is empty or ends in one. */
  ghost function PathIn(directory: string, filename: string): string {
    directory + (if directory == "" || directory[|directory| - 1] == '/' then "" else "/") + filename
  }

  ghost predicate Has(fs: FileSystem, directory: string, filename: string) {
    PathIn(directory, filename) in fs.files.Keys + fs.dirs
  }

  /** The directory at i is the first of the search path that has the file. */
  ghost predicate FirstWith(fs: FileSystem, filename: string, searchpath: seq<string>, i: nat) {
    i < |searchpath| && Has(fs, searchpath[i], filename) && forall j :: 0 <= j < i ==> !Has(fs, searchpath[j], filename)
  }

  /**
    A relative name is found in the first directory of the search path that has it, and not found if and only if
    none has; an absolute name stands for itself if there is such a file.
  */
  lemma {:induction false} FoundInFirst(fs: FileSystem, filename: string, searchpath: seq<string>)
    ensures var found := FindFile(fs, filename, searchpath);
            if IsAbs(filename) then
              found == if filename in fs.files.Keys + fs.dirs then Some(filename) else None
            else
              && (found.None? <==> forall d :: d in searchpath ==> !Has(fs, d, filename))
              && (found.Some? ==> exists i: nat :: FirstWith(fs, filename, searchpath, i)
                                                   && found.value == PathIn(searchpath[i], filename))
  {
    if !IsAbs(filename) && searchpath != [] {
      var rest, d := searchpath[1..], searchpath[0];
      assert d + "" == d;
      assert PathIn(d, filename) == JoinPath(d, filename);
      FoundInFirst(fs, filename, rest);
      assert forall e :: e in searchpath <==> e == d || e in rest;
      if Has(fs, d, filename) {
        assert FirstWith(fs, filename, searchpath, 0);
      } else if FindFile(fs, filename, rest).Some? {
        var i: nat :| FirstWith(fs, filename, rest, i)
                      && FindFile(fs, filename, rest).value == PathIn(rest[i], filename);
        assert forall j :: 0 < j <= i ==> searchpath[j] == rest[j - 1];
        assert FirstWith(fs, filename, searchpath, i + 1);
      }
    }
  }

  /** The file that an included name stands for; directories are passed over. */
  function Target(fs: FileSystem, searchpath: seq<string>, name: string): Option<string> {
    var f := FindFile(fs, name, searchpath);
    if f.Some? && f.value != "" && f.value !in fs.dirs then f else None
  }

  /** The files that an opened file includes. */
  ghost predicate Includes(fs: FileSystem, searchpath: seq<string>, path: string, f: string) {
    path in fs.files && exists i :: 0 <= i < |fs.files[path]| && Target(fs, searchpath, fs.files[path][i]) == Some(f)
  }

  /** What the scan reads for a name: the includes of the file that the name is looked up as. */
  ghost predicate Reads(fs: FileSystem, searchpath: seq<string>, name: string, f: string) {
    var path := FindFile(fs, name, searchpath);
    path.Some? && path.value != "" && Includes(fs, searchpath, path.value, f)
  }

  ghost predicate ReadsWithin(fs: FileSystem, searchpath: seq<string>, name: string, s: set<string>) {
    forall f :: Reads(fs, searchpath, name, f) ==> f in s
  }

  ghost predicate ClosedUnderReads(fs: FileSystem, searchpath: seq<string>, s: set<string>) {
    forall x :: x in s ==> ReadsWithin(fs, searchpath, x, s)
  }

  /** Opening a directory raises. */
  predicate Unopenable(fs: FileSystem, searchpath: seq<string>, name: string) {
    var path := FindFile(fs, name, searchpath);
    path.Some? && path.value != "" && path.value in fs.dirs
  }

  ghost predicate GoodFileSystem(fs: FileSystem) {
    forall p :: p in fs.files ==> p !in fs.dirs
  }

  /** The set holds what is read for the names and for its own members. */
  ghost predicate Suffices(fs: FileSystem, searchpath: seq<string>, names: seq<string>, s: set<string>) {
    ClosedUnderReads(fs, searchpath, s) && forall k :: 0 <= k < |names| ==> ReadsWithin(fs, searchpath, names[k], s)
  }

  /** The scan of a name adds nothing that is not needed. */
  ghost predicate OnlyNeeded(fs: FileSystem, searchpath: seq<string>, before: set<string>, name: string,
                             deps: set<string>) {
    forall s :: ClosedUnderReads(fs, searchpath, s) && before <= s && ReadsWithin(fs, searchpath, name, s) ==> deps <= s
  }

  /** What was added is completely scanned. */
  ghost predicate AddedScanned(fs: FileSystem, searchpath: seq<string>, before: set<string>, deps: set<string>) {
    forall x :: x in deps && x !in before ==> ReadsWithin(fs, searchpath, x, deps) && !Unopenable(fs, searchpath, x)
  }

  /** Scanning one include more. */
  lemma IncludeNeeded(fs: FileSystem, searchpath: seq<string>, before: set<string>, name: string, deps: set<string>,
                      included: string, later: set<string>)
    requires OnlyNeeded(fs, searchpath, before, name, deps) && Reads(fs, searchpath, name, included)
    requires OnlyNeeded(fs, searchpath, deps + {included}, included, later)
    ensures OnlyNeeded(fs, searchpath, before, name, later)
  {
  }

  lemma IncludeScanned(fs: FileSystem, searchpath: seq<string>, before: set<string>, deps: set<string>,
                       included: string, later: set<string>)
    requires AddedScanned(fs, searchpath, before, deps) && deps <= later
    requires AddedScanned(fs, searchpath, deps + {included}, later)
    requires ReadsWithin(fs, searchpath, included, later) && !Unopenable(fs, searchpath, included)
    ensures AddedScanned(fs, searchpath, before, later)
  {
    forall x | x in later && x !in before
      ensures ReadsWithin(fs, searchpath, x, later) && !Unopenable(fs, searchpath, x)
    {
    }
  }

  lemma SufficesLess(fs: FileSystem, searchpath: seq<string>, names: seq<string>, n: nat, s: set<string>)
    requires n < |names| && Suffices(fs, searchpath, names[..n + 1], s)
    ensures Suffices(fs, searchpath, names[..n], s) && ReadsWithin(fs, searchpath, names[n], s)
  {
    assert names[..n + 1][n] == names[n];
    assert forall k :: 0 <= k < n ==> names[..n + 1][k] == names[..n][k];
  }

  class Scan {
    const fs: FileSystem
    const searchpath: seq<string>
    var deps: set<string>

    constructor (fs: FileSystem, searchpath: seq<string>)
      ensures this.fs == fs && this.searchpath == searchpath && deps == {}
    {
      this.fs, this.searchpath, deps := fs, searchpath, {};
    }

    /** The list comprehension: resolved includes that are not known yet, looked at before the recursion. */
    method NewIncludes(path: string) returns (list: seq<string>)
      requires path in fs.files
      ensures forall f :: f in list <==> Includes(fs, searchpath, path, f) && f !in deps
    {
      var names := fs.files[path];
      list := [];
      for i := 0 to |names|
        invariant forall f :: f in list ==> Includes(fs, searchpath, path, f) && f !in deps
        invariant forall k :: 0 <= k < i ==>
                    var t := Target(fs, searchpath, names[k]); t.Some? ==> t.value in list || t.value in deps
      {
        var t := Target(fs, searchpath, names[i]);
        if t.Some? && t.value !in deps {
          list := list + [t.value];
        }
      }
    }

    /**
      Adds what the file includes, directly and indirectly, to the shared set; raises when it meets a
      directory. Cycles are no danger: the recursion only follows files that are new to the set.
    */
    method FindDeps(filename: string) returns (raised: bool)
      requires GoodFileSystem(fs) && deps <= fs.files.Keys
      modifies this
      ensures old(deps) <= deps <= fs.files.Keys && OnlyNeeded(fs, searchpath, old(deps), filename, deps)
      ensures !raised ==> ReadsWithin(fs, searchpath, filename, deps) && !Unopenable(fs, searchpath, filename)
      ensures !raised ==> AddedScanned(fs, searchpath, old(deps), deps)
      ensures raised ==> exists x :: (x == filename || x in deps) && Unopenable(fs, searchpath, x)
      decreases fs.files.Keys - deps, 0
    {
      var found := FindFile(fs, filename, searchpath);
      if found.None? || found.value == "" {
        return false;
      }
      var path := found.value;
      if path in fs.dirs {
        assert Unopenable(fs, searchpath, filename);
        return true;
      }
      var list := NewIncludes(path);
      raised := false;
      for i := 0 to |list|
        invariant old(deps) <= deps <= fs.files.Keys && OnlyNeeded(fs, searchpath, old(deps), filename, deps)
        invariant forall f :: f in list[..i] ==> f in deps
        invariant AddedScanned(fs, searchpath, old(deps), deps)
      {
        var included := list[i];
        assert included in list;
        assert list[..i + 1] == list[..i] + [included];
        ghost var before := deps;
        raised := AddIncluded(included);
        IncludeNeeded(fs, searchpath, old(deps), filename, before, included, deps);
        if raised {
          return;
        }
        IncludeScanned(fs, searchpath, old(deps), before, included, deps);
      }
      assert list[..|list|] == list;
    }

    /** One round of the loop: the file is added before it is scanned. */
    method AddIncluded(included: string) returns (raised: bool)
      requires GoodFileSystem(fs) && deps <= fs.files.Keys && included in fs.files
      modifies this
      ensures old(deps) + {included} <= deps <= fs.files.Keys
      ensures OnlyNeeded(fs, searchpath, old(deps) + {included}, included, deps)
      ensures !raised ==> ReadsWithin(fs, searchpath, included, deps) && !Unopenable(fs, searchpath, included)
      ensures !raised ==> AddedScanned(fs, searchpath, old(deps) + {included}, deps)
      ensures raised ==> exists x :: x in deps && Unopenable(fs, searchpath, x)
      decreases fs.files.Keys - deps - {included}, 1
    {
      deps := deps + {included};
      raised := FindDeps(included);
    }

    /** The loop of the main program over the headers, with one set for all. */
    method ScanHeaders(headers: seq<string>) returns (raised: bool)
      requires GoodFileSystem(fs) && deps == {}
      modifies this
      ensures !raised ==> Closure(fs, searchpath, headers, deps)
      ensures !raised ==> forall x :: x in headers || x in deps ==> !Unopenable(fs, searchpath, x)
      ensures raised ==> exists x :: (x in headers || x in deps) && Unopenable(fs, searchpath, x)
    {
      for i := 0 to |headers|
        invariant deps <= fs.files.Keys && Suffices(fs, searchpath, headers[..i], deps)
        invariant forall s :: Suffices(fs, searchpath, headers[..i], s) ==> deps <= s
        invariant forall x :: x in headers[..i] || x in deps ==> !Unopenable(fs, searchpath, x)
      {
        ghost var before := deps;
        raised := FindDeps(headers[i]);
        if raised {
          return;
        }
        assert headers[..i + 1] == headers[..i] + [headers[i]];
        forall s | Suffices(fs, searchpath, headers[..i + 1], s)
          ensures deps <= s
        {
          SufficesLess(fs, searchpath, headers, i, s);
        }
        forall x | x in deps
          ensures ReadsWithin(fs, searchpath, x, deps) && !Unopenable(fs, searchpath, x)
        {
          assert x in before ==> ReadsWithin(fs, searchpath, x, before);
        }
      }
      assert headers[..|headers|] == headers;
      return false;
    }
  }

  // --- what the set is

  /** The least set that holds what is read for the headers and for its own members. */
  ghost predicate Closure(fs: FileSystem, searchpath: seq<string>, headers: seq<string>, deps: set<string>) {
    && Suffices(fs, searchpath, headers, deps)
    && (forall s :: Suffices(fs, searchpath, headers, s) ==> deps <= s)
  }

  ghost predicate ClosedUnderIncludes(fs: FileSystem, searchpath: seq<string>, s: set<string>) {
    forall x, f :: x in s && Includes(fs, searchpath, x, f) ==> f in s
  }

  ghost predicate SufficesForIncludes(fs: FileSystem, searchpath: seq<string>, names: seq<string>, s: set<string>) {
    ClosedUnderIncludes(fs, searchpath, s) && forall k :: 0 <= k < |names| ==> ReadsWithin(fs, searchpath, names[k], s)
  }

  /**
    What the documentation promises: the absolute paths of the files that the headers include directly
    or indirectly, where an indirect include is one of the found file itself.
  */
  ghost predicate Promised(fs: FileSystem, searchpath: seq<string>, headers: seq<string>, deps: set<string>) {
    && (forall x :: x in deps ==> IsAbs(x))
    && SufficesForIncludes(fs, searchpath, headers, deps)
    && (forall s :: SufficesForIncludes(fs, searchpath, headers, s) ==> deps <= s)
  }

  ghost predicate AllAbsolute(searchpath: seq<string>) {
    forall i :: 0 <= i < |searchpath| ==> IsAbs(searchpath[i])
  }

  lemma {:induction false} FoundAbsolute(fs: FileSystem, name: string, searchpath: seq<string>)
    requires AllAbsolute(searchpath) && FindRelative(fs, name, searchpath).Some?
    ensures IsAbs(FindRelative(fs, name, searchpath).value)
  {
    if !Exists(fs, JoinPath(searchpath[0], name)) {
      FoundAbsolute(fs, name, searchpath[1..]);
    }
  }

  /** An absolute path is read as itself. */
  lemma ReadsItself(fs: FileSystem, searchpath: seq<string>, x: string, f: string)
    requires IsAbs(x)
    ensures Reads(fs, searchpath, x, f) <==> Includes(fs, searchpath, x, f)
  {
  }

  lemma IncludesAbsolute(fs: FileSystem, searchpath: seq<string>, x: string, f: string)
    requires AllAbsolute(searchpath) && Includes(fs, searchpath, x, f)
    ensures IsAbs(f)
  {
    var i :| 0 <= i < |fs.files[x]| && Target(fs, searchpath, fs.files[x][i]) == Some(f);
    if !IsAbs(fs.files[x][i]) {
      FoundAbsolute(fs, fs.files[x][i], searchpath);
    }
  }

  /** The absolute members of a set that is closed under the includes of its members are closed under reads. */
  lemma AbsolutePart(fs: FileSystem, searchpath: seq<string>, s: set<string>)
    requires AllAbsolute(searchpath) && ClosedUnderIncludes(fs, searchpath, s)
    ensures ClosedUnderReads(fs, searchpath, set x | x in s && IsAbs(x))
  {
    var t := set x | x in s && IsAbs(x);
    forall x, f | x in t && Reads(fs, searchpath, x, f)
      ensures f in t
    {
      ReadsItself(fs, searchpath, x, f);
      IncludesAbsolute(fs, searchpath, x, f);
    }
  }

  lemma {:induction false} AbsoluteKeepsPromise(fs: FileSystem, searchpath: seq<string>, headers: seq<string>,
                                                 deps: set<string>)
    requires AllAbsolute(searchpath) && Closure(fs, searchpath, headers, deps)
    ensures Promised(fs, searchpath, headers, deps)
  {
    // the absolute members are a closed set as well, so there are no others
    var absolute := set x | x in deps && IsAbs(x);
    forall x, f | x in absolute && Reads(fs, searchpath, x, f)
      ensures f in absolute
    {
      ReadsItself(fs, searchpath, x, f);
      IncludesAbsolute(fs, searchpath, x, f);
    }
    HeadersWithinAbsolute(fs, searchpath, headers, deps);
    assert Suffices(fs, searchpath, headers, absolute);
    assert deps <= absolute;
    forall x, f | x in deps && Includes(fs, searchpath, x, f)
      ensures f in deps
    {
      ReadsItself(fs, searchpath, x, f);
    }
    forall s | SufficesForIncludes(fs, searchpath, headers, s)
      ensures deps <= s
    {
      AbsolutePart(fs, searchpath, s);
      HeadersWithinAbsolute(fs, searchpath, headers, s);
      assert Suffices(fs, searchpath, headers, set x | x in s && IsAbs(x));
    }
  }

  lemma HeadersWithinAbsolute(fs: FileSystem, searchpath: seq<string>, headers: seq<string>, s: set<string>)
    requires AllAbsolute(searchpath)
    requires forall k :: 0 <= k < |headers| ==> ReadsWithin(fs, searchpath, headers[k], s)
    ensures forall k :: 0 <= k < |headers| ==> ReadsWithin(fs, searchpath, headers[k], set x | x in s && IsAbs(x))
  {
    var t := set x | x in s && IsAbs(x);
    forall k, f | 0 <= k < |headers| && Reads(fs, searchpath, headers[k], f)
      ensures f in t
    {
      IncludesAbsolute(fs, searchpath, FindFile(fs, headers[k], searchpath).value, f);
    }
  }

  // --- and when it is not

  /** A header that includes x.h, which is found in directory d only. */
  function OneInclude(d: string): FileSystem {
    FileSystem(map["/r" := ["x"], JoinPath(d, "x") := []], {})
  }

  /** The first relative directory is where x is found. */
  lemma {:induction false} FoundInRelative(searchpath: seq<string>, i: nat)
    requires i < |searchpath| && !IsAbs(searchpath[i]) && AllAbsolute(searchpath[..i])
    ensures FindRelative(OneInclude(searchpath[i]), "x", searchpath) == Some(JoinPath(searchpath[i], "x"))
    decreases i
  {
    var fs := OneInclude(searchpath[i]);
    if i > 0 {
      var e := searchpath[0];
      assert e == searchpath[..i][0];
      var j := JoinPath(e, "x");
      assert IsAbs(j) && j[|j| - 1] == 'x';
      assert !IsAbs(JoinPath(searchpath[i], "x"));
      assert "/r"[1] == 'r';
      assert !Exists(fs, j);
      assert searchpath[1..][..i - 1] == searchpath[..i][1..];
      FoundInRelative(searchpath[1..], i - 1);
    }
  }

  /** A path that ends in x is looked up as no file but one that ends in x. */
  lemma {:induction false} NotTheHeader(d: string, name: string, searchpath: seq<string>)
    requires name != "" && name[|name| - 1] == 'x' && !IsAbs(name)
    ensures FindRelative(OneInclude(d), name, searchpath) != Some("/r")
  {
    if searchpath != [] {
      var j := JoinPath(searchpath[0], name);
      assert j[|j| - 1] == 'x' && "/r"[1] == 'r';
      NotTheHeader(d, name, searchpath[1..]);
    }
  }

  lemma {:induction false} RelativeBreaksPromise(searchpath: seq<string>, i: nat)
    requires i < |searchpath| && !IsAbs(searchpath[i]) && AllAbsolute(searchpath[..i])
    ensures var fs, deps := OneInclude(searchpath[i]), {JoinPath(searchpath[i], "x")};
            GoodFileSystem(fs) && Closure(fs, searchpath, ["/r"], deps) && !Promised(fs, searchpath, ["/r"], deps)
  {
    var fs, found := OneInclude(searchpath[i]), JoinPath(searchpath[i], "x");
    FoundInRelative(searchpath, i);
    assert !IsAbs(found) && found[|found| - 1] == 'x' && "/r"[1] == 'r';
    assert fs.files["/r"] == ["x"];
    assert Target(fs, searchpath, fs.files["/r"][0]) == Some(found);
    assert Includes(fs, searchpath, "/r", found);
    assert Reads(fs, searchpath, "/r", found);
    forall f | Reads(fs, searchpath, "/r", f)
      ensures f == found
    {
      assert Includes(fs, searchpath, "/r", f);
    }
    forall f
      ensures !Reads(fs, searchpath, found, f)
    {
      NotTheHeader(searchpath[i], found, searchpath);
    }
    assert ["/r"][0] == "/r";
  }

  /** The scan keeps its promise for every file system and all headers exactly when all directories are absolute. */
  lemma {:induction false} PromiseIffAbsolute(searchpath: seq<string>)
    ensures (forall fs, headers, deps :: GoodFileSystem(fs) && Closure(fs, searchpath, headers, deps) ==>
               Promised(fs, searchpath, headers, deps))
            <==> AllAbsolute(searchpath)
  {
    if AllAbsolute(searchpath) {
      forall fs, headers, deps | GoodFileSystem(fs) && Closure(fs, searchpath, headers, deps)
        ensures Promised(fs, searchpath, headers, deps)
      {
        AbsoluteKeepsPromise(fs, searchpath, headers, deps);
      }
    } else {
      var i := FirstRelative(searchpath);
      RelativeBreaksPromise(searchpath, i);
    }
  }

  lemma {:induction false} FirstRelative(searchpath: seq<string>) returns (i: nat)
    requires !AllAbsolute(searchpath)
    ensures i < |searchpath| && !IsAbs(searchpath[i]) && AllAbsolute(searchpath[..i])
  {
    if IsAbs(searchpath[0]) {
      i := FirstRelative(searchpath[1..]);
      assert searchpath[..i + 1] == [searchpath[0]] + searchpath[1..][..i];
      i := i + 1;
    } else {
      i := 0;
    }
  }

  /** With a relative directory the includes of a found file can be missed altogether. */
  lemma RelativeMisses()
    ensures var fs := FileSystem(map["/r" := ["a"], "inc/a" := ["b"], "inc/b" := []], {});
            && Closure(fs, ["inc"], ["/r"], {"inc/a"})
            && Includes(fs, ["inc"], "inc/a", "inc/b")
  {
    var fs := FileSystem(map["/r" := ["a"], "inc/a" := ["b"], "inc/b" := []], {});
    assert "inc" + "/" + "a" == "inc/a" && "inc" + "/" + "b" == "inc/b";
    assert "inc" + "/" + "inc/a" == "inc/inc/a";
    assert FindFile(fs, "a", ["inc"]) == Some("inc/a") && FindFile(fs, "b", ["inc"]) == Some("inc/b");
    assert "inc/inc/a"[4] == 'i' && "inc/a"[4] == 'a' && "inc/b"[4] == 'b';
    assert ["inc"][1..] == [];
    assert FindFile(fs, "inc/a", ["inc"]) == None;
    assert Target(fs, ["inc"], fs.files["/r"][0]) == Some("inc/a");
    assert Target(fs, ["inc"], fs.files["inc/a"][0]) == Some("inc/b");
    assert Includes(fs, ["inc"], "/r", "inc/a");
    assert Reads(fs, ["inc"], "/r", "inc/a");
    assert ["/r"][0] == "/r";
  }
}
