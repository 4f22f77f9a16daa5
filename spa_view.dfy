/** The server's fallback view for the single-page app: any path the API,
    admin and static routes do not take is answered with a file of the
    built frontend when the path names one, and with its `index.html`
    otherwise. The filesystem is an input: whether a path is a directory
    or a file, and what `resolve()` makes of it. */
module SpaView {
  import opened Wrappers
  import opened JsStrings

  /** No two dots in a row anywhere. */
  predicate NoDotPair(s: string) {
    forall i :: 0 <= i < |s| - 1 ==> !(s[i] == '.' && s[i + 1] == '.')
  }

  /** `str.lstrip(c)`: the leading `c`s removed. */
  function LStrip(s: string, c: char): (r: string)
    ensures |r| <= |s| && r == s[|s| - |r|..]
    ensures r == [] || r[0] != c
    ensures forall i :: 0 <= i < |s| - |r| ==> s[i] == c
  {
    if s != [] && s[0] == c then LStrip(s[1..], c) else s
  }

  /** `str.replace("..", "")`: occurrences found left to right without
      overlap, each removed. */
  function RemoveDotPairs(s: string): (r: string)
    ensures |r| <= |s|
    decreases |s|
  {
    if |s| >= 2 && s[0] == '.' && s[1] == '.' then RemoveDotPairs(s[2..])
    else if s == [] then []
    else [s[0]] + RemoveDotPairs(s[1..])
  }

  /** No two dots in a row are left, and a string that does not start with
      a dot keeps its first character. */
  lemma {:induction false} RemoveDotPairsNoDotPair(s: string)
    ensures NoDotPair(RemoveDotPairs(s))
    ensures s != [] && s[0] != '.' ==> RemoveDotPairs(s) != [] && RemoveDotPairs(s)[0] == s[0]
    decreases |s|
  {
    if |s| >= 2 && s[0] == '.' && s[1] == '.' {
      RemoveDotPairsNoDotPair(s[2..]);
    } else if s != [] {
      var t := RemoveDotPairs(s[1..]);
      RemoveDotPairsNoDotPair(s[1..]);
      var r := [s[0]] + t;
      assert RemoveDotPairs(s) == r;
      forall i | 0 <= i < |r| - 1 ensures !(r[i] == '.' && r[i + 1] == '.') {
        if i > 0 {
          assert r[i] == t[i - 1] && r[i + 1] == t[i];
        } else if s[0] == '.' {
          assert s[1..] != [] && s[1..][0] != '.';
        }
      }
    }
  }

  /** A dot pair at the front is dropped. */
  lemma RemoveDotPairsFront(t: string)
    ensures RemoveDotPairs(".." + t) == RemoveDotPairs(t)
  {
    assert (".." + t)[2..] == t;
  }

  /** A string without dots is left alone. */
  lemma {:induction false} NoDotsRemoveNothing(s: string)
    requires forall i :: 0 <= i < |s| ==> s[i] != '.'
    ensures RemoveDotPairs(s) == s
  {
    if s != [] {
      NoDotsRemoveNothing(s[1..]);
    }
  }

  /** A suffix of a string without dot pairs has none either. */
  lemma NoDotPairSuffix(s: string, n: nat)
    requires NoDotPair(s) && n <= |s|
    ensures NoDotPair(s[n..])
  {
    forall i | 0 <= i < |s[n..]| - 1 ensures !(s[n..][i] == '.' && s[n..][i + 1] == '.') {
      assert s[n..][i] == s[n + i] && s[n..][i + 1] == s[n + i + 1];
    }
  }

  /** `k` dots. */
  function Dots(k: nat): (d: string)
    ensures |d| == k && forall i :: 0 <= i < k ==> d[i] == '.'
  {
    seq(k, _ => '.')
  }

  /** A maximal run of `k` dots comes out as `k % 2` dots. */
  lemma {:induction false} DotRunHalves(k: nat, rest: string)
    requires rest == [] || rest[0] != '.'
    ensures RemoveDotPairs(Dots(k) + rest) == Dots(k % 2) + RemoveDotPairs(rest)
  {
    var s := Dots(k) + rest;
    if k >= 2 {
      assert s[0] == '.' && s[1] == '.';
      assert RemoveDotPairs(s) == RemoveDotPairs(s[2..]);
      assert s[2..] == Dots(k - 2) + rest;
      DotRunHalves(k - 2, rest);
      assert (k - 2) % 2 == k % 2;
    } else if k == 1 {
      assert s[0] == '.' && s[1..] == rest;
      assert RemoveDotPairs(s) == [s[0]] + RemoveDotPairs(rest);
      assert Dots(1) == ['.'];
    } else {
      assert s == rest;
    }
  }

  /** The characters other than dots, in order. */
  function NonDots(s: string): string {
    if s == [] then [] else (if s[0] == '.' then [] else [s[0]]) + NonDots(s[1..])
  }

  /** Only dots are removed: every other character stays, in order. */
  lemma {:induction false} RemoveDotPairsKeepsNonDots(s: string)
    ensures NonDots(RemoveDotPairs(s)) == NonDots(s)
    decreases |s|
  {
    if |s| >= 2 && s[0] == '.' && s[1] == '.' {
      RemoveDotPairsKeepsNonDots(s[2..]);
      assert s[1..][1..] == s[2..];
    } else if s != [] {
      RemoveDotPairsKeepsNonDots(s[1..]);
      assert ([s[0]] + RemoveDotPairs(s[1..]))[1..] == RemoveDotPairs(s[1..]);
    }
  }

  /** `(frontend_path or "").lstrip("/").replace("..", "")`. The result has
      no two dots in a row; it may still start with a slash. */
  function SafePath(frontendPath: Option<string>): (r: string)
    ensures NoDotPair(r)
    ensures |r| <= |frontendPath.GetOr("")|
  {
    RemoveDotPairsNoDotPair(LStrip(frontendPath.GetOr(""), '/'));
    RemoveDotPairs(LStrip(frontendPath.GetOr(""), '/'))
  }

  /** The sanitiser leaves a leading slash: "../etc" becomes "/etc". */
  lemma LeadingSlashSurvives()
    ensures SafePath(Some("../etc")) == "/etc"
    ensures SafePath(Some("../etc"))[0] == '/'
  {
    assert LStrip("../etc", '/') == "../etc";
    assert "../etc" == ".." + "/etc";
    RemoveDotPairsFront("/etc");
    NoDotsRemoveNothing("/etc");
  }

  /** The two steps in the order the comment promises: dots removed first,
      then the leading slashes. Neither traversal nor a leading slash is
      left. */
  function SanitisedPath(frontendPath: Option<string>): (r: string)
    ensures NoDotPair(r)
    ensures r == [] || r[0] != '/'
  {
    var d := RemoveDotPairs(frontendPath.GetOr(""));
    RemoveDotPairsNoDotPair(frontendPath.GetOr(""));
    var r := LStrip(d, '/');
    NoDotPairSuffix(d, |d| - |r|);
    r
  }

  /** What the view needs to know of the filesystem. */
  datatype FileSystem = FileSystem(isDir: string -> bool, isFile: string -> bool, resolve: string -> string)

  /** `Path(a) / b`: an absolute `b` replaces `a`. */
  function Join(a: string, b: string): (r: string)
    ensures StartsWith(b, "/") ==> r == b
    ensures !StartsWith(b, "/") ==> EndsWith(r, b) && StartsWith(r, a)
  {
    if StartsWith(b, "/") then b else if EndsWith(a, "/") then a + b else a + "/" + b
  }

  /** What the view answers. */
  datatype Reply = NotFound(message: string) | ServeFile(path: string) | ServeIndex(path: string)

  const NotBuilt := "Frontend not built. From project root run: cd frontend && npm run build"

  function IndexPath(root: string): string {
    Join(root, "index.html")
  }

  /** The file the sanitised path names, resolved. */
  function Target(root: string, safe: string, fs: FileSystem): string {
    fs.resolve(Join(root, safe))
  }

  /** `ServeSPAView.get` as written. A file is served exactly for a
      non-empty sanitised path naming a file whose resolved path starts with
      the resolved root's (a string prefix test); otherwise the index is
      served, or 404 when the root is not a directory or the index is
      missing. */
  function ServeAsWritten(root: string, frontendPath: Option<string>, fs: FileSystem): (r: Reply)
    ensures r.ServeFile? ==> fs.isDir(root) && SafePath(frontendPath) != []
                             && r.path == Target(root, SafePath(frontendPath), fs)
                             && fs.isFile(r.path) && StartsWith(r.path, fs.resolve(root))
    ensures r.ServeIndex? ==> fs.isDir(root) && r.path == IndexPath(root) && fs.isFile(r.path)
    ensures r.NotFound? <==> !fs.isDir(root) || (!r.ServeFile? && !fs.isFile(IndexPath(root)))
    ensures r.NotFound? ==> r.message == NotBuilt
    ensures fs.isDir(root) && SafePath(frontendPath) != []
            && fs.isFile(Target(root, SafePath(frontendPath), fs))
            && StartsWith(Target(root, SafePath(frontendPath), fs), fs.resolve(root))
            ==> r == ServeFile(Target(root, SafePath(frontendPath), fs))
  {
    if !fs.isDir(root) then NotFound(NotBuilt)
    else
      var safe := SafePath(frontendPath);
      var file := Target(root, safe, fs);
      if safe != [] && fs.isFile(file) && StartsWith(file, fs.resolve(root)) then ServeFile(file)
      else if !fs.isFile(IndexPath(root)) then NotFound(NotBuilt)
      else ServeIndex(IndexPath(root))
  }

  /** An empty or missing path, or one that sanitises to nothing (such as
      "/" or ".."), serves the index when the root and the index exist. */
  lemma EmptyPathServesIndex(root: string, frontendPath: Option<string>, fs: FileSystem)
    requires SafePath(frontendPath) == []
    requires fs.isDir(root) && fs.isFile(IndexPath(root))
    ensures ServeAsWritten(root, frontendPath, fs) == ServeIndex(IndexPath(root))
  {
  }

  /** `p` lies under the directory `base`: it starts with `base` and a
      slash (the test `Path.is_relative_to` makes on resolved paths). */
  predicate Inside(p: string, base: string) {
    StartsWith(p, if EndsWith(base, "/") then base else base + "/")
  }

  /** The sibling of a root: a path that starts with the root's string but
      goes on with a character other than "/", as "/srv/dist-x/secret" is
      to "/srv/dist". Neither holds a dot. */
  predicate Sibling(root: string, rest: string) {
    root != [] && root[0] == '/' && root[|root| - 1] != '/'
    && rest != [] && rest[0] != '/'
    && (forall i :: 0 <= i < |root| ==> root[i] != '.')
    && (forall i :: 0 <= i < |rest| ==> rest[i] != '.')
  }

  /** A string without dots is unchanged by the sanitiser once ".." is put
      in front of it. */
  lemma DotPairThenNoDots(file: string)
    requires forall i :: 0 <= i < |file| ==> file[i] != '.'
    ensures SafePath(Some(".." + file)) == file
  {
    assert LStrip(".." + file, '/') == ".." + file;
    RemoveDotPairsFront(file);
    NoDotsRemoveNothing(file);
  }

  /** Two strings without dots make one without dots. */
  lemma NoDotsConcat(a: string, b: string)
    requires forall i :: 0 <= i < |a| ==> a[i] != '.'
    requires forall i :: 0 <= i < |b| ==> b[i] != '.'
    ensures forall i :: 0 <= i < |a + b| ==> (a + b)[i] != '.'
  {
  }

  /** ".." followed by the sibling's absolute path sanitises to that
      absolute path. */
  lemma SiblingSafePath(root: string, rest: string)
    requires Sibling(root, rest)
    ensures SafePath(Some(".." + root + rest)) == root + rest
  {
    NoDotsConcat(root, rest);
    assert ".." + root + rest == ".." + (root + rest);
    DotPairThenNoDots(root + rest);
  }

  /** As written, a file in a sibling directory whose name extends the
      root's is served: with the root "/srv/dist", the path
      "../srv/dist-x/secret" sanitises to the absolute "/srv/dist-x/secret",
      the join keeps it, and the prefix test passes, though the file is not
      inside the root. */
  lemma SiblingDirectoryEscapes(root: string, rest: string, fs: FileSystem)
    requires Sibling(root, rest)
    requires fs.isDir(root) && fs.isFile(root + rest)
    requires fs.resolve(root) == root && fs.resolve(root + rest) == root + rest
    ensures ServeAsWritten(root, Some(".." + root + rest), fs) == ServeFile(root + rest)
    ensures !Inside(root + rest, root)
  {
    var file := root + rest;
    SiblingSafePath(root, rest);
    assert StartsWith(file, "/") && Join(root, file) == file;
    assert file[..|root|] == root;
    assert file[|root|] == rest[0];
  }

  /** The view with both repairs: the sanitiser strips the slashes after
      removing the dots, and a file is served only from inside the root
      directory. A file is served exactly when it is a file inside the
      resolved root, named by a non-empty relative path; otherwise the index
      is served, or 404 as before. */
  function Serve(root: string, frontendPath: Option<string>, fs: FileSystem): (r: Reply)
    ensures r.ServeFile? ==> fs.isDir(root) && SanitisedPath(frontendPath) != []
                             && !StartsWith(SanitisedPath(frontendPath), "/")
                             && r.path == Target(root, SanitisedPath(frontendPath), fs)
                             && fs.isFile(r.path) && Inside(r.path, fs.resolve(root))
    ensures r.ServeIndex? ==> fs.isDir(root) && r.path == IndexPath(root) && fs.isFile(r.path)
    ensures r.NotFound? <==> !fs.isDir(root) || (!r.ServeFile? && !fs.isFile(IndexPath(root)))
    ensures fs.isDir(root) && SanitisedPath(frontendPath) != []
            && fs.isFile(Target(root, SanitisedPath(frontendPath), fs))
            && Inside(Target(root, SanitisedPath(frontendPath), fs), fs.resolve(root))
            ==> r == ServeFile(Target(root, SanitisedPath(frontendPath), fs))
  {
    if !fs.isDir(root) then NotFound(NotBuilt)
    else
      var safe := SanitisedPath(frontendPath);
      var file := Target(root, safe, fs);
      if safe != [] && fs.isFile(file) && Inside(file, fs.resolve(root)) then ServeFile(file)
      else if !fs.isFile(IndexPath(root)) then NotFound(NotBuilt)
      else ServeIndex(IndexPath(root))
  }

  /** The repaired view does not serve the sibling's file for that path:
      it looks for it under the root instead. */
  lemma SiblingDirectoryRefused(root: string, rest: string, fs: FileSystem)
    requires Sibling(root, rest)
    requires fs.resolve(root) == root
    ensures Serve(root, Some(".." + root + rest), fs) != ServeFile(root + rest)
  {
    var file := root + rest;
    assert file[|root|] == rest[0];
  }
}
