/** The updater's breadth-first walk over the unpacked update: which files are copied
    where, and which directories are forced to exist first. */
module UpdatePlan {

  /** An entry other than "." and "..", which the walk skips: one component of a path. */
  type Name = s: string | Component(s) && s != "." && s != ".." witness "x"

  predicate Component(s: string) { s != "" && '/' !in s }

  /** What `opendir`, `readdir` and `stat` show: a plain file, a directory (which may fail
      to open), or an entry whose `stat` fails. */
  datatype Node =
    | File(name: Name)
    | Dir(name: Name, opens: bool, children: seq<Node>)
    | Broken(name: Name)

  datatype Config = Config(workDir: string, readyFound: bool, exePath: string, exeName: string, updaterName: string)
  {
    function UpdDir(): string { workDir + if readyFound then "tupdates/temp" else "tupdates/ready" }

    function TdataDir(): string { UpdDir() + "/tdata" }

    function ReadyFile(): string { workDir + "tupdates/temp/ready" }
  }

  function LowerChar(c: char): char { if 'A' <= c <= 'Z' then c + 32 as char else c }

  function Lower(s: string): string { seq(|s|, i requires 0 <= i < |s| => LowerChar(s[i])) }

  predicate Equal(a: string, b: string) { Lower(a) == Lower(b) }

  function Child(dir: string, n: Node): string { dir + "/" + n.name }

  /** The path itself or anything below it. */
  predicate Under(top: string, path: string)
  {
    top <= path && (|path| <= |top| || path[|top|] == '/')
  }

  /** The path below the update directory. */
  function Rel(c: Config, path: string): string
    requires |c.UpdDir()| + 1 <= |path|
  {
    path[|c.UpdDir()| + 1..]
  }

  function Target(c: Config, path: string): string
    requires |c.UpdDir()| + 1 <= |path|
  {
    var to := c.exePath + Rel(c, path);
    if Equal(to, c.exePath + "Telegram") && c.exeName != "Telegram" then c.exePath + c.exeName else to
  }

  function ToDir(c: Config, path: string): string
    requires |c.UpdDir()| + 1 <= |path|
  {
    c.exePath + (Rel(c, path) + "/")
  }

  // ----- the reference enumeration: every file and directory of the tree, depth first

  function AllFiles(dir: string, nodes: seq<Node>): multiset<string>
    decreases nodes, 0
  {
    if nodes == [] then multiset{} else FilesOf(Child(dir, nodes[0]), nodes[0]) + AllFiles(dir, nodes[1..])
  }

  function FilesOf(path: string, n: Node): multiset<string>
    decreases n, 1
  {
    match n
    case File(_) => multiset{path}
    case Dir(_, _, children) => AllFiles(path, children)
    case Broken(_) => multiset{}
  }

  function AllDirs(dir: string, nodes: seq<Node>): multiset<string>
    decreases nodes, 0
  {
    if nodes == [] then multiset{} else DirsOf(Child(dir, nodes[0]), nodes[0]) + AllDirs(dir, nodes[1..])
  }

  function DirsOf(path: string, n: Node): multiset<string>
    decreases n, 1
  {
    match n
    case Dir(_, _, children) => multiset{path} + AllDirs(path, children)
    case _ => multiset{}
  }

  // ----- the same with the `tdata` subtree pruned, as the walk sees it

  function Files(c: Config, dir: string, nodes: seq<Node>): multiset<string>
    decreases nodes, 0
  {
    if nodes == [] then multiset{} else FilesAt(c, Child(dir, nodes[0]), nodes[0]) + Files(c, dir, nodes[1..])
  }

  function FilesAt(c: Config, path: string, n: Node): multiset<string>
    decreases n, 1
  {
    if Under(c.TdataDir(), path) then multiset{}
    else match n
      case File(_) => if path == c.ReadyFile() then multiset{} else multiset{path}
      case Dir(_, _, children) => Files(c, path, children)
      case Broken(_) => multiset{}
  }

  function Dirs(c: Config, dir: string, nodes: seq<Node>): multiset<string>
    decreases nodes, 0
  {
    if nodes == [] then multiset{} else DirsAt(c, Child(dir, nodes[0]), nodes[0]) + Dirs(c, dir, nodes[1..])
  }

  function DirsAt(c: Config, path: string, n: Node): multiset<string>
    decreases n, 1
  {
    if Under(c.TdataDir(), path) then multiset{}
    else match n
      case Dir(_, _, children) => multiset{path} + Dirs(c, path, children)
      case _ => multiset{}
  }

  /** Nothing outside `tdata` makes the update bad: no directory that fails to open, no
      file that would land on the updater itself. */
  predicate Good(c: Config, dir: string, nodes: seq<Node>)
    decreases nodes, 0
  {
    nodes == [] || (GoodAt(c, Child(dir, nodes[0]), nodes[0]) && Good(c, dir, nodes[1..]))
  }

  predicate GoodAt(c: Config, path: string, n: Node)
    decreases n, 1
  {
    Under(c.TdataDir(), path) ||
    match n
    case File(_) => |c.UpdDir()| + 1 <= |path| ==> !Equal(c.exePath + Rel(c, path), c.updaterName)
    case Dir(_, opens, children) => opens && Good(c, path, children)
    case Broken(_) => true
  }

  // ----- pruning is exact

  /** What the walk plans to copy is every file outside `tdata` other than the ready file. */
  lemma {:induction false} FilesExact(c: Config, dir: string, nodes: seq<Node>, path: string)
    ensures Files(c, dir, nodes)[path]
         == if Under(c.TdataDir(), path) || path == c.ReadyFile() then 0 else AllFiles(dir, nodes)[path]
    decreases nodes, 0
  {
    if nodes != [] {
      FilesAtExact(c, Child(dir, nodes[0]), nodes[0], path);
      FilesExact(c, dir, nodes[1..], path);
    }
  }

  lemma {:induction false} FilesAtExact(c: Config, at: string, n: Node, path: string)
    ensures FilesAt(c, at, n)[path]
         == if Under(c.TdataDir(), path) || path == c.ReadyFile() then 0 else FilesOf(at, n)[path]
    decreases n, 1
  {
    if Under(c.TdataDir(), at) {
      FilesBelow(c, at, n, path);
    } else if n.Dir? {
      FilesExact(c, at, n.children, path);
    }
  }

  /** Everything enumerated under a path lies under it. */
  lemma {:induction false} FilesBelow(c: Config, at: string, n: Node, path: string)
    requires Under(c.TdataDir(), at)
    ensures FilesOf(at, n)[path] > 0 ==> Under(c.TdataDir(), path)
    decreases n, 1
  {
    if n.Dir? {
      AllFilesBelow(c, at, n.children, path);
    }
  }

  lemma {:induction false} AllFilesBelow(c: Config, dir: string, nodes: seq<Node>, path: string)
    requires Under(c.TdataDir(), dir)
    ensures AllFiles(dir, nodes)[path] > 0 ==> Under(c.TdataDir(), path)
    decreases nodes, 0
  {
    if nodes != [] {
      FilesBelow(c, Child(dir, nodes[0]), nodes[0], path);
      AllFilesBelow(c, dir, nodes[1..], path);
    }
  }

  lemma {:induction false} DirsExact(c: Config, dir: string, nodes: seq<Node>, path: string)
    ensures Dirs(c, dir, nodes)[path] == if Under(c.TdataDir(), path) then 0 else AllDirs(dir, nodes)[path]
    decreases nodes, 0
  {
    if nodes != [] {
      DirsAtExact(c, Child(dir, nodes[0]), nodes[0], path);
      DirsExact(c, dir, nodes[1..], path);
    }
  }

  lemma {:induction false} DirsAtExact(c: Config, at: string, n: Node, path: string)
    ensures DirsAt(c, at, n)[path] == if Under(c.TdataDir(), path) then 0 else DirsOf(at, n)[path]
    decreases n, 1
  {
    if Under(c.TdataDir(), at) {
      DirsBelow(c, at, n, path);
    } else if n.Dir? {
      DirsExact(c, at, n.children, path);
    }
  }

  lemma {:induction false} DirsBelow(c: Config, at: string, n: Node, path: string)
    requires Under(c.TdataDir(), at)
    ensures DirsOf(at, n)[path] > 0 ==> Under(c.TdataDir(), path)
    decreases n, 1
  {
    if n.Dir? {
      AllDirsBelow(c, at, n.children, path);
    }
  }

  lemma {:induction false} AllDirsBelow(c: Config, dir: string, nodes: seq<Node>, path: string)
    requires Under(c.TdataDir(), dir)
    ensures AllDirs(dir, nodes)[path] > 0 ==> Under(c.TdataDir(), path)
    decreases nodes, 0
  {
    if nodes != [] {
      DirsBelow(c, Child(dir, nodes[0]), nodes[0], path);
      AllDirsBelow(c, dir, nodes[1..], path);
    }
  }

  /** The directories that do not open. */
  function Closed(dir: string, nodes: seq<Node>): multiset<string>
    decreases nodes, 0
  {
    if nodes == [] then multiset{} else ClosedOf(Child(dir, nodes[0]), nodes[0]) + Closed(dir, nodes[1..])
  }

  function ClosedOf(path: string, n: Node): multiset<string>
    decreases n, 1
  {
    match n
    case Dir(_, opens, children) => (if opens then multiset{} else multiset{path}) + Closed(path, children)
    case _ => multiset{}
  }

  predicate LandsOnUpdater(c: Config, path: string)
  {
    |c.UpdDir()| + 1 <= |path| && Equal(c.exePath + Rel(c, path), c.updaterName)
  }

  /** A path that makes the update bad, as a file or as a directory that does not open. */
  ghost predicate Spoils(c: Config, files: multiset<string>, closed: multiset<string>, path: string)
  {
    !Under(c.TdataDir(), path) && ((files[path] > 0 && LandsOnUpdater(c, path)) || closed[path] > 0)
  }

  ghost predicate Unspoiled(c: Config, files: multiset<string>, closed: multiset<string>)
  {
    forall path :: !Spoils(c, files, closed, path)
  }

  lemma UnspoiledUnion(c: Config, f: multiset<string>, d: multiset<string>, f': multiset<string>, d': multiset<string>)
    ensures Unspoiled(c, f + f', d + d') <==> Unspoiled(c, f, d) && Unspoiled(c, f', d')
  {
    hide Under, LandsOnUpdater, Config.UpdDir, Config.TdataDir;
    forall path
      ensures Spoils(c, f + f', d + d', path) <==> Spoils(c, f, d, path) || Spoils(c, f', d', path)
    {
    }
  }

  /** The walk's verdict is about the whole tree: it is good exactly when nothing in it outside
      `tdata` spoils it. */
  lemma {:induction false} GoodExact(c: Config, dir: string, nodes: seq<Node>)
    requires |c.UpdDir()| <= |dir|
    ensures Good(c, dir, nodes) <==> Unspoiled(c, AllFiles(dir, nodes), Closed(dir, nodes))
    decreases nodes, 0
  {
    if nodes == [] {
      assert forall path :: !Spoils(c, multiset{}, multiset{}, path);
    } else {
      hide Under, LandsOnUpdater, GoodAt, Unspoiled, Config.UpdDir, Config.TdataDir;
      var at, n, rest := Child(dir, nodes[0]), nodes[0], nodes[1..];
      GoodAtExact(c, at, n);
      GoodExact(c, dir, rest);
      UnspoiledUnion(c, FilesOf(at, n), ClosedOf(at, n), AllFiles(dir, rest), Closed(dir, rest));
    }
  }

  lemma {:induction false} GoodAtExact(c: Config, at: string, n: Node)
    requires |c.UpdDir()| + 1 <= |at|
    ensures GoodAt(c, at, n) <==> Unspoiled(c, FilesOf(at, n), ClosedOf(at, n))
    decreases n, 1
  {
    if Under(c.TdataDir(), at) {
      forall path
        ensures !Spoils(c, FilesOf(at, n), ClosedOf(at, n), path)
      {
        FilesBelow(c, at, n, path);
        ClosedBelow(c, at, n, path);
      }
    } else {
      var spoiled := Spoils(c, FilesOf(at, n), ClosedOf(at, n), at);
      match n
      case Dir(_, opens, children) =>
        GoodExact(c, at, children);
        var empty: multiset<string> := multiset{};
        assert ClosedOf(at, n) == (if opens then empty else multiset{at}) + Closed(at, children);
        assert empty + Closed(at, children) == Closed(at, children);
        assert !opens ==> spoiled;
      case File(_) =>
        assert spoiled <==> LandsOnUpdater(c, at);
      case Broken(_) =>
        assert !spoiled;
    }
  }

  lemma {:induction false} ClosedBelow(c: Config, at: string, n: Node, path: string)
    requires Under(c.TdataDir(), at)
    ensures ClosedOf(at, n)[path] > 0 ==> Under(c.TdataDir(), path)
    decreases n, 1
  {
    if n.Dir? {
      AllClosedBelow(c, at, n.children, path);
    }
  }

  lemma {:induction false} AllClosedBelow(c: Config, dir: string, nodes: seq<Node>, path: string)
    requires Under(c.TdataDir(), dir)
    ensures Closed(dir, nodes)[path] > 0 ==> Under(c.TdataDir(), path)
    decreases nodes, 0
  {
    if nodes != [] {
      ClosedBelow(c, Child(dir, nodes[0]), nodes[0], path);
      AllClosedBelow(c, dir, nodes[1..], path);
    }
  }

  /** Two planned files share a target exactly when the binary is renamed and both names
      stand for it: `Telegram` in any letter case, or the new name itself. */
  lemma SameTarget(c: Config, p: string, q: string)
    requires p != q && c.UpdDir() + "/" <= p && c.UpdDir() + "/" <= q
    ensures Target(c, p) == Target(c, q) <==>
      c.exeName != "Telegram" && IsBinary(c, Rel(c, p)) && IsBinary(c, Rel(c, q))
  {
    assert p == (c.UpdDir() + "/") + Rel(c, p) && q == (c.UpdDir() + "/") + Rel(c, q);
    SamePrefix(c.exePath, Rel(c, p), Rel(c, q));
    SamePrefix(c.exePath, Rel(c, p), c.exeName);
    SamePrefix(c.exePath, Rel(c, q), c.exeName);
  }

  lemma SamePrefix(a: string, x: string, y: string)
    ensures a + x == a + y <==> x == y
  {
    if a + x == a + y {
      assert (a + x)[|a|..] == x && (a + y)[|a|..] == y;
    }
  }

  predicate IsBinary(c: Config, rel: string)
  {
    Equal(c.exePath + rel, c.exePath + "Telegram") || rel == c.exeName
  }

  /** The binary under any spelling is planned for the path of the renamed binary. */
  lemma SpellingPlanned(c: Config, name: Name)
    requires Lower(name) == "telegram" && c.exeName != "Telegram" && !Equal(c.exePath + "Telegram", c.updaterName)
    ensures var p := Child(c.UpdDir(), File(name));
      && !Under(c.TdataDir(), p) && p != c.ReadyFile() && GoodAt(c, p, File(name))
      && Target(c, p) == c.exePath + c.exeName
  {
    var p := Child(c.UpdDir(), File(name));
    assert Rel(c, p) == name;
    assert Lower("Telegram") == "telegram";
    LowerConcat(c.exePath, name);
    LowerConcat(c.exePath, "Telegram");
    assert Lower(name)[1] == 'e' && p[|c.UpdDir()| + 2] == name[1];
    assert c.TdataDir()[|c.UpdDir()| + 2] == 'd';
    assert |p| == |c.UpdDir()| + 9;
  }

  lemma LowerConcat(a: string, b: string)
    ensures Lower(a + b) == Lower(a) + Lower(b)
  {
  }

  /** And that happens: a tree with the binary under two spellings is a good one, and both
      files are planned for one target. */
  lemma BothSpellingsClash(c: Config, a: Name, b: Name, from: seq<string>, to: seq<string>)
    requires a != b && Lower(a) == Lower(b) == "telegram"
    requires c.exeName != "Telegram" && !Equal(c.exePath + "Telegram", c.updaterName)
    ensures Good(c, c.UpdDir(), [File(a), File(b)])
    ensures multiset(from) == Files(c, c.UpdDir(), [File(a), File(b)]) && AllTargets(c, from, to) ==>
      |from| == 2 && from[0] != from[1] && to[0] == to[1] == c.exePath + c.exeName
  {
    var n, m, dir := File(a), File(b), c.UpdDir();
    var p, q := Child(dir, n), Child(dir, m);
    SpellingPlanned(c, a);
    SpellingPlanned(c, b);
    hide Target, Under, GoodAt, Lower, Config.UpdDir, Config.ReadyFile, Config.TdataDir;
    assert p[..|dir| + 1] == q[..|dir| + 1] && p[|dir| + 1..] == a && q[|dir| + 1..] == b;
    assert [n, m][1..] == [m] && [m][1..] == [];
    assert FilesAt(c, p, n) == multiset{p} && FilesAt(c, q, m) == multiset{q};
    assert Files(c, dir, []) == multiset{};
    assert Files(c, dir, [m]) == FilesAt(c, q, m) + Files(c, dir, [m][1..]) == multiset{q};
    assert Files(c, dir, [n, m]) == FilesAt(c, p, n) + Files(c, dir, [n, m][1..]) == multiset{p, q};
    assert Good(c, dir, [m]);
    if multiset(from) == Files(c, dir, [n, m]) && AllTargets(c, from, to) {
      PairOf(from, p, q);
    }
  }

  lemma PairOf(s: seq<string>, p: string, q: string)
    requires multiset(s) == multiset{p, q} && p != q
    ensures s == [p, q] || s == [q, p]
  {
    assert |multiset(s)| == 2;
    assert s[0] in multiset(s) && s[1] in multiset(s);
    assert s == [s[0], s[1]];
  }

  // ----- the walk

  /** A directory waiting in the queue. */
  datatype Queued = Queued(path: string, opens: bool, children: seq<Node>)

  predicate Nested(c: Config, path: string)
  {
    c.UpdDir() + "/" <= path && |path| > |c.UpdDir()| + 1
  }

  // What the queued directories still have to contribute.
  function FilesLeft(c: Config, q: seq<Queued>): multiset<string>
  {
    if q == [] then multiset{} else Files(c, q[0].path, q[0].children) + FilesLeft(c, q[1..])
  }

  function DirsLeft(c: Config, q: seq<Queued>): multiset<string>
  {
    if q == [] then multiset{}
    else Own(c, q[0].path) + Dirs(c, q[0].path, q[0].children) + DirsLeft(c, q[1..])
  }

  predicate AllGood(c: Config, q: seq<Queued>)
  {
    q == [] || (q[0].opens && Good(c, q[0].path, q[0].children) && AllGood(c, q[1..]))
  }

  function Size(nodes: seq<Node>): nat
  {
    if nodes == [] then 0
    else 1 + (if nodes[0].Dir? then Size(nodes[0].children) else 0) + Size(nodes[1..])
  }

  function SizeLeft(q: seq<Queued>): nat
  {
    if q == [] then 0 else 1 + Size(q[0].children) + SizeLeft(q[1..])
  }

  function Own(c: Config, path: string): multiset<string>
  {
    if Nested(c, path) then multiset{path} else multiset{}
  }

  lemma {:induction false} QueueMore(c: Config, q: seq<Queued>, x: Queued)
    ensures FilesLeft(c, q + [x]) == FilesLeft(c, q) + Files(c, x.path, x.children)
    ensures DirsLeft(c, q + [x]) == DirsLeft(c, q) + Own(c, x.path) + Dirs(c, x.path, x.children)
    ensures AllGood(c, q + [x]) <==> AllGood(c, q) && x.opens && Good(c, x.path, x.children)
    ensures SizeLeft(q + [x]) == SizeLeft(q) + 1 + Size(x.children)
  {
    hide Files, Dirs, Good, Size, Own;
    if q == [] {
      assert [] + [x] == [x];
    } else {
      assert (q + [x])[1..] == q[1..] + [x];
      QueueMore(c, q[1..], x);
    }
  }

  /** `d` is a directory directly below `exePath` or below a directory of `done`. */
  ghost predicate Hangs(c: Config, done: seq<string>, d: string)
  {
    exists parent, name :: IsChildDir(parent, name, d) && (parent == c.exePath || parent in done)
  }

  /** `parent` is what is left of `d` without its last component. */
  ghost predicate IsChildDir(parent: string, name: string, d: string)
  {
    Component(name) && d == parent + (name + "/")
  }

  predicate EndsInSlash(s: string) { s != "" && s[|s| - 1] == '/' }

  lemma OneParent(parent: string, name: string, other: string, second: string, d: string)
    requires IsChildDir(parent, name, d) && IsChildDir(other, second, d)
    requires EndsInSlash(parent) && EndsInSlash(other)
    ensures parent == other
  {
    NoShorter(parent, name, other, second, d);
    NoShorter(other, second, parent, name, d);
    assert d[..|parent|] == parent && d[..|other|] == other;
  }

  lemma NoShorter(parent: string, name: string, other: string, second: string, d: string)
    requires IsChildDir(parent, name, d) && IsChildDir(other, second, d) && EndsInSlash(parent)
    ensures |parent| <= |other|
  {
    forall k | |other| <= k < |d| - 1
      ensures d[k] != '/'
    {
      assert d[k] == second[k - |other|];
    }
    assert d[|parent| - 1] == '/';
  }

  ghost predicate ParentFirst(c: Config, dirs: seq<string>)
  {
    forall i :: 0 <= i < |dirs| ==> Hangs(c, dirs[..i], dirs[i])
  }

  /** What the order is for: the directory `r/n` comes after the directory `r`. */
  lemma AfterParent(c: Config, dirs: seq<string>, i: nat, r: string, n: string)
    requires ParentFirst(c, dirs) && i < |dirs| && Component(n)
    requires dirs[i] == c.exePath + (r + "/") + (n + "/")
    ensures exists j :: 0 <= j < i && dirs[j] == c.exePath + (r + "/")
  {
    var up := c.exePath + (r + "/");
    assert Hangs(c, dirs[..i], dirs[i]);
    var parent, name :| IsChildDir(parent, name, dirs[i]) && (parent == c.exePath || parent in dirs[..i]);
    assert IsChildDir(up, n, dirs[i]) && EndsInSlash(up);
    if parent == c.exePath {
      NoShorter(up, n, parent, name, dirs[i]);
      assert false;
    } else {
      var j :| 0 <= j < i && dirs[j] == parent;
      assert Hangs(c, dirs[..j], dirs[j]);
      assert EndsInSlash(parent);
      OneParent(up, n, parent, name, dirs[i]);
    }
  }

  predicate AllTargets(c: Config, from: seq<string>, to: seq<string>)
  {
    && |to| == |from|
    && forall i :: 0 <= i < |from| ==> |c.UpdDir()| + 1 <= |from[i]| && to[i] == Target(c, from[i])
  }

  /** The queued directories hang below an already forced directory, or are the root. */
  ghost predicate Placed(c: Config, forced: seq<string>, q: seq<Queued>)
  {
    forall x :: x in q && Nested(c, x.path) ==> Hangs(c, forced, ToDir(c, x.path))
  }

  lemma HangsMore(c: Config, done: seq<string>, more: seq<string>, d: string)
    requires Hangs(c, done, d)
    ensures Hangs(c, done + more, d)
  {
    var parent, name :| IsChildDir(parent, name, d) && (parent == c.exePath || parent in done);
    assert parent == c.exePath || parent in done + more;
  }

  /** The walk's `toDir` for a queued directory. */
  function ToDirOf(c: Config, dir: string): string
  {
    if Nested(c, dir) then ToDir(c, dir) else c.exePath
  }

  lemma ChildHangs(c: Config, dir: string, n: Node, forced: seq<string>)
    requires Nested(c, dir) || dir == c.UpdDir()
    requires ToDirOf(c, dir) == c.exePath || ToDirOf(c, dir) in forced
    ensures Nested(c, Child(dir, n)) && Hangs(c, forced, ToDir(c, Child(dir, n)))
  {
    hide Config.UpdDir;
    var path := Child(dir, n);
    var base := c.UpdDir() + "/";
    if dir == c.UpdDir() {
      assert path == base + n.name;
      assert Rel(c, path) == n.name;
      assert IsChildDir(c.exePath, n.name, ToDir(c, path));
    } else {
      assert dir == base + Rel(c, dir);
      assert path == base + (Rel(c, dir) + "/" + n.name);
      assert Rel(c, path) == Rel(c, dir) + "/" + n.name;
      SlashMiddle(c.exePath, Rel(c, dir), n.name);
      assert IsChildDir(ToDir(c, dir), n.name, ToDir(c, path));
    }
  }

  lemma SlashMiddle(a: string, b: string, d: string)
    ensures a + (b + "/" + d + "/") == (a + (b + "/")) + (d + "/")
  {
  }

  /** The inner loop with the entries `rest` still to read. */
  ghost predicate Balanced(c: Config, dir: string, all: seq<Node>, dirs0: seq<Queued>, from0: seq<string>,
    rest: seq<Node>, dirs: seq<Queued>, from: seq<string>)
  {
    && multiset(from) + FilesLeft(c, dirs) + Files(c, dir, rest) ==
      multiset(from0) + FilesLeft(c, dirs0) + Files(c, dir, all)
    && DirsLeft(c, dirs) + Dirs(c, dir, rest) == DirsLeft(c, dirs0) + Dirs(c, dir, all)
    && ((AllGood(c, dirs) && Good(c, dir, rest)) <==> (AllGood(c, dirs0) && Good(c, dir, all)))
    && (Good(c, dir, all) ==> Good(c, dir, rest))
    && SizeLeft(dirs) + Size(rest) <= SizeLeft(dirs0) + Size(all)
  }

  function SizeOf(n: Node): nat { 1 + if n.Dir? then Size(n.children) else 0 }

  /** What reading one entry must contribute. */
  lemma BalancedStep(c: Config, dir: string, all: seq<Node>, dirs0: seq<Queued>, from0: seq<string>,
    rest: seq<Node>, dirs: seq<Queued>, from: seq<string>, dirs': seq<Queued>, more: seq<string>)
    requires Balanced(c, dir, all, dirs0, from0, rest, dirs, from) && rest != []
    requires var p := Child(dir, rest[0]);
      && multiset(more) + FilesLeft(c, dirs') == FilesLeft(c, dirs) + FilesAt(c, p, rest[0])
      && DirsLeft(c, dirs') == DirsLeft(c, dirs) + DirsAt(c, p, rest[0])
      && (AllGood(c, dirs') <==> AllGood(c, dirs) && GoodAt(c, p, rest[0]))
      && SizeLeft(dirs') <= SizeLeft(dirs) + SizeOf(rest[0])
    ensures Balanced(c, dir, all, dirs0, from0, rest[1..], dirs', from + more)
  {
    hide FilesAt, DirsAt, GoodAt, FilesLeft, DirsLeft, AllGood, SizeLeft;
    assert multiset(from + more) == multiset(from) + multiset(more);
    var p := Child(dir, rest[0]);
    assert Files(c, dir, rest) == FilesAt(c, p, rest[0]) + Files(c, dir, rest[1..]);
    assert multiset(from + more) + FilesLeft(c, dirs') + Files(c, dir, rest[1..])
      == multiset(from) + (multiset(more) + FilesLeft(c, dirs')) + Files(c, dir, rest[1..])
      == multiset(from) + FilesLeft(c, dirs) + Files(c, dir, rest);
    assert Dirs(c, dir, rest) == DirsAt(c, p, rest[0]) + Dirs(c, dir, rest[1..]);
    assert DirsLeft(c, dirs') + Dirs(c, dir, rest[1..]) == DirsLeft(c, dirs) + Dirs(c, dir, rest);
    assert Good(c, dir, rest) <==> GoodAt(c, p, rest[0]) && Good(c, dir, rest[1..]);
    assert Size(rest) == SizeOf(rest[0]) + Size(rest[1..]);
  }

  predicate Places(c: Config, q: seq<Queued>)
  {
    forall x :: x in q ==> Nested(c, x.path) || x.path == c.UpdDir()
  }

  /** The entry alone does not make the update bad; a directory is judged when it is read. */
  predicate EntryGood(c: Config, path: string, n: Node) { n.File? ==> GoodAt(c, path, n) }

  predicate EntriesGood(c: Config, dir: string, nodes: seq<Node>)
  {
    forall i :: 0 <= i < |nodes| ==> EntryGood(c, Child(dir, nodes[i]), nodes[i])
  }

  /** The body of the inner loop, for the entry `p` at `fname`. */
  method ReadEntry(c: Config, fname: string, p: Node, dirs: seq<Queued>, from: seq<string>, to: seq<string>,
    ghost forced: seq<string>)
    returns (ok: bool, dirs': seq<Queued>, from': seq<string>, to': seq<string>, ghost more: seq<string>)
    requires Nested(c, fname) && Hangs(c, forced, ToDir(c, fname))
    requires AllTargets(c, from, to) && Placed(c, forced, dirs) && Places(c, dirs)
    ensures ok <==> EntryGood(c, fname, p)
    ensures ok ==> from' == from + more && AllTargets(c, from', to') && Placed(c, forced, dirs') && Places(c, dirs')
    ensures ok ==> multiset(more) + FilesLeft(c, dirs') == FilesLeft(c, dirs) + FilesAt(c, fname, p)
    ensures ok ==> DirsLeft(c, dirs') == DirsLeft(c, dirs) + DirsAt(c, fname, p)
    ensures ok ==> (AllGood(c, dirs') <==> AllGood(c, dirs) && GoodAt(c, fname, p))
    ensures ok ==> SizeLeft(dirs') <= SizeLeft(dirs) + SizeOf(p)
  {
    hide Target, Equal, Hangs, ToDir, FilesLeft, DirsLeft, AllGood, SizeLeft, Files, Dirs, Good, Size,
      Config.UpdDir, Config.TdataDir, Config.ReadyFile, Under;
    ok, dirs', from', to', more := true, dirs, from, to, [];
    if Under(c.TdataDir(), fname) {
      return;
    }
    match p {
      case Dir(_, opens, inner) =>
        QueueMore(c, dirs', Queued(fname, opens, inner));
        dirs' := dirs' + [Queued(fname, opens, inner)];
      case File(_) =>
        var tofname := c.exePath + Rel(c, fname);
        if Equal(tofname, c.updaterName) {
          ok := false;
          return;
        } else if Equal(tofname, c.exePath + "Telegram") && c.exeName != "Telegram" {
          tofname := c.exePath + c.exeName;
        }
        if fname != c.ReadyFile() {
          TargetIs(c, fname, tofname);
          from', to', more := from' + [fname], to' + [tofname], [fname];
        }
      case Broken(_) =>
    }
  }

  /** The inner loop: one directory is read. */
  method ReadDir(c: Config, dir: string, children: seq<Node>, dirs: seq<Queued>, from: seq<string>, to: seq<string>,
    ghost forced: seq<string>)
    returns (ok: bool, dirs': seq<Queued>, from': seq<string>, to': seq<string>)
    requires Nested(c, dir) || dir == c.UpdDir()
    requires ToDirOf(c, dir) == c.exePath || ToDirOf(c, dir) in forced
    requires AllTargets(c, from, to) && Placed(c, forced, dirs) && Places(c, dirs)
    ensures ok ==>
      multiset(from') + FilesLeft(c, dirs') == multiset(from) + FilesLeft(c, dirs) + Files(c, dir, children)
    ensures ok ==> DirsLeft(c, dirs') == DirsLeft(c, dirs) + Dirs(c, dir, children)
    ensures ok ==> (AllGood(c, dirs') <==> AllGood(c, dirs) && Good(c, dir, children))
    ensures ok <==> EntriesGood(c, dir, children)
    ensures !ok ==> !Good(c, dir, children)
    ensures ok ==> SizeLeft(dirs') <= SizeLeft(dirs) + Size(children)
    ensures ok ==> AllTargets(c, from', to') && Placed(c, forced, dirs') && Places(c, dirs')
  {
    hide Hangs, ToDir, ToDirOf, FilesLeft, DirsLeft, AllGood, SizeLeft, Files, Dirs, Good, Size, Balanced, SizeOf,
      FilesAt, DirsAt, GoodAt, AllTargets, Placed, Places, Nested, Config.UpdDir;
    ok, dirs', from', to' := true, dirs, from, to;
    var i := 0;
    assert children[0..] == children;
    BalancedEnds(c, dir, children, dirs, from, dirs, from);
    while i < |children|
      invariant 0 <= i <= |children|
      invariant Balanced(c, dir, children, dirs, from, children[i..], dirs', from')
      invariant AllTargets(c, from', to') && Placed(c, forced, dirs') && Places(c, dirs')
      invariant EntriesGood(c, dir, children[..i])
    {
      var p := children[i];
      ghost var rest, dirs1, from1 := children[i..], dirs', from';
      assert rest[0] == p && rest[1..] == children[i + 1..];
      ChildHangs(c, dir, p, forced);
      ghost var more;
      ok, dirs', from', to', more := ReadEntry(c, Child(dir, p), p, dirs', from', to', forced);
      if !ok {
        BadFile(c, dir, children, dirs, from, rest, dirs1, from1);
        return;
      }
      BalancedStep(c, dir, children, dirs, from, rest, dirs1, from1, dirs', more);
      i := i + 1;
    }
    assert children[i..] == [];
    BalancedEnds(c, dir, children, dirs, from, dirs', from');
  }

  lemma BalancedEnds(c: Config, dir: string, all: seq<Node>, dirs0: seq<Queued>, from0: seq<string>,
    dirs: seq<Queued>, from: seq<string>)
    ensures Balanced(c, dir, all, dirs0, from0, all, dirs0, from0)
    ensures Balanced(c, dir, all, dirs0, from0, [], dirs, from) ==>
      && multiset(from) + FilesLeft(c, dirs) == multiset(from0) + FilesLeft(c, dirs0) + Files(c, dir, all)
      && DirsLeft(c, dirs) == DirsLeft(c, dirs0) + Dirs(c, dir, all)
      && (AllGood(c, dirs) <==> (AllGood(c, dirs0) && Good(c, dir, all)))
      && SizeLeft(dirs) <= SizeLeft(dirs0) + Size(all)
  {
  }

  lemma BadFile(c: Config, dir: string, all: seq<Node>, dirs0: seq<Queued>, from0: seq<string>, rest: seq<Node>,
    dirs: seq<Queued>, from: seq<string>)
    requires Balanced(c, dir, all, dirs0, from0, rest, dirs, from) && rest != []
    requires !GoodAt(c, Child(dir, rest[0]), rest[0])
    ensures !Good(c, dir, all)
  {
  }

  lemma TargetIs(c: Config, path: string, to: string)
    requires |c.UpdDir()| + 1 <= |path|
    requires var t := c.exePath + Rel(c, path);
      to == if Equal(t, c.exePath + "Telegram") && c.exeName != "Telegram" then c.exePath + c.exeName else t
    ensures to == Target(c, path)
  {
  }

  predicate Forced(c: Config, visited: seq<string>, forced: seq<string>)
  {
    && |forced| == |visited|
    && forall i :: 0 <= i < |visited| ==> Nested(c, visited[i]) && forced[i] == ToDir(c, visited[i])
  }

  /** The state of the walk between two directories. */
  ghost predicate Walking(c: Config, root: Queued, dirs: seq<Queued>, from: seq<string>, to: seq<string>,
    visited: seq<string>, forced: seq<string>)
  {
    && multiset(from) + FilesLeft(c, dirs) == Files(c, root.path, root.children)
    && multiset(visited) + DirsLeft(c, dirs) == Dirs(c, root.path, root.children)
    && (AllGood(c, dirs) <==> root.opens && Good(c, root.path, root.children))
    && AllTargets(c, from, to) && Forced(c, visited, forced) && ParentFirst(c, forced)
    && Placed(c, forced, dirs)
    && Places(c, dirs)
  }

  lemma WalkStarts(c: Config, root: Queued)
    requires root.path == c.UpdDir()
    ensures Walking(c, root, [root], [], [], [], [])
  {
    hide Files, Dirs, Good, Config.UpdDir;
    assert !Nested(c, root.path) && [root][1..] == [];
    var none: seq<string> := [];
    assert multiset(none) == multiset{};
    var files, dirs := Files(c, root.path, root.children), Dirs(c, root.path, root.children);
    assert FilesLeft(c, [root]) == files + FilesLeft(c, []) == files + multiset{} == files;
    assert DirsLeft(c, [root]) == Own(c, root.path) + dirs + DirsLeft(c, []) == dirs;
    assert multiset(none) + files == files && multiset(none) + dirs == dirs;
    assert AllGood(c, [root]) <==> root.opens && Good(c, root.path, root.children);
  }

  lemma ParentFirstMore(c: Config, forced: seq<string>, t: string)
    requires ParentFirst(c, forced) && Hangs(c, forced, t)
    ensures ParentFirst(c, forced + [t])
  {
    hide Hangs, Config.UpdDir;
    forall i | 0 <= i < |forced + [t]|
      ensures Hangs(c, (forced + [t])[..i], (forced + [t])[i])
    {
      assert (forced + [t])[..i] == forced[..i];
    }
  }

  lemma PlacedMore(c: Config, forced: seq<string>, t: string, dirs: seq<Queued>)
    requires Placed(c, forced, dirs)
    ensures Placed(c, forced + [t], dirs)
  {
    hide Config.UpdDir;
    forall x | x in dirs && Nested(c, x.path)
      ensures Hangs(c, forced + [t], ToDir(c, x.path))
    {
      HangsMore(c, forced, [t], ToDir(c, x.path));
    }
  }

  /** Forcing the popped directory. */
  lemma WalkForces(c: Config, root: Queued, dirs: seq<Queued>, from: seq<string>, to: seq<string>,
    visited: seq<string>, forced: seq<string>)
    requires dirs != [] && Walking(c, root, dirs, from, to, visited, forced)
    ensures var d := dirs[0].path; var nested := Nested(c, d);
      var visited' := if nested then visited + [d] else visited;
      var forced' := if nested then forced + [ToDir(c, d)] else forced;
      && Forced(c, visited', forced') && ParentFirst(c, forced') && Placed(c, forced', dirs[1..])
      && (ToDirOf(c, d) == c.exePath || ToDirOf(c, d) in forced')
      && multiset(visited') + DirsLeft(c, dirs[1..]) + Dirs(c, d, dirs[0].children) == Dirs(c, root.path, root.children)
  {
    hide Files, Dirs, Good, Config.UpdDir, AllTargets, AllGood, FilesLeft, Hangs, ParentFirst;
    var d := dirs[0].path;
    assert DirsLeft(c, dirs) == Own(c, d) + Dirs(c, d, dirs[0].children) + DirsLeft(c, dirs[1..]);
    assert Placed(c, forced, dirs[1..]);
    hide DirsLeft;
    VisitedMore(c, visited, d, Dirs(c, d, dirs[0].children), DirsLeft(c, dirs[1..]));
    hide Own;
    if Nested(c, d) {
      var t := ToDir(c, d);
      assert dirs[0] in dirs && Hangs(c, forced, t);
      ParentFirstMore(c, forced, t);
      PlacedMore(c, forced, t, dirs[1..]);
    }
  }

  /** A directory counts once it is visited. */
  lemma VisitedMore(c: Config, visited: seq<string>, d: string, below: multiset<string>, left: multiset<string>)
    ensures multiset(if Nested(c, d) then visited + [d] else visited) + left + below
         == multiset(visited) + (Own(c, d) + below + left)
  {
    hide Config.UpdDir;
    if Nested(c, d) {
      assert multiset(visited + [d]) == multiset(visited) + multiset{d};
    }
  }

  lemma FilesPopped(c: Config, dirs: seq<Queued>)
    requires dirs != []
    ensures FilesLeft(c, dirs) == Files(c, dirs[0].path, dirs[0].children) + FilesLeft(c, dirs[1..])
    ensures AllGood(c, dirs) <==> dirs[0].opens && Good(c, dirs[0].path, dirs[0].children) && AllGood(c, dirs[1..])
    ensures SizeLeft(dirs) == 1 + Size(dirs[0].children) + SizeLeft(dirs[1..])
  {
  }

  // ----- every file has its directory

  /** A path whose directory is the root or forced. */
  ghost predicate Housed(c: Config, path: string, forced: seq<string>)
  {
    exists d, n :: Component(n) && IsFileIn(d, n, path) && (d == c.exePath || d in forced)
  }

  ghost predicate IsFileIn(d: string, n: string, path: string) { path == d + n }

  /** A planned file lies in the directory that is read or in a visited one. */
  lemma {:induction false} FileParent(c: Config, dir: string, nodes: seq<Node>, path: string)
    returns (parent: string, n: string)
    requires Files(c, dir, nodes)[path] > 0
    ensures Component(n) && path == parent + "/" + n
    ensures parent == dir || Dirs(c, dir, nodes)[parent] > 0
    decreases nodes, 0
  {
    var at := Child(dir, nodes[0]);
    if FilesAt(c, at, nodes[0])[path] > 0 {
      if nodes[0].Dir? {
        parent, n := FileParent(c, at, nodes[0].children, path);
      } else {
        parent, n := dir, nodes[0].name;
      }
    } else {
      parent, n := FileParent(c, dir, nodes[1..], path);
    }
  }

  /** A file is relocated to where its directory is forced. */
  lemma TargetInDir(c: Config, parent: string, n: string)
    requires Nested(c, parent) || parent == c.UpdDir()
    ensures var path := parent + "/" + n;
      |c.UpdDir()| + 1 <= |path| && c.exePath + Rel(c, path) == ToDirOf(c, parent) + n
  {
    hide Config.UpdDir;
    var base, path := c.UpdDir() + "/", parent + "/" + n;
    if parent == c.UpdDir() {
      assert path == base + n && Rel(c, path) == n;
    } else {
      assert parent == base + Rel(c, parent);
      assert path == base + (Rel(c, parent) + "/" + n);
      assert Rel(c, path) == Rel(c, parent) + "/" + n;
    }
  }

  lemma AllHoused(c: Config, children: seq<Node>, from: seq<string>, to: seq<string>, visited: seq<string>,
    forced: seq<string>)
    requires multiset(from) == Files(c, c.UpdDir(), children) && AllTargets(c, from, to)
    requires multiset(visited) == Dirs(c, c.UpdDir(), children) && Forced(c, visited, forced)
    ensures forall i :: 0 <= i < |to| ==> to[i] == c.exePath + c.exeName || Housed(c, to[i], forced)
  {
    hide Files, Dirs, Config.UpdDir, ToDir, Equal;
    forall i | 0 <= i < |to|
      ensures to[i] == c.exePath + c.exeName || Housed(c, to[i], forced)
    {
      assert from[i] in multiset(from);
      var parent, n := FileParent(c, c.UpdDir(), children, from[i]);
      if parent != c.UpdDir() {
        assert parent in multiset(visited);
        var j :| 0 <= j < |visited| && visited[j] == parent;
        assert forced[j] == ToDir(c, parent) && Nested(c, parent);
      } else {
        assert !Nested(c, parent);
      }
      TargetInDir(c, parent, n);
      assert IsFileIn(ToDirOf(c, parent), n, c.exePath + Rel(c, from[i]));
    }
  }

  /** Different directories are forced as different directories. */
  lemma ForcedApart(c: Config, p: string, q: string)
    requires Nested(c, p) && Nested(c, q)
    ensures ToDir(c, p) == ToDir(c, q) <==> p == q
  {
    hide Config.UpdDir;
    var base := c.UpdDir() + "/";
    assert p == base + Rel(c, p) && q == base + Rel(c, q);
    SamePrefix(c.exePath, Rel(c, p) + "/", Rel(c, q) + "/");
    if Rel(c, p) + "/" == Rel(c, q) + "/" {
      assert Rel(c, p) == (Rel(c, p) + "/")[..|Rel(c, p)|] && Rel(c, q) == (Rel(c, q) + "/")[..|Rel(c, q)|];
    }
  }

  /** The planning part of `update`: it succeeds exactly on a good tree, and then plans
      every file outside `tdata` with its target and every directory after its parent. */
  method PlanUpdate(c: Config, opens: bool, children: seq<Node>)
    returns (ok: bool, from: seq<string>, to: seq<string>, forcedirs: seq<string>, ghost visited: seq<string>)
    ensures ok <==> opens && Good(c, c.UpdDir(), children)
    ensures ok ==> multiset(from) == Files(c, c.UpdDir(), children) && AllTargets(c, from, to)
    ensures ok ==> multiset(visited) == Dirs(c, c.UpdDir(), children) && Forced(c, visited, forcedirs)
    ensures ok ==> ParentFirst(c, forcedirs)
    ensures ok ==> forall i :: 0 <= i < |to| ==> to[i] == c.exePath + c.exeName || Housed(c, to[i], forcedirs)
  {
    hide Files, Dirs, Good, FilesLeft, DirsLeft, AllGood, SizeLeft, Size, Config.UpdDir, AllTargets, Placed, Forced,
      ParentFirst, ToDir, ToDirOf;
    ghost var root := Queued(c.UpdDir(), opens, children);
    var dirs := [Queued(c.UpdDir(), opens, children)];
    from, to, forcedirs, visited := [], [], [], [];
    WalkStarts(c, root);
    while dirs != []
      invariant Walking(c, root, dirs, from, to, visited, forcedirs)
      decreases SizeLeft(dirs)
    {
      var dir, listing := dirs[0].path, dirs[0];
      assert dirs[0] in dirs;
      FilesPopped(c, dirs);
      WalkForces(c, root, dirs, from, to, visited, forcedirs);
      if |dir| > |c.UpdDir()| + 1 {
        forcedirs := forcedirs + [ToDir(c, dir)];
        visited := visited + [dir];
      }
      dirs := dirs[1..];
      if !listing.opens {
        ok := false;
        return;
      }
      ghost var from0 := from;
      ok, dirs, from, to := ReadDir(c, dir, listing.children, dirs, from, to, forcedirs);
      if !ok {
        return;
      }
    }
    ok := true;
    NothingLeft(c, root, from, to, visited, forcedirs);
    AllHoused(c, children, from, to, visited, forcedirs);
  }

  lemma NothingLeft(c: Config, root: Queued, from: seq<string>, to: seq<string>, visited: seq<string>,
    forced: seq<string>)
    requires Walking(c, root, [], from, to, visited, forced)
    ensures multiset(from) == Files(c, root.path, root.children)
      && multiset(visited) == Dirs(c, root.path, root.children)
    ensures root.opens && Good(c, root.path, root.children)
  {
    hide Files, Dirs, Good;
    assert multiset(from) + multiset{} == multiset(from) && multiset(visited) + multiset{} == multiset(visited);
  }
}
