/** The packer's list of input files: directories are replaced by their entries, at the
    end of the list, restarting the scan each time until no directory is left. */
module PackerFiles {

  /** A file or directory as the file system shows it. */
  datatype Node =
    | File(path: string, hidden: bool, symlink: bool, readable: bool)
    | Dir(hidden: bool, symlink: bool, children: seq<Node>)

  /** `entryInfoList` without hidden entries and symbolic links. */
  function Listing(nodes: seq<Node>): (r: seq<Node>)
    ensures Size(r) <= Size(nodes)
    ensures forall n :: n in r ==> n in nodes && !n.hidden && !n.symlink
  {
    if nodes == [] then []
    else
      var rest := Listing(nodes[1..]);
      if nodes[0].hidden || nodes[0].symlink then rest
      else
        assert ([nodes[0]] + rest)[1..] == rest;
        [nodes[0]] + rest
  }

  function Size(nodes: seq<Node>): nat
  {
    if nodes == [] then 0
    else 1 + (if nodes[0].Dir? then Size(nodes[0].children) else 0) + Size(nodes[1..])
  }

  // ----- the reference: depth first, by recursion on the tree

  /** The plain files to pack, hidden ones dropped. */
  function Leaves(nodes: seq<Node>): multiset<Node>
    decreases Size(nodes), 1
  {
    if nodes == [] then multiset{} else LeavesOf(nodes[0]) + Leaves(nodes[1..])
  }

  function LeavesOf(n: Node): multiset<Node>
    decreases if n.Dir? then 1 + Size(n.children) else 1, 0
  {
    if n.Dir? then Leaves(Listing(n.children))
    else if n.hidden then multiset{}
    else multiset{n}
  }

  predicate AllReadable(nodes: seq<Node>)
    decreases Size(nodes)
  {
    nodes == [] || ((if nodes[0].Dir? then AllReadable(Listing(nodes[0].children)) else nodes[0].readable)
      && AllReadable(nodes[1..]))
  }

  // ----- the order of the final list: breadth first

  function LevelOrder(nodes: seq<Node>): seq<Node>
    decreases Size(nodes)
  {
    if nodes == [] then []
    else if nodes[0].Dir? then
      SizeConcat(nodes[1..], Listing(nodes[0].children));
      LevelOrder(nodes[1..] + Listing(nodes[0].children))
    else (if nodes[0].hidden then [] else [nodes[0]]) + LevelOrder(nodes[1..])
  }

  lemma {:induction false} SizeConcat(a: seq<Node>, b: seq<Node>)
    ensures Size(a + b) == Size(a) + Size(b)
  {
    if a == [] {
      assert a + b == b;
    } else {
      assert (a + b)[1..] == a[1..] + b;
      SizeConcat(a[1..], b);
    }
  }

  lemma {:induction false} LeavesConcat(a: seq<Node>, b: seq<Node>)
    ensures Leaves(a + b) == Leaves(a) + Leaves(b)
    ensures AllReadable(a + b) <==> AllReadable(a) && AllReadable(b)
  {
    if a == [] {
      assert a + b == b;
    } else {
      assert (a + b)[1..] == a[1..] + b;
      LeavesConcat(a[1..], b);
    }
  }

  /** The final list holds exactly the leaves of the inputs: no directory, nothing hidden,
      nothing lost and nothing twice. */
  lemma {:induction false} LevelOrderExact(nodes: seq<Node>)
    ensures multiset(LevelOrder(nodes)) == Leaves(nodes)
    ensures forall n :: n in LevelOrder(nodes) ==> n.File? && !n.hidden
    decreases Size(nodes)
  {
    if nodes == [] {
    } else if nodes[0].Dir? {
      var next := nodes[1..] + Listing(nodes[0].children);
      SizeConcat(nodes[1..], Listing(nodes[0].children));
      LeavesConcat(nodes[1..], Listing(nodes[0].children));
      LevelOrderExact(next);
    } else {
      LevelOrderExact(nodes[1..]);
    }
  }

  // ----- the reference once more, by paths

  /** The listing of a directory loses hidden entries and links, and nothing else. */
  lemma {:induction false} ListingExact(nodes: seq<Node>, n: Node)
    ensures multiset(Listing(nodes))[n] == if n.hidden || n.symlink then 0 else multiset(nodes)[n]
  {
    if nodes != [] {
      var m, rest := nodes[0], nodes[1..];
      ListingExact(rest, n);
      assert nodes == [m] + rest;
      assert multiset(nodes) == multiset{m} + multiset(rest);
      assert multiset([m] + Listing(rest)) == multiset{m} + multiset(Listing(rest));
    }
  }

  /** What a directory shows; of the inputs everything is looked at. */
  predicate Shown(n: Node, top: bool) { top || (!n.hidden && !n.symlink) }

  /** The positions `path`, one for each level, lead through shown directories to the file n. */
  predicate Reaches(nodes: seq<Node>, path: seq<nat>, n: Node, top: bool)
    decreases |path|
  {
    && path != [] && path[0] < |nodes| && Shown(nodes[path[0]], top)
    && if |path| == 1 then n.File? && nodes[path[0]] == n
       else nodes[path[0]].Dir? && Reaches(nodes[path[0]].children, path[1..], n, false)
  }

  /** Every file that is not hidden is in the list as often as a path reaches it. */
  ghost predicate AsOftenAsReached(nodes: seq<Node>, files: seq<Node>)
  {
    forall n :: ReachedAsOften(nodes, files, n)
  }

  ghost predicate ReachedAsOften(nodes: seq<Node>, files: seq<Node>, n: Node)
  {
    exists paths: set<seq<nat>> :: LeadTo(nodes, paths, n) && multiset(files)[n] == if n.hidden then 0 else |paths|
  }

  ghost predicate LeadTo(nodes: seq<Node>, paths: set<seq<nat>>, n: Node)
  {
    forall p :: p in paths <==> Reaches(nodes, p, n, true)
  }

  lemma LeavesReached(nodes: seq<Node>, files: seq<Node>)
    requires multiset(files) == Leaves(nodes)
    ensures AsOftenAsReached(nodes, files)
  {
    hide Leaves, Reaches;
    forall n
      ensures ReachedAsOften(nodes, files, n)
    {
      var paths := PathsTo(nodes, n, true);
      assert LeadTo(nodes, paths, n);
    }
  }

  /** The path into the first node, and the path beside it. */
  function Deeper(p: seq<nat>): seq<nat> { [0] + p }

  function Further(p: seq<nat>): seq<nat> { if p == [] then [] else [p[0] + 1] + p[1..] }

  function Image(paths: set<seq<nat>>, f: seq<nat> -> seq<nat>): set<seq<nat>> { set p | p in paths :: f(p) }

  lemma {:induction false} ImageSize(paths: set<seq<nat>>, f: seq<nat> -> seq<nat>)
    requires forall p, q :: p in paths && q in paths && f(p) == f(q) ==> p == q
    ensures |Image(paths, f)| == |paths|
    decreases paths
  {
    if paths != {} {
      var x :| x in paths;
      ImageSize(paths - {x}, f);
      assert Image(paths, f) == Image(paths - {x}, f) + {f(x)};
    }
  }

  lemma DeeperInjective(p: seq<nat>, q: seq<nat>)
    ensures Deeper(p) == Deeper(q) <==> p == q
  {
    assert Deeper(p)[1..] == p && Deeper(q)[1..] == q;
  }

  lemma FurtherInjective(p: seq<nat>, q: seq<nat>)
    ensures Further(p) == Further(q) <==> p == q
  {
    if p != [] && q != [] && Further(p) == Further(q) {
      assert Further(p)[0] == p[0] + 1 && Further(q)[0] == q[0] + 1;
      assert Further(p)[1..] == p[1..] && Further(q)[1..] == q[1..];
      assert p == [p[0]] + p[1..] && q == [q[0]] + q[1..];
    }
  }

  /** The path leads from the node m to the file n. */
  predicate ReachesFrom(m: Node, p: seq<nat>, n: Node, top: bool)
  {
    && Shown(m, top)
    && if p == [] then n.File? && m == n else m.Dir? && Reaches(m.children, p, n, false)
  }

  lemma DeeperReaches(nodes: seq<Node>, p: seq<nat>, n: Node, top: bool)
    requires nodes != []
    ensures Reaches(nodes, Deeper(p), n, top) <==> ReachesFrom(nodes[0], p, n, top)
  {
    assert Deeper(p)[1..] == p;
  }

  lemma FurtherReaches(nodes: seq<Node>, p: seq<nat>, n: Node, top: bool)
    requires nodes != []
    ensures Reaches(nodes, Further(p), n, top) <==> Reaches(nodes[1..], p, n, top)
  {
    if p != [] {
      assert Further(p)[1..] == p[1..];
      assert p[0] < |nodes[1..]| ==> nodes[1..][p[0]] == nodes[p[0] + 1];
    }
  }

  lemma DeeperOrFurther(p: seq<nat>) returns (q: seq<nat>)
    requires p != []
    ensures if p[0] == 0 then p == Deeper(q) else q != [] && p == Further(q)
  {
    if p[0] == 0 {
      q := p[1..];
    } else {
      q := [(p[0] - 1) as nat] + p[1..];
      assert q[1..] == p[1..];
    }
  }

  /** The paths to a file, of which there are as many as it has leaves. */
  lemma {:induction false} PathsTo(nodes: seq<Node>, n: Node, top: bool) returns (paths: set<seq<nat>>)
    ensures forall p :: p in paths <==> Reaches(nodes, p, n, top)
    ensures Leaves(if top then nodes else Listing(nodes))[n] == if n.hidden then 0 else |paths|
    decreases Size(nodes)
  {
    if nodes == [] {
      paths := {};
    } else {
      var m := nodes[0];
      var later := PathsTo(nodes[1..], n, top);
      var first: set<seq<nat>> := {};
      if Shown(m, top) && m.Dir? {
        first := PathsTo(m.children, n, false);
      } else if Shown(m, top) && m == n {
        first := {[]};
      }
      LeavesOfFirst(nodes, n, top);
      PathsJoined(nodes, n, top, first, later);
      paths := Image(first, Deeper) + Image(later, Further);
    }
  }

  lemma PathsJoined(nodes: seq<Node>, n: Node, top: bool, first: set<seq<nat>>, later: set<seq<nat>>)
    requires nodes != []
    requires forall p :: p in later <==> Reaches(nodes[1..], p, n, top)
    requires forall p :: p in first <==> ReachesFrom(nodes[0], p, n, top)
    ensures var paths := Image(first, Deeper) + Image(later, Further);
      |paths| == |first| + |later| && forall p :: p in paths <==> Reaches(nodes, p, n, top)
  {
    var deeper, further := Image(first, Deeper), Image(later, Further);
    ImagesSize(nodes[1..], n, top, first, later);
    hide Deeper, Further;
    forall p
      ensures p in deeper + further <==> Reaches(nodes, p, n, top)
    {
      PathJoined(nodes, p, n, top, first, later);
    }
  }

  lemma ImagesSize(rest: seq<Node>, n: Node, top: bool, first: set<seq<nat>>, later: set<seq<nat>>)
    requires forall p :: p in later ==> Reaches(rest, p, n, top)
    ensures |Image(first, Deeper) + Image(later, Further)| == |first| + |later|
  {
    forall p, q
      ensures Deeper(p) == Deeper(q) <==> p == q
      ensures Further(p) == Further(q) <==> p == q
    {
      DeeperInjective(p, q);
      FurtherInjective(p, q);
    }
    ImageSize(first, Deeper);
    ImageSize(later, Further);
    assert forall p :: p in later ==> Further(p)[0] > 0;
    assert forall p :: p in first ==> Deeper(p)[0] == 0;
    assert Image(first, Deeper) !! Image(later, Further);
  }

  lemma PathJoined(nodes: seq<Node>, p: seq<nat>, n: Node, top: bool, first: set<seq<nat>>, later: set<seq<nat>>)
    requires nodes != []
    requires forall p :: p in later <==> Reaches(nodes[1..], p, n, top)
    requires forall p :: p in first <==> ReachesFrom(nodes[0], p, n, top)
    ensures p in Image(first, Deeper) + Image(later, Further) <==> Reaches(nodes, p, n, top)
  {
    hide Deeper, Further, Reaches, ReachesFrom;
    if p in Image(first, Deeper) {
      var q :| q in first && p == Deeper(q);
      DeeperReaches(nodes, q, n, top);
    }
    if p in Image(later, Further) {
      var q :| q in later && p == Further(q);
      FurtherReaches(nodes, q, n, top);
    }
    if Reaches(nodes, p, n, top) {
      NotEmpty(nodes, p, n, top);
      var q := DeeperOrFurther(p);
      if p[0] == 0 {
        DeeperReaches(nodes, q, n, top);
      } else {
        FurtherReaches(nodes, q, n, top);
      }
      assert q in first || q in later;
    }
  }

  lemma NotEmpty(nodes: seq<Node>, p: seq<nat>, n: Node, top: bool)
    requires Reaches(nodes, p, n, top)
    ensures p != [] && n.File?
  {
  }

  lemma LeavesOfFirst(nodes: seq<Node>, n: Node, top: bool)
    requires nodes != []
    ensures Leaves(if top then nodes else Listing(nodes))[n]
         == (if Shown(nodes[0], top) then LeavesOf(nodes[0])[n] else 0)
          + Leaves(if top then nodes[1..] else Listing(nodes[1..]))[n]
  {
    if !top && Shown(nodes[0], top) {
      assert ([nodes[0]] + Listing(nodes[1..]))[1..] == Listing(nodes[1..]);
    }
  }

  lemma ReadableFirst(nodes: seq<Node>, top: bool)
    requires nodes != []
    ensures var m := nodes[0];
      AllReadable(if top then nodes else Listing(nodes)) <==>
        (Shown(m, top) ==> if m.Dir? then AllReadable(Listing(m.children)) else m.readable)
        && AllReadable(if top then nodes[1..] else Listing(nodes[1..]))
  {
    if !top && Shown(nodes[0], top) {
      assert ([nodes[0]] + Listing(nodes[1..]))[1..] == Listing(nodes[1..]);
    }
  }

  lemma {:induction false} ReachedReadable(nodes: seq<Node>, p: seq<nat>, n: Node, top: bool)
    requires AllReadable(if top then nodes else Listing(nodes)) && Reaches(nodes, p, n, top)
    ensures n.File? && n.readable
    decreases Size(nodes)
  {
    ReadableFirst(nodes, top);
    if p[0] > 0 {
      var q := [(p[0] - 1) as nat] + p[1..];
      assert q[1..] == p[1..] && nodes[1..][q[0]] == nodes[p[0]];
      ReachedReadable(nodes[1..], q, n, top);
    } else if |p| > 1 {
      ReachedReadable(nodes[0].children, p[1..], n, false);
    }
  }

  lemma {:induction false} UnreadableReached(nodes: seq<Node>, top: bool) returns (p: seq<nat>, n: Node)
    requires !AllReadable(if top then nodes else Listing(nodes))
    ensures Reaches(nodes, p, n, top) && n.File? && !n.readable
    decreases Size(nodes)
  {
    ReadableFirst(nodes, top);
    var m := nodes[0];
    if !AllReadable(if top then nodes[1..] else Listing(nodes[1..])) {
      var q;
      q, n := UnreadableReached(nodes[1..], top);
      p := [q[0] + 1] + q[1..];
      assert p[1..] == q[1..] && nodes[p[0]] == nodes[1..][q[0]];
    } else if m.Dir? {
      var q;
      q, n := UnreadableReached(m.children, false);
      p := [0] + q;
      assert p[1..] == q;
    } else {
      p, n := [0], m;
    }
  }

  predicate ReachesUnreadable(nodes: seq<Node>, p: seq<nat>, n: Node)
  {
    Reaches(nodes, p, n, true) && n.File? && !n.readable
  }

  /** The loop fails exactly when a path reaches an unreadable file. */
  lemma ReadableExact(nodes: seq<Node>)
    ensures !AllReadable(nodes) <==> exists p, n :: ReachesUnreadable(nodes, p, n)
  {
    if AllReadable(nodes) {
      forall p, n
        ensures !ReachesUnreadable(nodes, p, n)
      {
        if Reaches(nodes, p, n, true) {
          ReachedReadable(nodes, p, n, true);
        }
      }
    } else {
      var p, n := UnreadableReached(nodes, true);
      assert ReachesUnreadable(nodes, p, n);
    }
  }

  predicate Plain(n: Node) { n.File? && !n.hidden && n.readable }

  lemma PlainFirst(nodes: seq<Node>)
    requires nodes != [] && Plain(nodes[0])
    ensures LevelOrder(nodes) == [nodes[0]] + LevelOrder(nodes[1..])
    ensures AllReadable(nodes) <==> AllReadable(nodes[1..])
    ensures Size(nodes) == 1 + Size(nodes[1..])
  {
  }

  /** Scanned entries stay where they are. */
  lemma {:induction false} PlainPrefix(a: seq<Node>, b: seq<Node>)
    requires forall n :: n in a ==> Plain(n)
    ensures LevelOrder(a + b) == a + LevelOrder(b)
    ensures AllReadable(a + b) <==> AllReadable(b)
    ensures Size(a + b) == |a| + Size(b)
  {
    if a == [] {
      assert a + b == b && a + LevelOrder(b) == LevelOrder(b);
    } else {
      var all, rest := a + b, a[1..];
      assert all[1..] == rest + b && all[0] == a[0] && a[0] in a;
      PlainPrefix(rest, b);
      PlainFirst(all);
      hide LevelOrder, AllReadable, Size;
      assert a == [a[0]] + rest;
    }
  }

  /** Erasing the entry after a scanned prefix, and appending what replaces it. */
  lemma ReplaceStep(a: seq<Node>, n: Node, b: seq<Node>, added: seq<Node>)
    requires forall m :: m in a ==> Plain(m)
    requires if n.Dir? then added == Listing(n.children) else n.hidden && n.readable && added == []
    ensures LevelOrder(a + b + added) == LevelOrder(a + [n] + b)
    ensures AllReadable(a + b + added) <==> AllReadable(a + [n] + b)
    ensures Size(a + b + added) < Size(a + [n] + b)
  {
    var rest := [n] + b;
    assert a + [n] + b == a + rest && a + b + added == a + (b + added);
    assert rest[0] == n && rest[1..] == b;
    PlainPrefix(a, rest);
    PlainPrefix(a, b + added);
    SizeConcat(b, added);
    LeavesConcat(b, added);
    if !n.Dir? {
      assert b + added == b && [] + LevelOrder(b) == LevelOrder(b);
    }
  }

  /** The source's nested loops: `files.erase`, `files.append`, `break` and start over. */
  method Flatten(input: seq<Node>) returns (ok: bool, files: seq<Node>)
    ensures ok <==> AllReadable(input)
    ensures ok ==> files == LevelOrder(input)
    ensures ok ==> multiset(files) == Leaves(input) && forall n :: n in files ==> n.File? && !n.hidden
    ensures ok ==> AsOftenAsReached(input, files)
  {
    hide LevelOrder, AllReadable, Size, Leaves, Listing, AsOftenAsReached;
    files := input;
    var hasDirs := true;
    while hasDirs
      invariant LevelOrder(files) == LevelOrder(input)
      invariant AllReadable(files) <==> AllReadable(input)
      invariant !hasDirs ==> forall n :: n in files ==> Plain(n)
      decreases hasDirs, Size(files)
    {
      hasDirs := false;
      var i := 0;
      ghost var start := files;
      while i < |files|
        invariant 0 <= i <= |files|
        invariant !hasDirs && files == start
        invariant forall n :: n in files[..i] ==> Plain(n)
        decreases |files| - i
      {
        var info := files[i];
        assert files == files[..i] + [info] + files[i + 1..];
        if info.Dir? {
          hasDirs := true;
          ReplaceStep(files[..i], info, files[i + 1..], Listing(info.children));
          files := files[..i] + files[i + 1..];
          files := files + Listing(info.children);
          break;
        } else if !info.readable {
          Unreadable(files[..i], info, files[i + 1..]);
          ok := false;
          return;
        } else if info.hidden {
          hasDirs := true;
          ReplaceStep(files[..i], info, files[i + 1..], []);
          files := files[..i] + files[i + 1..];
          assert files + [] == files;
          break;
        }
        assert files[..i + 1] == files[..i] + [info];
        i := i + 1;
      }
    }
    ok := true;
    Scanned(files);
    LevelOrderExact(input);
    LeavesReached(input, files);
  }

  lemma Unreadable(a: seq<Node>, n: Node, b: seq<Node>)
    requires forall m :: m in a ==> Plain(m)
    requires n.File? && !n.readable
    ensures !AllReadable(a + [n] + b)
  {
    assert a + [n] + b == a + ([n] + b);
    PlainPrefix(a, [n] + b);
  }

  lemma Scanned(files: seq<Node>)
    requires forall n :: n in files ==> Plain(n)
    ensures LevelOrder(files) == files && AllReadable(files)
  {
    PlainPrefix(files, []);
    assert files + [] == files;
  }
}
