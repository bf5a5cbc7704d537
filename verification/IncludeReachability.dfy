/** The scanner scans exactly what can be reached, each file once, and reports what it could not follow. */
module IncludeReachability {
  import opened Wrappers
  import opened IncludeScanner

  /** x includes y. */
  predicate Edge(t: Tree, o: Options, x: string, y: string) {
    exists inc :: inc in IncludesOf(t, x) && Resolved(t, o, x, inc) == Some(y)
  }

  /** A chain of includes, none of them excluded. */
  predicate IsChain(t: Tree, o: Options, p: seq<string>) {
    p != [] && forall i :: 0 < i < |p| ==> Edge(t, o, p[i - 1], p[i]) && p[i] !in o.excludes
  }

  ghost predicate Reaches(t: Tree, o: Options, root: string, x: string) {
    exists p :: IsChain(t, o, p) && p[0] == root && p[|p| - 1] == x
  }

  lemma ReachesItself(t: Tree, o: Options, root: string)
    ensures Reaches(t, o, root, root)
  {
    assert IsChain(t, o, [root]) && [root][0] == root;
  }

  lemma ReachesOverEdge(t: Tree, o: Options, x: string, y: string, z: string)
    requires Edge(t, o, x, y) && y !in o.excludes && Reaches(t, o, y, z)
    ensures Reaches(t, o, x, z)
  {
    var p :| IsChain(t, o, p) && p[0] == y && p[|p| - 1] == z;
    var q := [x] + p;
    forall i | 0 < i < |q| ensures Edge(t, o, q[i - 1], q[i]) && q[i] !in o.excludes {
      if i > 1 { assert Edge(t, o, p[i - 2], p[i - 1]); }
    }
    assert IsChain(t, o, q) && q[0] == x && q[|q| - 1] == z;
  }

  predicate IsScanned(st: State, x: string) {
    exists k :: 0 <= k < |st.scanned| && st.scanned[k].file == x
  }

  /** All includes of x that can be located have been visited. */
  ghost predicate Closed(t: Tree, o: Options, x: string, visited: seq<string>) {
    forall y :: Edge(t, o, x, y) ==> y in visited
  }

  /** What a scan on behalf of `from` adds: scanned files, all reachable and closed, and excluded ones. */
  ghost predicate Explored(t: Tree, o: Options, from: string, a: State, b: State) {
    && a.visited <= b.visited && a.scanned <= b.scanned
    && (forall k :: |a.scanned| <= k < |b.scanned| ==>
          Reaches(t, o, from, b.scanned[k].file) && Closed(t, o, b.scanned[k].file, b.visited))
    && (forall x :: x in b.visited && x !in a.visited ==> x in o.excludes || IsScanned(b, x))
  }

  lemma ExploredTrans(t: Tree, o: Options, from: string, a: State, b: State, c: State)
    requires Explored(t, o, from, a, b) && Explored(t, o, from, b, c)
    ensures Explored(t, o, from, a, c)
  {
    forall k | |a.scanned| <= k < |c.scanned|
      ensures Reaches(t, o, from, c.scanned[k].file) && Closed(t, o, c.scanned[k].file, c.visited)
    {
      if k < |b.scanned| { assert c.scanned[k] == b.scanned[k] && Closed(t, o, b.scanned[k].file, b.visited); }
    }
    forall x | x in c.visited && x !in a.visited ensures x in o.excludes || IsScanned(c, x) {
      if x in b.visited && IsScanned(b, x) {
        var k :| 0 <= k < |b.scanned| && b.scanned[k].file == x;
        assert c.scanned[k] == b.scanned[k];
      }
    }
  }

  lemma ExploredFrom(t: Tree, o: Options, x: string, y: string, a: State, b: State)
    requires Edge(t, o, x, y) && y !in o.excludes && Explored(t, o, y, a, b)
    ensures Explored(t, o, x, a, b)
  {
    forall k | |a.scanned| <= k < |b.scanned| ensures Reaches(t, o, x, b.scanned[k].file) {
      ReachesOverEdge(t, o, x, y, b.scanned[k].file);
    }
  }

  /** The includes of the file from the n-th on have been visited where they can be located. */
  ghost predicate Followed(t: Tree, o: Options, file: string, n: nat, visited: seq<string>) {
    forall k :: n <= k < |IncludesOf(t, file)| ==> FollowedOne(t, o, file, IncludesOf(t, file)[k], visited)
  }

  predicate FollowedOne(t: Tree, o: Options, file: string, inc: string, visited: seq<string>) {
    var target := Resolved(t, o, file, inc);
    target.Some? ==> target.value in visited
  }

  lemma AllFollowed(t: Tree, o: Options, file: string, visited: seq<string>)
    requires Followed(t, o, file, 0, visited)
    ensures Closed(t, o, file, visited)
  {
    forall y | Edge(t, o, file, y) ensures y in visited {
      var inc :| inc in IncludesOf(t, file) && Resolved(t, o, file, inc) == Some(y);
      var k :| 0 <= k < |IncludesOf(t, file)| && IncludesOf(t, file)[k] == inc;
      assert FollowedOne(t, o, file, IncludesOf(t, file)[k], visited);
    }
  }

  /** A file scanned at once and then all it leads to. */
  lemma ExploredWithRoot(t: Tree, o: Options, file: string, dep: Option<string>, st: State, end: State)
    requires Explored(t, o, file, Begin(st, file, dep), end) && Closed(t, o, file, end.visited)
    ensures Explored(t, o, file, st, end) && file in end.visited
  {
    var begun := Begin(st, file, dep);
    ReachesItself(t, o, file);
    assert end.scanned[|st.scanned|] == begun.scanned[|st.scanned|] == Scanned(file, dep);
    assert end.visited[|st.visited|] == begun.visited[|st.visited|] == file;
  }

  lemma {:induction false} ScanExplores(t: Tree, o: Options, file: string, dep: Option<string>, st: State)
    requires file in t.files && file !in st.visited
    ensures Explored(t, o, file, st, Scan(t, o, file, dep, st).1) && file in Scan(t, o, file, dep, st).1.visited
    decreases Unvisited(t, st.visited), 0
  {
    FewerUnvisited(t, st.visited, st.visited + [file]);
    var end := ScanIncludes(t, o, file, 0, Begin(st, file, dep)).1;
    LoopExplores(t, o, file, 0, Begin(st, file, dep));
    AllFollowed(t, o, file, end.visited);
    ExploredWithRoot(t, o, file, dep, st, end);
  }

  lemma {:induction false} LoopExplores(t: Tree, o: Options, file: string, n: nat, st: State)
    requires n <= |IncludesOf(t, file)|
    ensures Explored(t, o, file, st, ScanIncludes(t, o, file, n, st).1)
    ensures Followed(t, o, file, n, ScanIncludes(t, o, file, n, st).1.visited)
    decreases Unvisited(t, st.visited), 1 + |IncludesOf(t, file)| - n
  {
    if n < |IncludesOf(t, file)| {
      var one := ScanInclude(t, o, file, IncludesOf(t, file)[n], st).1;
      var end := ScanIncludes(t, o, file, n + 1, one).1;
      IncludeExplores(t, o, file, IncludesOf(t, file)[n], st);
      FewerUnvisited(t, st.visited, one.visited);
      LoopExplores(t, o, file, n + 1, one);
      ExploredTrans(t, o, file, st, one, end);
      OneMoreFollowed(t, o, file, n, one.visited, end.visited);
    }
  }

  lemma OneMoreFollowed(t: Tree, o: Options, file: string, n: nat, before: seq<string>, visited: seq<string>)
    requires n < |IncludesOf(t, file)| && FollowedOne(t, o, file, IncludesOf(t, file)[n], before) && before <= visited
    requires Followed(t, o, file, n + 1, visited)
    ensures Followed(t, o, file, n, visited)
  {
    forall k | n <= k < |IncludesOf(t, file)| ensures FollowedOne(t, o, file, IncludesOf(t, file)[k], visited) {
      if k == n { PrefixMembers(before, visited); }
    }
  }

  lemma PrefixMembers(before: seq<string>, visited: seq<string>)
    requires before <= visited
    ensures forall x :: x in before ==> x in visited
  {
    assert forall k :: 0 <= k < |before| ==> before[k] == visited[k];
  }

  lemma {:induction false} IncludeExplores(t: Tree, o: Options, file: string, inc: string, st: State)
    requires inc in IncludesOf(t, file)
    ensures Explored(t, o, file, st, ScanInclude(t, o, file, inc, st).1)
    ensures FollowedOne(t, o, file, inc, ScanInclude(t, o, file, inc, st).1.visited)
    decreases Unvisited(t, st.visited), 1
  {
    var target := Resolved(t, o, file, inc);
    if target.Some? && target.value !in st.visited && target.value !in o.excludes {
      ScanExplores(t, o, target.value, Dependency(t, o, file, inc), st);
      assert Edge(t, o, file, target.value);
      ExploredFrom(t, o, file, target.value, st, ScanInclude(t, o, file, inc, st).1);
    }
  }

  // ---- Each file once ----

  predicate NoRepeats<T(==)>(s: seq<T>) {
    forall i, j :: 0 <= i < j < |s| ==> s[i] != s[j]
  }

  /** No file is visited twice, and scanned files are visited ones. */
  ghost predicate Tidy(st: State) {
    && NoRepeats(st.visited)
    && (forall i, j :: 0 <= i < j < |st.scanned| ==> st.scanned[i].file != st.scanned[j].file)
    && (forall k :: 0 <= k < |st.scanned| ==> st.scanned[k].file in st.visited)
  }

  lemma {:induction false} ScanStaysTidy(t: Tree, o: Options, file: string, dep: Option<string>, st: State)
    requires file in t.files && file !in st.visited && Tidy(st)
    ensures Tidy(Scan(t, o, file, dep, st).1)
    decreases Unvisited(t, st.visited), 0
  {
    FewerUnvisited(t, st.visited, st.visited + [file]);
    LoopStaysTidy(t, o, file, 0, Begin(st, file, dep));
  }

  lemma {:induction false} LoopStaysTidy(t: Tree, o: Options, file: string, n: nat, st: State)
    requires n <= |IncludesOf(t, file)| && Tidy(st)
    ensures Tidy(ScanIncludes(t, o, file, n, st).1)
    decreases Unvisited(t, st.visited), 1 + |IncludesOf(t, file)| - n
  {
    if n < |IncludesOf(t, file)| {
      var inc := IncludesOf(t, file)[n];
      var one := ScanInclude(t, o, file, inc, st).1;
      FewerUnvisited(t, st.visited, one.visited);
      var target := Resolved(t, o, file, inc);
      if target.Some? && target.value !in st.visited && target.value !in o.excludes {
        ScanStaysTidy(t, o, target.value, Dependency(t, o, file, inc), st);
      }
      LoopStaysTidy(t, o, file, n + 1, one);
    }
  }

  // ---- The main results ----

  /** A scan with nothing visited yet. */
  function Fresh(reports: Reports): State {
    State([], [], reports)
  }

  lemma {:induction false} ChainIsScanned(t: Tree, o: Options, p: seq<string>, reports: Reports, st: State)
    requires IsChain(t, o, p) && Explored(t, o, p[0], Fresh(reports), st) && IsScanned(st, p[0])
    ensures IsScanned(st, p[|p| - 1])
    decreases |p|
  {
    if |p| > 1 {
      var q := p[..|p| - 1];
      assert IsChain(t, o, q);
      ChainIsScanned(t, o, q, reports, st);
      var k :| 0 <= k < |st.scanned| && st.scanned[k].file == q[|q| - 1];
      assert Closed(t, o, st.scanned[k].file, st.visited) && Edge(t, o, p[|p| - 2], p[|p| - 1]);
    }
  }

  /** The files scanned are exactly those that can be reached from the root through files that are not excluded. */
  lemma ScansExactlyTheReachable(t: Tree, o: Options, root: string, dep: Option<string>, reports: Reports)
    requires root in t.files
    ensures var st := Scan(t, o, root, dep, Fresh(reports)).1;
            && (forall x :: IsScanned(st, x) <==> Reaches(t, o, root, x))
            && (forall i, j :: 0 <= i < j < |st.scanned| ==> st.scanned[i].file != st.scanned[j].file)
  {
    var st := Scan(t, o, root, dep, Fresh(reports)).1;
    ScanExplores(t, o, root, dep, Fresh(reports));
    ScanStaysTidy(t, o, root, dep, Fresh(reports));
    RootIsScanned(t, o, root, dep, Fresh(reports));
    assert st.scanned[0] == Scanned(root, dep);
    forall x ensures IsScanned(st, x) <==> Reaches(t, o, root, x) {
      if Reaches(t, o, root, x) {
        var p :| IsChain(t, o, p) && p[0] == root && p[|p| - 1] == x;
        ChainIsScanned(t, o, p, reports, st);
      }
    }
  }

  lemma RootIsScanned(t: Tree, o: Options, root: string, dep: Option<string>, st: State)
    requires root in t.files && root !in st.visited
    ensures st.scanned + [Scanned(root, dep)] <= Scan(t, o, root, dep, st).1.scanned
  {
    LoopExplores(t, o, root, 0, Begin(st, root, dep));
  }

  // ---- Dependencies ----

  /** The dependencies of scanned files, in the order of scanning. */
  function DepsOf(o: Options, scanned: seq<Scanned>): (deps: seq<string>)
    ensures |deps| <= |scanned|
  {
    if scanned == [] then [] else DepsOf(o, scanned[..|scanned| - 1]) + DepName(o, scanned[|scanned| - 1].dep)
  }

  lemma {:induction false} DepsOfConcat(o: Options, a: seq<Scanned>, b: seq<Scanned>)
    ensures DepsOf(o, a + b) == DepsOf(o, a) + DepsOf(o, b)
    decreases |b|
  {
    if b == [] {
      assert a + b == a;
    } else {
      assert (a + b)[..|a + b| - 1] == a + b[..|b| - 1];
      DepsOfConcat(o, a, b[..|b| - 1]);
    }
  }

  /** The second state has scanned more, with these dependencies. */
  ghost predicate Yields(o: Options, a: State, deps: seq<string>, b: State) {
    a.scanned <= b.scanned && deps == DepsOf(o, b.scanned[|a.scanned|..])
  }

  lemma YieldsTrans(o: Options, a: State, d: seq<string>, b: State, e: seq<string>, c: State)
    requires Yields(o, a, d, b) && Yields(o, b, e, c)
    ensures Yields(o, a, d + e, c)
  {
    DepsOfConcat(o, b.scanned[|a.scanned|..], c.scanned[|b.scanned|..]);
    assert c.scanned[|a.scanned|..] == b.scanned[|a.scanned|..] + c.scanned[|b.scanned|..];
  }

  lemma {:induction false} ScanYields(t: Tree, o: Options, file: string, dep: Option<string>, st: State)
    requires file in t.files && file !in st.visited
    ensures Yields(o, st, Scan(t, o, file, dep, st).0, Scan(t, o, file, dep, st).1)
    decreases Unvisited(t, st.visited), 0
  {
    FewerUnvisited(t, st.visited, st.visited + [file]);
    var begun := Begin(st, file, dep);
    var rest := ScanIncludes(t, o, file, 0, begun);
    LoopYields(t, o, file, 0, begun);
    assert begun.scanned[|st.scanned|..] == [Scanned(file, dep)];
    assert [Scanned(file, dep)][..0] == [];
    YieldsTrans(o, st, DepName(o, dep), begun, rest.0, rest.1);
  }

  lemma {:induction false} LoopYields(t: Tree, o: Options, file: string, n: nat, st: State)
    requires n <= |IncludesOf(t, file)|
    ensures Yields(o, st, ScanIncludes(t, o, file, n, st).0, ScanIncludes(t, o, file, n, st).1)
    decreases Unvisited(t, st.visited), 1 + |IncludesOf(t, file)| - n
  {
    if n < |IncludesOf(t, file)| {
      var inc := IncludesOf(t, file)[n];
      var one := ScanInclude(t, o, file, inc, st);
      FewerUnvisited(t, st.visited, one.1.visited);
      var target := Resolved(t, o, file, inc);
      if target.Some? && target.value !in st.visited && target.value !in o.excludes {
        ScanYields(t, o, target.value, Dependency(t, o, file, inc), st);
      }
      LoopYields(t, o, file, n + 1, one.1);
      var rest := ScanIncludes(t, o, file, n + 1, one.1);
      YieldsTrans(o, st, one.0, one.1, rest.0, rest.1);
    }
  }

  /** At most one dependency per scanned file, in the order of scanning. */
  lemma OneDependencyPerFile(t: Tree, o: Options, root: string, dep: Option<string>, reports: Reports)
    requires root in t.files
    ensures var r := Scan(t, o, root, dep, Fresh(reports));
            r.0 == DepsOf(o, r.1.scanned) && |r.0| <= |r.1.scanned|
  {
    ScanYields(t, o, root, dep, Fresh(reports));
    var st := Scan(t, o, root, dep, Fresh(reports)).1;
    assert st.scanned[0..] == st.scanned;
  }
}
