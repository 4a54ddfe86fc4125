/**
 The npm production dependency closure of a lockfile: Node's upward resolution of one
 dependency, and the worklist that collects every package reachable from the roots.
 */
module NpmClosure {
  import opened Common
  import opened Texts

  /** A lockfile entry. Anything that is not an object, or whose dependency tables are not, is told apart. */
  datatype Entry =
    | NotAnObject
    | Package(version: Option<string>, tablesOk: bool, required: set<string>, optional: set<string>,
              peers: set<string>, optionalPeers: set<string>)

  type Packages = map<string, Entry>

  // ---------------------------------------------------------------------------
  // Resolution
  // ---------------------------------------------------------------------------

  /** Everything before the last slash, or nothing. */
  function Parent(path: string): (p: string)
    ensures path != "" ==> |p| < |path|
    ensures p == "" || (|p| < |path| && p + "/" <= path)
  {
    if path == "" then ""
    else if path[|path| - 1] == '/' then path[..|path| - 1]
    else
      var p := Parent(path[..|path| - 1]);
      assert p != "" ==> p + "/" <= path[..|path| - 1] <= path;
      p
  }

  function Candidate(prefix: string, name: string): string {
    (if prefix == "" then "" else prefix + "/") + "node_modules" + "/" + name
  }

  lemma FoldersBelow(prefix: string, folder: string, name: string)
    requires '/' !in folder
    ensures Split(folder + ['/'] + name, '/') == [folder] + Split(name, '/')
    ensures Split(prefix + ['/'] + folder + ['/'] + name, '/') == Split(prefix, '/') + [folder] + Split(name, '/')
  {
    SplitAlone(folder, '/');
    SplitConcat(folder, name, '/');
    SplitConcat(prefix, folder, '/');
    SplitConcat(prefix + ['/'] + folder, name, '/');
  }

  /** A candidate, folder by folder: below the prefix, in `node_modules`, under the name of the dependency. */
  lemma CandidateFolders(prefix: string, name: string)
    ensures Split(Candidate(prefix, name), '/')
         == (if prefix == "" then [] else Split(prefix, '/')) + ["node_modules"] + Split(name, '/')
  {
    FoldersBelow(prefix, "node_modules", name);
    assert "" + "node_modules" == "node_modules";
  }

  /** The directories a dependency is looked up in, nearest first. */
  function Ancestors(path: string): seq<string>
    decreases |path|
  {
    if path == "" then [""] else [path] + Ancestors(Parent(path))
  }

  function ResolveIn(packages: Packages, prefixes: seq<string>, name: string): Option<string> {
    if prefixes == [] then None
    else if Candidate(prefixes[0], name) in packages then Some(Candidate(prefixes[0], name))
    else ResolveIn(packages, prefixes[1..], name)
  }

  function Resolve(packages: Packages, parent: string, name: string): Option<string> {
    ResolveIn(packages, Ancestors(parent), name)
  }

  method ResolveDependency(packages: Packages, parent: string, name: string) returns (found: Option<string>)
    ensures found == Resolve(packages, parent, name)
  {
    var prefix := parent;
    while true
      invariant ResolveIn(packages, Ancestors(prefix), name) == Resolve(packages, parent, name)
      decreases |prefix|
    {
      var candidate := Candidate(prefix, name);
      if candidate in packages {
        return Some(candidate);
      }
      if prefix == "" {
        return None;
      }
      assert ([prefix] + Ancestors(Parent(prefix)))[1..] == Ancestors(Parent(prefix));
      prefix := Parent(prefix);
    }
  }

  /** A directory on the way up: the path itself, the root, or a prefix that ends before a slash. */
  predicate IsAncestor(a: string, path: string) { a == path || a == "" || a + "/" <= path }

  lemma {:induction false} ParentIsNearest(a: string, path: string)
    requires a + "/" <= path
    ensures a == Parent(path) || a + "/" <= Parent(path)
    decreases |path|
  {
    var n := |path| - 1;
    assert (a + "/")[|a|] == '/' == path[|a|];
    if path[n] == '/' {
      if |a| < n {
        assert a + "/" <= path[..n];
      } else {
        assert a == path[..n];
      }
    } else {
      assert |a| < n;
      assert a + "/" <= path[..n];
      ParentIsNearest(a, path[..n]);
    }
  }

  lemma {:induction false} AncestorsAreAll(a: string, path: string)
    ensures a in Ancestors(path) <==> IsAncestor(a, path)
    decreases |path|
  {
    if path != "" {
      AncestorsAreAll(a, Parent(path));
      if a + "/" <= path {
        ParentIsNearest(a, path);
      }
      if a in Ancestors(Parent(path)) && a != Parent(path) && a != "" {
        assert a + "/" <= Parent(path) <= path;
      }
      assert a == Parent(path) && a != "" ==> a + "/" <= path;
    }
  }

  /** The ancestors come longest first. */
  lemma {:induction false} AncestorsShrink(path: string, i: nat, j: nat)
    requires i < j < |Ancestors(path)|
    ensures |Ancestors(path)[j]| < |Ancestors(path)[i]|
    decreases |path|
  {
    if path != "" {
      var up := Ancestors(Parent(path));
      if i > 0 {
        AncestorsShrink(Parent(path), i - 1, j - 1);
      } else if j > 1 {
        AncestorsShrink(Parent(path), 0, j - 1);
      }
      assert up[0] == Parent(path);
    }
  }

  lemma {:induction false} ResolveInIsFirst(packages: Packages, prefixes: seq<string>, name: string) returns (i: nat)
    ensures i <= |prefixes|
    ensures forall j :: 0 <= j < i ==> Candidate(prefixes[j], name) !in packages
    ensures i == |prefixes| ==> ResolveIn(packages, prefixes, name) == None
    ensures i < |prefixes| ==> Candidate(prefixes[i], name) in packages
    ensures i < |prefixes| ==> ResolveIn(packages, prefixes, name) == Some(Candidate(prefixes[i], name))
  {
    if prefixes == [] || Candidate(prefixes[0], name) in packages {
      i := 0;
    } else {
      var k := ResolveInIsFirst(packages, prefixes[1..], name);
      i := k + 1;
    }
  }

  /** A dependency resolves to the package under the longest ancestor directory that has one, if any has. */
  lemma ResolveIsLongest(packages: Packages, parent: string, name: string)
    ensures Resolve(packages, parent, name).None? <==>
              forall a :: IsAncestor(a, parent) ==> Candidate(a, name) !in packages
    ensures Resolve(packages, parent, name).Some? ==>
              exists a :: IsAncestor(a, parent) && Resolve(packages, parent, name) == Some(Candidate(a, name))
                          && Candidate(a, name) in packages
                          && forall b :: IsAncestor(b, parent) && |b| > |a| ==> Candidate(b, name) !in packages
  {
    var all := Ancestors(parent);
    var i := ResolveInIsFirst(packages, all, name);
    forall a
      ensures a in all <==> IsAncestor(a, parent)
    {
      AncestorsAreAll(a, parent);
    }
    if i < |all| {
      var a := all[i];
      assert a in all;
      forall b | IsAncestor(b, parent) && |b| > |a|
        ensures Candidate(b, name) !in packages
      {
        assert b in all;
        var j :| 0 <= j < |all| && all[j] == b;
        if i < j {
          AncestorsShrink(parent, i, j);
        }
      }
    }
  }

  // ---------------------------------------------------------------------------
  // Dependencies of one entry
  // ---------------------------------------------------------------------------

  /** Each dependency name, with whether the lockfile may lack it. */
  function DependencyNames(e: Entry): map<string, bool>
    requires e.Package?
  {
    map name | name in e.required + e.optional + (e.peers - e.optionalPeers) ::
      name !in e.required && name in e.optional
  }

  /** Which dependencies an entry cannot do without, and which it can. */
  lemma DependencyKinds(e: Entry, name: string)
    requires e.Package?
    ensures var names := DependencyNames(e);
      && (name in names && !names[name] <==>
            name in e.required || (name in e.peers && name !in e.optionalPeers && name !in e.optional))
      && (name in names && names[name] <==> name in e.optional && name !in e.required)
  {
  }

  predicate EntryOk(e: Entry) { e.Package? && e.version.Some? && e.version.value != "" && e.tablesOk }

  /** The packages an entry leads to. */
  function Edges(packages: Packages, path: string): set<string> {
    if path !in packages || !packages[path].Package? then {}
    else
      var e := packages[path];
      set name | name in e.required + e.optional + (e.peers - e.optionalPeers) && Resolve(packages, path, name).Some?
        :: Resolve(packages, path, name).value
  }

  /** An entry of the right shape, with a version, whose required dependencies and plain peers all resolve. */
  predicate Complete(packages: Packages, path: string) {
    path in packages && match packages[path]
    case NotAnObject => false
    case Package(version, tablesOk, required, optional, peers, optionalPeers) =>
      && version != None && version != Some("") && tablesOk
      && (forall name :: name in required ==> Resolve(packages, path, name).Some?)
      && (forall name :: name in peers - optionalPeers - optional ==> Resolve(packages, path, name).Some?)
  }

  lemma ResolvedIsPackage(packages: Packages, parent: string, name: string)
    ensures Resolve(packages, parent, name).Some? ==> Resolve(packages, parent, name).value in packages
  {
    var i := ResolveInIsFirst(packages, Ancestors(parent), name);
  }

  lemma EdgesArePackages(packages: Packages, path: string)
    ensures Edges(packages, path) <= packages.Keys
  {
    forall p | p in Edges(packages, path)
      ensures p in packages
    {
      var name :| Resolve(packages, path, name) == Some(p);
      ResolvedIsPackage(packages, path, name);
    }
  }

  // ---------------------------------------------------------------------------
  // Reachability
  // ---------------------------------------------------------------------------

  ghost predicate IsPath(packages: Packages, roots: set<string>, path: seq<string>) {
    && path != []
    && (if |path| == 1 then path[0] in roots
        else path[|path| - 1] in Edges(packages, path[|path| - 2]) && IsPath(packages, roots, path[..|path| - 1]))
  }

  ghost predicate Reachable(packages: Packages, roots: set<string>, p: string) {
    exists path :: IsPath(packages, roots, path) && path[|path| - 1] == p
  }

  lemma RootReachable(packages: Packages, roots: set<string>, p: string)
    requires p in roots
    ensures Reachable(packages, roots, p)
  {
    assert IsPath(packages, roots, [p]) && [p][|[p]| - 1] == p;
  }

  lemma EdgeReachable(packages: Packages, roots: set<string>, p: string, q: string)
    requires Reachable(packages, roots, p) && q in Edges(packages, p)
    ensures Reachable(packages, roots, q)
  {
    var path :| IsPath(packages, roots, path) && path[|path| - 1] == p;
    var longer := path + [q];
    assert longer[..|longer| - 1] == path;
    assert IsPath(packages, roots, longer) && longer[|longer| - 1] == q;
  }

  /** A set that holds the roots and follows every edge holds everything reachable. */
  lemma {:induction false} ClosedContainsPath(packages: Packages, roots: set<string>, closed: set<string>,
                                              path: seq<string>)
    requires roots <= closed && forall p :: p in closed ==> Edges(packages, p) <= closed
    requires IsPath(packages, roots, path)
    ensures path[|path| - 1] in closed
    decreases |path|
  {
    if |path| > 1 {
      ClosedContainsPath(packages, roots, closed, path[..|path| - 1]);
      assert path[..|path| - 1][|path| - 2] == path[|path| - 2];
    }
  }

  // ---------------------------------------------------------------------------
  // The worklist
  // ---------------------------------------------------------------------------

  datatype Closure = Closure(components: map<string, set<string>>, roots: set<string>) | Failed

  /** The resolved roots, unless one of them is missing. */
  function RootSet(packages: Packages, names: set<string>): set<string> {
    set name | name in names && Resolve(packages, "", name).Some? :: Resolve(packages, "", name).value
  }

  predicate RootsResolve(packages: Packages, names: set<string>) {
    forall name :: name in names ==> Resolve(packages, "", name).Some?
  }

  function SetOf(s: seq<string>): set<string> { set x | x in s }

  /** The resolved dependencies of one package, in the order they are visited, or a failure. */
  method Expand(packages: Packages, path: string) returns (dependencies: Option<seq<string>>)
    requires path in packages
    ensures dependencies.Some? <==> Complete(packages, path)
    ensures dependencies.Some? ==> SetOf(dependencies.value) == Edges(packages, path)
  {
    var entry := packages[path];
    if !EntryOk(entry) {
      return None;
    }
    var names := DependencyNames(entry);
    var pending, resolved: seq<string> := names.Keys, [];
    while pending != {}
      invariant pending <= names.Keys
      invariant SetOf(resolved) == set name | name in names && name !in pending && Resolve(packages, path, name).Some?
                                     :: Resolve(packages, path, name).value
      invariant forall name :: name in names && name !in pending && !names[name] ==> Resolve(packages, path, name).Some?
      decreases pending
    {
      var name :| name in pending;
      var found := ResolveDependency(packages, path, name);
      if found.None? && !names[name] {
        return None;
      }
      pending := pending - {name};
      if found.Some? {
        assert SetOf(resolved + [found.value]) == SetOf(resolved) + {found.value};
        resolved := resolved + [found.value];
      }
    }
    return Some(resolved);
  }

  method ResolveRoots(packages: Packages, names: set<string>) returns (roots: Option<seq<string>>)
    ensures roots.Some? <==> RootsResolve(packages, names)
    ensures roots.Some? ==> SetOf(roots.value) == RootSet(packages, names)
  {
    var pending, resolved: seq<string> := names, [];
    while pending != {}
      invariant pending <= names
      invariant SetOf(resolved) == RootSet(packages, names - pending) && RootsResolve(packages, names - pending)
      decreases pending
    {
      var name :| name in pending;
      var found := ResolveDependency(packages, "", name);
      if found.None? {
        return None;
      }
      pending := pending - {name};
      assert SetOf(resolved + [found.value]) == SetOf(resolved) + {found.value};
      resolved := resolved + [found.value];
    }
    assert names - pending == names;
    return Some(resolved);
  }

  /** Found or still waiting. */
  function Known(components: map<string, set<string>>, queue: seq<string>): set<string> {
    components.Keys + SetOf(queue)
  }

  /** Everything found or waiting is reachable, and nothing leads out of what is found or waiting. */
  ghost predicate Working(packages: Packages, roots: set<string>, components: map<string, set<string>>,
                          queue: seq<string>) {
    && roots <= Known(components, queue)
    && (forall p {:trigger Settled(packages, components, queue, p)} :: p in components ==>
      Settled(packages, components, queue, p))
    && (forall p {:trigger Found(packages, roots, p)} :: p in Known(components, queue) ==> Found(packages, roots, p))
  }

  ghost predicate Found(packages: Packages, roots: set<string>, p: string) {
    Reachable(packages, roots, p) && p in packages
  }

  ghost predicate Settled(packages: Packages, components: map<string, set<string>>, queue: seq<string>, p: string) {
    p in components && components[p] == Edges(packages, p) <= Known(components, queue) && Complete(packages, p)
  }

  lemma WorkingStart(packages: Packages, names: set<string>, queue: seq<string>)
    requires SetOf(queue) == RootSet(packages, names)
    ensures Working(packages, RootSet(packages, names), map[], queue)
  {
    var roots := RootSet(packages, names);
    forall p | p in Known(map[], queue)
      ensures Found(packages, roots, p)
    {
      RootReachable(packages, roots, p);
      var name :| name in names && Resolve(packages, "", name) == Some(p);
      ResolvedIsPackage(packages, "", name);
    }
  }

  lemma KnownHead(components: map<string, set<string>>, queue: seq<string>)
    requires queue != []
    ensures Known(components, queue) == Known(components, queue[1..]) + {queue[0]}
  {
  }

  lemma WorkingSkip(packages: Packages, roots: set<string>, components: map<string, set<string>>, queue: seq<string>)
    requires Working(packages, roots, components, queue) && queue != [] && queue[0] in components
    ensures Working(packages, roots, components, queue[1..])
  {
    KnownHead(components, queue);
    assert Known(components, queue) == Known(components, queue[1..]);
    forall p | p in components
      ensures Settled(packages, components, queue[1..], p)
    {
      assert Settled(packages, components, queue, p);
    }
  }

  lemma KnownStep(components: map<string, set<string>>, queue: seq<string>, found: seq<string>)
    requires queue != []
    ensures Known(components[queue[0] := SetOf(found)], queue[1..] + found) == Known(components, queue) + SetOf(found)
  {
  }

  lemma WorkingStep(packages: Packages, roots: set<string>, components: map<string, set<string>>, queue: seq<string>,
                    found: seq<string>)
    requires Working(packages, roots, components, queue) && queue != []
    requires Complete(packages, queue[0]) && SetOf(found) == Edges(packages, queue[0])
    ensures Working(packages, roots, components[queue[0] := SetOf(found)], queue[1..] + found)
  {
    var p := queue[0];
    var next, rest := components[p := SetOf(found)], queue[1..] + found;
    KnownHead(components, queue);
    KnownStep(components, queue, found);
    EdgesArePackages(packages, p);
    forall q | q in next
      ensures Settled(packages, next, rest, q)
    {
      assert q != p ==> Settled(packages, components, queue, q);
    }
    forall q | q in Known(next, rest)
      ensures Found(packages, roots, q)
    {
      if q in SetOf(found) {
        assert Found(packages, roots, p);
        EdgeReachable(packages, roots, p, q);
      }
    }
  }

  /** Every reachable package is usable and has its required dependencies. */
  ghost predicate AllComplete(packages: Packages, roots: set<string>) {
    forall p :: Reachable(packages, roots, p) ==> Complete(packages, p)
  }

  /** Exactly the reachable packages, each with exactly its edges, none leading outside. */
  ghost predicate IsClosure(packages: Packages, roots: set<string>, components: map<string, set<string>>) {
    && (forall p :: p in components <==> Reachable(packages, roots, p))
    && (forall p :: p in components ==> components[p] == Edges(packages, p) <= components.Keys)
  }

  lemma WorkingDone(packages: Packages, roots: set<string>, components: map<string, set<string>>)
    requires Working(packages, roots, components, [])
    ensures IsClosure(packages, roots, components) && AllComplete(packages, roots)
  {
    assert Known(components, []) == components.Keys;
    assert forall q :: q in components ==> Settled(packages, components, [], q) && Found(packages, roots, q);
    forall p | Reachable(packages, roots, p)
      ensures p in components
    {
      var path :| IsPath(packages, roots, path) && path[|path| - 1] == p;
      ClosedContainsPath(packages, roots, components.Keys, path);
    }
  }

  /**
   The components are exactly the packages reachable from the roots, each with exactly its edges. The
   collection fails exactly when a root does not resolve or a reachable package is unusable or lacks a
   required dependency.
   */
  method CollectComponents(packages: Packages, rootNames: set<string>) returns (result: Closure)
    ensures result.Closure? <==>
      RootsResolve(packages, rootNames) && AllComplete(packages, RootSet(packages, rootNames))
    ensures result.Closure? ==>
              result.roots == RootSet(packages, rootNames) && IsClosure(packages, result.roots, result.components)
  {
    var start := ResolveRoots(packages, rootNames);
    if start.None? {
      return Failed;
    }
    ghost var roots := RootSet(packages, rootNames);
    var components: map<string, set<string>> := map[];
    var queue := start.value;
    WorkingStart(packages, rootNames, queue);
    while queue != []
      invariant Working(packages, roots, components, queue)
      decreases packages.Keys - components.Keys, |queue|
    {
      var path := queue[0];
      if path in components {
        WorkingSkip(packages, roots, components, queue);
        queue := queue[1..];
        continue;
      }
      KnownHead(components, queue);
      assert Found(packages, roots, path) && path in packages.Keys - components.Keys;
      var found := Expand(packages, path);
      if found.None? {
        return Failed;
      }
      WorkingStep(packages, roots, components, queue, found.value);
      queue := queue[1..] + found.value;
      components := components[path := SetOf(found.value)];
      assert path !in packages.Keys - components.Keys;
    }
    WorkingDone(packages, roots, components);
    result := Closure(components, SetOf(start.value));
  }
}
