/**
 Native archives: the checks on member names and what they buy. An accepted archive unpacks onto a
 file system that folds names without one member ever landing on another.
 */
module ArchiveTree {

  /** A member path as its parts. */
  type Path = seq<string>

  datatype Member = Member(path: Path, directory: bool)

  /** What the destination file system makes of a path: each part folded. */
  function FoldPath(path: Path, fold: string -> string): (folded: Path)
    ensures |folded| == |path|
    ensures forall i :: 0 <= i < |path| ==> folded[i] == fold(path[i])
  {
    seq(|path|, i requires 0 <= i < |path| => fold(path[i]))
  }

  lemma FoldPrefix(path: Path, n: nat, fold: string -> string)
    requires n <= |path|
    ensures FoldPath(path[..n], fold) == FoldPath(path, fold)[..n]
  {
  }

  /** A member path or one of its ancestors. */
  predicate Named(p: Path, paths: seq<Path>) {
    exists i :: 0 <= i < |paths| && Within(p, paths[i])
  }

  predicate Within(p: Path, path: Path) {
    p != [] && p <= path
  }

  predicate SamePlace(p: Path, q: Path, fold: string -> string) {
    FoldPath(p, fold) == FoldPath(q, fold)
  }

  /** No two members or ancestors are one name on the destination. */
  ghost predicate NoAlias(paths: seq<Path>, fold: string -> string) {
    forall p, q {:trigger SamePlace(p, q, fold)} ::
      Named(p, paths) && Named(q, paths) && SamePlace(p, q, fold) ==> p == q
  }

  /** The prefixes seen so far: all those of the first `i` paths and those of path `i` up to `n`. */
  predicate Seen(p: Path, paths: seq<Path>, i: nat, n: nat)
    requires i <= |paths|
  {
    Named(p, paths[..i]) || (i < |paths| && |p| <= n && Within(p, paths[i]))
  }

  /** The spellings map holds exactly what was seen, under its folded name. */
  ghost predicate Recorded(
    spellings: map<Path, Path>, paths: seq<Path>, i: nat, n: nat, fold: string -> string)
    requires i <= |paths|
  {
    && (forall k :: k in spellings ==> FoldPath(spellings[k], fold) == k && Seen(spellings[k], paths, i, n))
    && (forall p {:trigger FoldPath(p, fold)} :: Seen(p, paths, i, n) ==>
          FoldPath(p, fold) in spellings && spellings[FoldPath(p, fold)] == p)
  }

  lemma RecordedNext(
    spellings: map<Path, Path>, paths: seq<Path>, i: nat, n: nat, fold: string -> string)
    requires i < |paths| && n < |paths[i]| && Recorded(spellings, paths, i, n, fold)
    requires var p := paths[i][..n + 1]; FoldPath(p, fold) in spellings ==> spellings[FoldPath(p, fold)] == p
    ensures var p := paths[i][..n + 1]; Recorded(spellings[FoldPath(p, fold) := p], paths, i, n + 1, fold)
  {
    var p := paths[i][..n + 1];
    var grown := spellings[FoldPath(p, fold) := p];
    assert Seen(p, paths, i, n + 1);
    forall q {:trigger FoldPath(q, fold)} | Seen(q, paths, i, n + 1)
      ensures FoldPath(q, fold) in grown && grown[FoldPath(q, fold)] == q
    {
      if !Seen(q, paths, i, n) {
        assert |q| == n + 1 && q == p;
      }
    }
  }

  lemma RecordedTurn(spellings: map<Path, Path>, paths: seq<Path>, i: nat, fold: string -> string)
    requires i < |paths| && Recorded(spellings, paths, i, |paths[i]|, fold)
    ensures Recorded(spellings, paths, i + 1, 0, fold)
  {
  }

  lemma SeenIsNamed(p: Path, paths: seq<Path>, i: nat, n: nat)
    requires i <= |paths| && Seen(p, paths, i, n)
    ensures Named(p, paths)
  {
  }

  /** `_validate_filesystem_paths`: accepts exactly when no two prefixes alias. */
  method ValidatePaths(paths: seq<Path>, fold: string -> string) returns (ok: bool)
    ensures ok <==> NoAlias(paths, fold)
  {
    var spellings: map<Path, Path> := map[];
    for i := 0 to |paths|
      invariant Recorded(spellings, paths, i, 0, fold)
    {
      var parts := paths[i];
      for n := 0 to |parts|
        invariant Recorded(spellings, paths, i, n, fold)
      {
        var prefix := parts[..n + 1];
        var key := FoldPath(prefix, fold);
        if key in spellings && spellings[key] != prefix {
          assert Within(prefix, paths[i]);
          SeenIsNamed(spellings[key], paths, i, n);
          assert SamePlace(spellings[key], prefix, fold);
          return false;
        }
        RecordedNext(spellings, paths, i, n, fold);
        spellings := spellings[key := prefix];
      }
      RecordedTurn(spellings, paths, i, fold);
    }
    RecordedAll(spellings, paths, fold);
    return true;
  }

  lemma RecordedAll(spellings: map<Path, Path>, paths: seq<Path>, fold: string -> string)
    requires Recorded(spellings, paths, |paths|, 0, fold)
    ensures NoAlias(paths, fold)
  {
  }

  // ---------------------------------------------------------------------------
  // Ancestors
  // ---------------------------------------------------------------------------

  /** `a` is a proper ancestor of `p`. */
  predicate Above(a: Path, p: Path) {
    a != [] && a < p
  }

  /** Only directories have members below them. */
  ghost predicate Rooted(members: set<Path>, directories: set<Path>) {
    forall a, p {:trigger Above(a, p)} :: a in members && p in members && Above(a, p) ==> a in directories
  }

  /** `_validate_member_ancestors`. */
  method ValidateAncestors(members: set<Path>, directories: set<Path>) returns (ok: bool)
    ensures ok <==> Rooted(members, directories)
  {
    var rest := members;
    while rest != {}
      invariant rest <= members
      invariant forall a, p {:trigger Above(a, p)} ::
        a in members && p in members - rest && Above(a, p) ==> a in directories
      decreases |rest|
    {
      var path :| path in rest;
      var n := |path|;
      while n > 1
        invariant n <= |path| && (n == 0 ==> path == [])
        invariant forall a {:trigger Above(a, path)} :: a in members && Above(a, path) && |a| >= n ==> a in directories
      {
        n := n - 1;
        var ancestor := path[..n];
        if ancestor in members && ancestor !in directories {
          assert Above(ancestor, path);
          return false;
        }
        assert forall a :: Above(a, path) && |a| == n ==> a == ancestor;
      }
      rest := rest - {path};
    }
    return true;
  }

  /** Folding changes nothing: without aliases, a folded ancestor is an ancestor. */
  lemma FoldedAncestor(paths: seq<Path>, fold: string -> string, a: Path, p: Path)
    requires NoAlias(paths, fold) && a in paths && p in paths && a != []
    ensures FoldPath(a, fold) < FoldPath(p, fold) <==> Above(a, p)
    ensures FoldPath(a, fold) == FoldPath(p, fold) <==> a == p
  {
    MemberNamed(paths, a);
    if p != [] {
      MemberNamed(paths, p);
    }
    assert FoldPath(a, fold) == FoldPath(p, fold) ==> SamePlace(a, p, fold);
    if FoldPath(a, fold) < FoldPath(p, fold) {
      var q := p[..|a|];
      FoldPrefix(p, |a|, fold);
      var i :| 0 <= i < |paths| && paths[i] == p;
      assert Within(q, paths[i]);
      assert SamePlace(a, q, fold);
    }
  }

  lemma MemberNamed(paths: seq<Path>, p: Path)
    requires p in paths && p != []
    ensures Named(p, paths)
  {
  }

  // ---------------------------------------------------------------------------
  // Unpacking
  // ---------------------------------------------------------------------------

  /** A file system entry: a folder, or the one member written there. */
  datatype Node = Folder | Leaf(owner: Path)

  /** The destination: entries by folded path. */
  type Tree = map<Path, Node>

  /** `mkdir(parents=True, exist_ok=True)`: fails exactly when something on the way is not a folder. */
  method MakeFolders(tree: Tree, folded: Path) returns (ok: bool, grown: Tree)
    ensures ok <==> forall k :: k in tree && Within(k, folded) ==> tree[k] == Folder
    ensures ok ==> forall k :: k in grown <==> k in tree || Within(k, folded)
    ensures ok ==> forall k :: k in grown ==> grown[k] == if k in tree then tree[k] else Folder
  {
    grown := tree;
    for n := 0 to |folded|
      invariant forall k :: k in grown <==> k in tree || (|k| <= n && Within(k, folded))
      invariant forall k :: k in grown ==> grown[k] == if k in tree then tree[k] else Folder
      invariant forall k :: k in tree && Within(k, folded) && |k| <= n ==> tree[k] == Folder
    {
      var prefix := folded[..n + 1];
      assert Within(prefix, folded);
      if prefix in grown && grown[prefix] != Folder {
        return false, grown;
      }
      assert forall k :: Within(k, folded) && |k| == n + 1 ==> k == prefix;
      grown := grown[prefix := Folder];
    }
    ok := true;
  }

  /** A path that has to be a folder: a directory member or an ancestor of a member. */
  predicate FolderPath(p: Path, members: seq<Member>) {
    exists i :: 0 <= i < |members| && FolderFor(p, members[i])
  }

  predicate FolderFor(p: Path, member: Member) {
    Within(p, member.path) && (member.directory || p != member.path)
  }

  predicate LeafPath(p: Path, members: seq<Member>) {
    exists i :: 0 <= i < |members| && members[i] == Member(p, false)
  }

  function Paths(members: seq<Member>): (paths: seq<Path>)
    ensures |paths| == |members| && forall i :: 0 <= i < |members| ==> paths[i] == members[i].path
  {
    seq(|members|, i requires 0 <= i < |members| => members[i].path)
  }

  /** The members as the extraction reads them: one entry per path, no empty path. */
  predicate Listing(members: seq<Member>) {
    && (forall i :: 0 <= i < |members| ==> members[i].path != [])
    && (forall i, j :: 0 <= i < j < |members| ==> members[i].path != members[j].path)
  }

  /** Folder places and leaf places never meet on the destination. */
  ghost predicate Separate(members: seq<Member>, fold: string -> string) {
    && (forall p, q {:trigger SamePlace(p, q, fold)} ::
          LeafPath(p, members) && FolderPath(q, members) ==> !SamePlace(p, q, fold))
    && (forall p, q {:trigger SamePlace(p, q, fold)} ::
          LeafPath(p, members) && LeafPath(q, members) && SamePlace(p, q, fold) ==> p == q)
  }

  predicate DirectoryPath(p: Path, members: seq<Member>) {
    exists i :: 0 <= i < |members| && members[i] == Member(p, true)
  }

  /** The two checks together keep folder places and leaf places apart. */
  lemma ChecksSeparate(members: seq<Member>, fold: string -> string, all: set<Path>, directories: set<Path>)
    requires Listing(members)
    requires forall p :: p in all <==> p in Paths(members)
    requires forall p :: p in directories <==> DirectoryPath(p, members)
    requires NoAlias(Paths(members), fold) && Rooted(all, directories)
    ensures Separate(members, fold)
  {
    forall p, q {:trigger SamePlace(p, q, fold)} | LeafPath(p, members) && FolderPath(q, members)
      ensures !SamePlace(p, q, fold)
    {
      LeafIsNamed(p, members);
      FolderIsNamed(q, members);
      LeafIsNoFolder(members, all, directories, p);
    }
    forall p, q {:trigger SamePlace(p, q, fold)}
      | LeafPath(p, members) && LeafPath(q, members) && SamePlace(p, q, fold)
      ensures p == q
    {
      LeafIsNamed(p, members);
      LeafIsNamed(q, members);
    }
  }

  lemma LeafIsNamed(p: Path, members: seq<Member>)
    requires Listing(members) && LeafPath(p, members)
    ensures Named(p, Paths(members)) && p in Paths(members)
  {
  }

  lemma FolderIsNamed(p: Path, members: seq<Member>)
    requires FolderPath(p, members)
    ensures Named(p, Paths(members))
  {
  }

  lemma LeafIsNoFolder(members: seq<Member>, all: set<Path>, directories: set<Path>, p: Path)
    requires Listing(members) && LeafPath(p, members)
    requires forall p :: p in all <==> p in Paths(members)
    requires forall p :: p in directories <==> DirectoryPath(p, members)
    requires Rooted(all, directories)
    ensures !FolderPath(p, members)
  {
    if FolderPath(p, members) {
      var i :| 0 <= i < |members| && FolderFor(p, members[i]);
      LeafIsNamed(p, members);
      assert members[i].path == Paths(members)[i];
      if p != members[i].path {
        assert Above(p, members[i].path);
      }
      assert DirectoryPath(p, members);
      assert false;
    }
  }

  /** Everything on disk is a folder or leaf of the listing, at its own place. */
  ghost predicate TreeOf(tree: Tree, members: seq<Member>, fold: string -> string) {
    forall k :: k in tree ==>
      match tree[k]
      case Folder => exists p :: FolderPath(p, members) && FoldPath(p, fold) == k
      case Leaf(owner) => LeafPath(owner, members) && FoldPath(owner, fold) == k
  }

  predicate FolderAt(tree: Tree, path: Path, fold: string -> string) {
    FoldPath(path, fold) in tree && tree[FoldPath(path, fold)] == Folder
  }

  predicate LeafAt(tree: Tree, path: Path, fold: string -> string) {
    FoldPath(path, fold) in tree && tree[FoldPath(path, fold)] == Leaf(path)
  }

  predicate FoldersMade(tree: Tree, members: seq<Member>, fold: string -> string, n: nat)
    requires n <= |members|
  {
    forall i :: 0 <= i < n && members[i].directory ==> FolderAt(tree, members[i].path, fold)
  }

  predicate LeavesWritten(tree: Tree, members: seq<Member>, fold: string -> string, n: nat)
    requires n <= |members|
  {
    forall i :: 0 <= i < n && !members[i].directory ==> LeafAt(tree, members[i].path, fold)
  }

  /** Nothing of a member not reached yet is on disk. */
  predicate LeavesPending(tree: Tree, members: seq<Member>, n: nat)
    requires n <= |members|
  {
    forall k :: k in tree && tree[k].Leaf? ==> !Pending(tree[k].owner, members, n)
  }

  predicate Pending(path: Path, members: seq<Member>, n: nat) {
    exists i :: n <= i < |members| && members[i].path == path
  }

  /** Where the second pass stands after `n` members. */
  ghost predicate Progress(tree: Tree, members: seq<Member>, fold: string -> string, n: nat)
    requires n <= |members|
  {
    && TreeOf(tree, members, fold)
    && FoldersMade(tree, members, fold, |members|)
    && LeavesWritten(tree, members, fold, n)
    && LeavesPending(tree, members, n)
  }

  /** Ancestors of folder places are folder places, so making folders meets no leaf. */
  lemma FoldersFit(tree: Tree, members: seq<Member>, fold: string -> string, path: Path)
    requires Separate(members, fold) && TreeOf(tree, members, fold) && FolderPath(path, members)
    ensures forall k :: k in tree && Within(k, FoldPath(path, fold)) ==> tree[k] == Folder
  {
    forall k | k in tree && Within(k, FoldPath(path, fold)) ensures tree[k] == Folder {
      FolderAbove(members, fold, path, k);
      if tree[k].Leaf? {
        var p := path[..|k|];
        assert SamePlace(tree[k].owner, p, fold);
        assert false;
      }
    }
  }

  lemma FolderAbove(members: seq<Member>, fold: string -> string, path: Path, k: Path)
    requires FolderPath(path, members) && Within(k, FoldPath(path, fold))
    ensures FolderPath(path[..|k|], members) && FoldPath(path[..|k|], fold) == k
  {
  }

  lemma FoldersGrow(tree: Tree, grown: Tree, members: seq<Member>, fold: string -> string, path: Path)
    requires TreeOf(tree, members, fold) && FolderPath(path, members)
    requires forall k :: k in grown <==> k in tree || Within(k, FoldPath(path, fold))
    requires forall k :: k in grown ==> grown[k] == if k in tree then tree[k] else Folder
    ensures TreeOf(grown, members, fold)
  {
    forall k | k in grown && k !in tree
      ensures exists p :: FolderPath(p, members) && FoldPath(p, fold) == k
    {
      FolderAbove(members, fold, path, k);
    }
  }

  lemma LeafPlaceIsFree(tree: Tree, members: seq<Member>, fold: string -> string, i: nat)
    requires Separate(members, fold) && TreeOf(tree, members, fold)
    requires i < |members| && !members[i].directory && LeavesPending(tree, members, i)
    ensures FoldPath(members[i].path, fold) !in tree
  {
    var path := members[i].path;
    var k := FoldPath(path, fold);
    assert members[i] == Member(path, false) && LeafPath(path, members);
    if k in tree {
      if tree[k].Folder? {
        var p :| FolderPath(p, members) && FoldPath(p, fold) == k;
        assert SamePlace(path, p, fold);
      } else {
        assert SamePlace(path, tree[k].owner, fold);
      }
      assert false;
    }
  }

  /** The folder for a leaf is its parent; a leaf at the top needs none. */
  lemma ParentIsFolder(members: seq<Member>, i: nat)
    requires i < |members| && |members[i].path| > 1
    ensures FolderPath(members[i].path[..|members[i].path| - 1], members)
  {
  }

  lemma DirectoryMade(tree: Tree, grown: Tree, members: seq<Member>, fold: string -> string, i: nat)
    requires i < |members| && members[i].directory && members[i].path != []
    requires TreeOf(tree, members, fold) && FoldersMade(tree, members, fold, i)
    requires forall k :: k in tree ==> tree[k] == Folder
    requires forall k :: k in grown <==> k in tree || Within(k, FoldPath(members[i].path, fold))
    requires forall k :: k in grown ==> grown[k] == if k in tree then tree[k] else Folder
    ensures TreeOf(grown, members, fold) && FoldersMade(grown, members, fold, i + 1)
    ensures forall k :: k in grown ==> grown[k] == Folder
  {
    var path := members[i].path;
    assert FolderFor(path, members[i]);
    assert Within(FoldPath(path, fold), FoldPath(path, fold));
    FoldersGrow(tree, grown, members, fold, path);
    forall j | 0 <= j < i + 1 && members[j].directory ensures FolderAt(grown, members[j].path, fold) {
      assert j < i ==> FolderAt(tree, members[j].path, fold);
    }
  }

  /** The first pass of the extraction: every directory member. */
  method MakeDirectories(members: seq<Member>, fold: string -> string) returns (ok: bool, tree: Tree)
    requires Listing(members)
    ensures ok && Progress(tree, members, fold, 0)
  {
    ok, tree := true, map[];
    for i := 0 to |members|
      invariant ok
      invariant forall k :: k in tree ==> tree[k] == Folder
      invariant TreeOf(tree, members, fold)
      invariant FoldersMade(tree, members, fold, i)
    {
      if members[i].directory {
        var path := members[i].path;
        var grown;
        ok, grown := MakeFolders(tree, FoldPath(path, fold));
        DirectoryMade(tree, grown, members, fold, i);
        tree := grown;
      }
    }
  }

  lemma FoldersKeepProgress(tree: Tree, grown: Tree, members: seq<Member>, fold: string -> string, n: nat)
    requires n <= |members| && Progress(tree, members, fold, n) && TreeOf(grown, members, fold)
    requires forall k :: k in tree ==> k in grown && grown[k] == tree[k]
    requires forall k :: k in grown && k !in tree ==> grown[k] == Folder
    ensures Progress(grown, members, fold, n)
  {
  }

  /** One leaf at its own, free place. */
  lemma LeafKeepsProgress(tree: Tree, members: seq<Member>, fold: string -> string, n: nat)
    requires Listing(members) && n < |members| && !members[n].directory
    requires FoldPath(members[n].path, fold) !in tree && Progress(tree, members, fold, n)
    ensures Progress(tree[FoldPath(members[n].path, fold) := Leaf(members[n].path)], members, fold, n + 1)
  {
    var path := members[n].path;
    var place := FoldPath(path, fold);
    var grown := tree[place := Leaf(path)];
    assert members[n] == Member(path, false) && LeafPath(path, members);
    forall i | 0 <= i < |members| && members[i].directory ensures FolderAt(grown, members[i].path, fold) {
      assert FolderAt(tree, members[i].path, fold);
    }
    forall i | 0 <= i < n + 1 && !members[i].directory ensures LeafAt(grown, members[i].path, fold) {
      assert i < n ==> LeafAt(tree, members[i].path, fold);
    }
    assert LeavesPending(grown, members, n + 1);
  }

  lemma DirectoryKeepsProgress(tree: Tree, members: seq<Member>, fold: string -> string, n: nat)
    requires n < |members| && members[n].directory && Progress(tree, members, fold, n)
    ensures Progress(tree, members, fold, n + 1)
  {
  }

  /** One member of the second pass, into a parent made if need be and never over anything. */
  method WriteLeaf(tree: Tree, members: seq<Member>, fold: string -> string, i: nat)
      returns (ok: bool, written: Tree)
    requires Listing(members) && Separate(members, fold)
    requires i < |members| && !members[i].directory && Progress(tree, members, fold, i)
    ensures ok && Progress(written, members, fold, i + 1)
  {
    var path := members[i].path;
    ok, written := true, tree;
    if |path| > 1 {
      var parent := path[..|path| - 1];
      ParentIsFolder(members, i);
      FoldersFit(tree, members, fold, parent);
      ok, written := MakeFolders(tree, FoldPath(parent, fold));
      FoldersGrow(tree, written, members, fold, parent);
      FoldersKeepProgress(tree, written, members, fold, i);
    }
    LeafPlaceIsFree(written, members, fold, i);
    if FoldPath(path, fold) in written {
      return false, written;
    }
    LeafKeepsProgress(written, members, fold, i);
    written := written[FoldPath(path, fold) := Leaf(path)];
  }

  /** The second pass: every member that is not a directory, created exclusively. */
  method WriteLeaves(members: seq<Member>, fold: string -> string, start: Tree) returns (ok: bool, tree: Tree)
    requires Listing(members) && Separate(members, fold) && Progress(start, members, fold, 0)
    ensures ok && Progress(tree, members, fold, |members|)
  {
    ok, tree := true, start;
    for i := 0 to |members|
      invariant ok && Progress(tree, members, fold, i)
    {
      if members[i].directory {
        DirectoryKeepsProgress(tree, members, fold, i);
      } else {
        ok, tree := WriteLeaf(tree, members, fold, i);
      }
    }
  }

  function PathSet(members: seq<Member>): (all: set<Path>)
    ensures forall p :: p in all <==> p in Paths(members)
  {
    set p | p in Paths(members)
  }

  function DirectorySet(members: seq<Member>): (directories: set<Path>)
    ensures forall p :: p in directories <==> DirectoryPath(p, members)
  {
    var directories := set i | 0 <= i < |members| && members[i].directory :: members[i].path;
    assert forall p :: DirectoryPath(p, members) ==> p in directories;
    assert forall p :: p in directories ==> DirectoryPath(p, members) by {
      forall p | p in directories ensures DirectoryPath(p, members) {
        var i :| 0 <= i < |members| && members[i].directory && members[i].path == p;
        assert members[i] == Member(p, true);
      }
    }
    directories
  }

  /** No member that is not a directory is an ancestor of another, even after folding. */
  ghost predicate FoldedRooted(members: seq<Member>, fold: string -> string) {
    forall i, j :: 0 <= i < |members| && 0 <= j < |members| && !members[i].directory ==>
      !(FoldPath(members[i].path, fold) < FoldPath(members[j].path, fold))
  }

  /** Given no aliases, the check on spelled ancestors is the check on folded ones. */
  lemma RootedAfterFolding(members: seq<Member>, fold: string -> string)
    requires Listing(members) && NoAlias(Paths(members), fold)
    ensures Rooted(PathSet(members), DirectorySet(members)) <==> FoldedRooted(members, fold)
  {
    var paths, all, directories := Paths(members), PathSet(members), DirectorySet(members);
    if Rooted(all, directories) {
      forall i, j | 0 <= i < |members| && 0 <= j < |members| && !members[i].directory
        ensures !(FoldPath(members[i].path, fold) < FoldPath(members[j].path, fold))
      {
        assert paths[i] == members[i].path && paths[j] == members[j].path;
        FoldedAncestor(paths, fold, members[i].path, members[j].path);
        assert members[i].path in all && members[j].path in all;
        assert members[i].path !in directories;
      }
    }
    if FoldedRooted(members, fold) {
      forall a, p {:trigger Above(a, p)} | a in all && p in all && Above(a, p) ensures a in directories {
        var i :| 0 <= i < |members| && paths[i] == a;
        var j :| 0 <= j < |members| && paths[j] == p;
        FoldedAncestor(paths, fold, a, p);
        assert members[i].directory;
        assert members[i] == Member(a, true);
      }
    }
  }

  /** The same members in another order. */
  ghost predicate Reordered(members: seq<Member>, order: seq<Member>) {
    forall m :: m in members <==> m in order
  }

  lemma ReorderedPaths(members: seq<Member>, order: seq<Member>, p: Path)
    requires Reordered(members, order)
    ensures FolderPath(p, members) ==> FolderPath(p, order)
    ensures LeafPath(p, members) ==> LeafPath(p, order)
  {
    if FolderPath(p, members) {
      var i :| 0 <= i < |members| && FolderFor(p, members[i]);
      assert members[i] in order;
    }
    if LeafPath(p, members) {
      var i :| 0 <= i < |members| && members[i] == Member(p, false);
      assert members[i] in order;
    }
  }

  lemma ReorderedSeparate(members: seq<Member>, order: seq<Member>, fold: string -> string)
    requires Reordered(members, order) && Separate(members, fold)
    ensures Separate(order, fold)
  {
    forall p
      ensures FolderPath(p, order) ==> FolderPath(p, members)
      ensures LeafPath(p, order) ==> LeafPath(p, members)
    {
      ReorderedPaths(order, members, p);
    }
  }

  lemma ReorderedTree(tree: Tree, members: seq<Member>, order: seq<Member>, fold: string -> string)
    requires Reordered(members, order) && TreeOf(tree, members, fold)
    ensures TreeOf(tree, order, fold)
  {
    forall p
      ensures FolderPath(p, members) ==> FolderPath(p, order)
      ensures LeafPath(p, members) ==> LeafPath(p, order)
    {
      ReorderedPaths(members, order, p);
    }
  }

  /** After the directories, the other members may come in any order. */
  lemma ReorderedStart(tree: Tree, members: seq<Member>, order: seq<Member>, fold: string -> string)
    requires Reordered(members, order) && Progress(tree, members, fold, 0)
    ensures Progress(tree, order, fold, 0)
  {
    ReorderedTree(tree, members, order, fold);
    forall i | 0 <= i < |order| && order[i].directory ensures FolderAt(tree, order[i].path, fold) {
      assert order[i] in members;
      var j :| 0 <= j < |members| && members[j] == order[i];
      assert FolderAt(tree, members[j].path, fold);
    }
    forall k | k in tree ensures !tree[k].Leaf? {
      assert tree[k].Leaf? ==> LeafPath(tree[k].owner, members);
    }
  }

  /**
   The whole extraction: both checks, the directories in the listing's order, then the rest in any
   order. It is refused exactly when two names alias or a member lies below one that is not a
   directory; otherwise nothing fails on the way, and each member ends at its own place with
   nothing else on disk.
   */
  method Extract(members: seq<Member>, order: seq<Member>, fold: string -> string) returns (ok: bool, tree: Tree)
    requires Listing(members) && Listing(order) && Reordered(members, order)
    ensures ok <==> NoAlias(Paths(members), fold) && FoldedRooted(members, fold)
    ensures !ok ==> tree == map[]
    ensures ok ==> TreeOf(tree, members, fold)
    ensures ok ==> forall m :: m in members ==>
      if m.directory then FolderAt(tree, m.path, fold) else LeafAt(tree, m.path, fold)
  {
    tree := map[];
    ok := ValidatePaths(Paths(members), fold);
    if !ok { return; }
    RootedAfterFolding(members, fold);
    ok := ValidateAncestors(PathSet(members), DirectorySet(members));
    if !ok { return; }
    ChecksSeparate(members, fold, PathSet(members), DirectorySet(members));
    ok, tree := MakeDirectories(members, fold);
    ReorderedStart(tree, members, order, fold);
    ReorderedSeparate(members, order, fold);
    ok, tree := WriteLeaves(order, fold, tree);
    ReorderedTree(tree, order, members, fold);
    forall m | m in members
      ensures if m.directory then FolderAt(tree, m.path, fold) else LeafAt(tree, m.path, fold)
    {
      var i :| 0 <= i < |order| && order[i] == m;
    }
  }
}
