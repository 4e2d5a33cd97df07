/**
 Creation of a directory with all its parents, over a tree-shaped file system. Paths are
 strings; what they name is the list of their non-empty components, so repeated and
 trailing slashes are covered.
 */
module Directories {

  datatype Kind = Directory | File

  /** Creating a directory may be refused, or another process may have been faster. */
  datatype Verdict = Allowed | Denied | Raced

  /** What the system answers about a name: `visible` is whether stat finds it when it is
      there, which it need not without permission, `mkdir` how an attempt to create it ends. */
  datatype Answer = Answer(visible: bool, mkdir: Verdict)

  datatype Result = Made | Exists | Refused

  type Name = seq<string>

  type Tree = map<Name, Kind>

  predicate IsDir(t: Tree, n: Name) { n in t && t[n] == Directory }

  /** The root is there, and everything else has a directory above it. */
  ghost predicate ParentClosed(t: Tree) {
    && IsDir(t, [])
    && forall n :: n in t && n != [] ==> IsDir(t, n[..|n| - 1])
  }

  // ---------------------------------------------------------------- path names

  /** The components closed by a slash, and the one being read. */
  datatype Scanned = Scanned(done: Name, cur: string)

  function Close(s: Scanned): Name {
    if s.cur == "" then s.done else s.done + [s.cur]
  }

  function Scan(path: string): Scanned {
    if path == "" then Scanned([], "")
    else
      var s, c := Scan(path[..|path| - 1]), path[|path| - 1];
      if c == '/' then Scanned(Close(s), "") else s.(cur := s.cur + [c])
  }

  /** What a path names. */
  function Names(path: string): Name {
    Close(Scan(path))
  }

  lemma {:induction false} ScanSegment(path: string, p: nat, q: nat)
    requires p <= q <= |path| && forall i :: p <= i < q ==> path[i] != '/'
    ensures Scan(path[..q]) == Scan(path[..p]).(cur := Scan(path[..p]).cur + path[p..q])
    decreases q
  {
    if p == q {
      assert path[p..q] == "";
    } else {
      ScanSegment(path, p, q - 1);
      assert path[..q][..q - 1] == path[..q - 1];
      assert path[p..q] == path[p..q - 1] + [path[q - 1]];
    }
  }

  lemma {:induction false} DoneGrows(path: string, p: nat, q: nat)
    requires p <= q <= |path|
    ensures Scan(path[..p]).done <= Scan(path[..q]).done
    decreases q
  {
    if p == q {
    } else {
      DoneGrows(path, p, q - 1);
      assert path[..q][..q - 1] == path[..q - 1];
    }
  }

  /** A prefix that ends before a slash names a prefix of what the path names. */
  lemma PrefixNames(path: string, p: nat)
    requires p < |path| && path[p] == '/'
    ensures Names(path[..p]) <= Names(path)
  {
    assert path[..p + 1][..p] == path[..p];
    assert path[..|path|] == path;
    DoneGrows(path, p + 1, |path|);
  }

  /** From one slash, or the start, to the next slash, or the end: one component at most. */
  lemma NextNames(path: string, p: nat, q: nat)
    requires p < q <= |path| && (p == 0 || path[p] == '/')
    requires forall i :: p < i < q ==> path[i] != '/'
    ensures Names(path[..p]) <= Names(path[..q])
    ensures |Names(path[..q])| <= |Names(path[..p])| + 1
  {
    assert path[..p + 1][..p] == path[..p];
    ScanSegment(path, p + 1, q);
    if p == 0 {
      assert path[..0] == "";
      assert path[..1][..0] == "";
    }
  }

  /** What a path names, in terms of its text: nothing if it is empty or ends where a trailing
      slash does not matter, and one more component if that follows a slash, or the start. */
  lemma NamesGrow(path: string, c: string)
    requires c != "" && forall i :: 0 <= i < |c| ==> c[i] != '/'
    ensures Names("") == [] && Names(c) == [c]
    ensures Names(path + "/") == Names(path)
    ensures Names(path + "/" + c) == Names(path) + [c]
  {
    var n, p := |path|, path + "/" + c;
    assert (path + "/")[..n] == path;
    assert p[..n + 1] == path + "/" && p[..|p|] == p && p[n + 1..|p|] == c;
    ScanSegment(p, n + 1, |p|);
    assert c[..0] == "" && c[..|c|] == c && c[0..|c|] == c;
    ScanSegment(c, 0, |c|);
    assert Scan(c) == Scanned([], c) by { assert "" + c == c; }
  }

  // ---------------------------------------------------------------- the file system

  /** One attempt to create a directory, and whether its parent was there. */
  datatype Attempt = Attempt(name: Name, parentThere: bool)

  class FileSystem {
    var tree: Tree
    ghost var attempts: seq<Attempt>

    method Stat(path: string, answer: Name -> Answer) returns (there: bool)
      ensures there <==> Names(path) in tree && answer(Names(path)).visible
    {
      there := Names(path) in tree && answer(Names(path)).visible;
    }

    method Mkdir(path: string, answer: Name -> Answer) returns (r: Result)
      modifies this
      ensures r == MkdirResult(old(tree), Names(path), answer)
      ensures tree == MkdirTree(old(tree), Names(path), answer)
      ensures attempts == old(attempts) + [Attempt(Names(path), ParentThere(old(tree), Names(path)))]
    {
      var n := Names(path);
      attempts := attempts + [Attempt(n, ParentThere(tree, n))];
      r := MkdirResult(tree, n, answer);
      tree := MkdirTree(tree, n, answer);
    }
  }

  predicate ParentThere(t: Tree, n: Name) { n == [] || n[..|n| - 1] in t }

  function MkdirResult(t: Tree, n: Name, answer: Name -> Answer): Result {
    if n == [] then Exists
    else if answer(n).mkdir == Denied then Refused
    else if n in t then Exists
    else if !IsDir(t, n[..|n| - 1]) then Refused
    else if answer(n).mkdir == Raced then Exists
    else Made
  }

  function MkdirTree(t: Tree, n: Name, answer: Name -> Answer): Tree {
    if n == [] || n in t || !IsDir(t, n[..|n| - 1]) || answer(n).mkdir == Denied then t else t[n := Directory]
  }

  // ---------------------------------------------------------------- creating a path

  /** The tree once the first `m` prefixes of `n` exist. */
  function Extended(t: Tree, n: Name, m: nat): Tree
    requires m <= |n|
  {
    if m == 0 then t
    else
      var e := Extended(t, n, m - 1);
      if n[..m] in e then e else e[n[..m] := Directory]
  }

  /** Stat finds the name once it is there, or the attempt to create it does. */
  predicate Found(answer: Name -> Answer, n: Name) {
    answer(n).visible || answer(n).mkdir != Denied
  }

  /** Whether the prefix of length `k` is there and found, or can be made. */
  predicate Passes(t: Tree, n: Name, answer: Name -> Answer, k: nat)
    requires 1 <= k <= |n|
  {
    if n[..k] in t then Found(answer, n[..k])
    else (n[..k - 1] in t ==> IsDir(t, n[..k - 1])) && answer(n[..k]).mkdir != Denied
  }

  /** In the file system's terms: a prefix that is there fails only if stat does not find it and
      creating it is refused; one that is not there fails if creating it is refused or what
      stands above it is a file. */
  lemma PassesIff(t: Tree, n: Name, answer: Name -> Answer, k: nat)
    requires 1 <= k <= |n| && ParentClosed(t)
    ensures n[..k] in t ==> (Passes(t, n, answer, k) <==> answer(n[..k]).visible || answer(n[..k]).mkdir != Denied)
    ensures n[..k] !in t ==>
              (Passes(t, n, answer, k) <==>
                answer(n[..k]).mkdir != Denied && !(n[..k - 1] in t && t[n[..k - 1]] == File))
  {
  }

  /** No file stands where a directory is needed for the first `m` prefixes. */
  ghost predicate NoFileBefore(t: Tree, n: Name, m: nat)
    requires m <= |n|
  {
    forall k :: 0 <= k < m && n[..k] in t ==> IsDir(t, n[..k])
  }

  lemma AddDirectory(t: Tree, x: Name)
    requires ParentClosed(t) && x !in t && x != [] && IsDir(t, x[..|x| - 1])
    ensures ParentClosed(t[x := Directory])
  {
  }

  /** What was there stays, the prefixes are there, and nothing else is new. */
  lemma {:induction false} ExtendedAdds(t: Tree, n: Name, m: nat)
    requires m <= |n|
    ensures forall x :: x in t ==> x in Extended(t, n, m) && Extended(t, n, m)[x] == t[x]
    ensures forall k :: 0 <= k <= m ==> k == 0 || n[..k] in Extended(t, n, m)
    ensures forall x :: x in Extended(t, n, m) && x !in t ==> IsDir(Extended(t, n, m), x) && x <= n && 1 <= |x| <= m
  {
    if m == 0 {
    } else {
      ExtendedAdds(t, n, m - 1);
    }
  }

  lemma {:induction false} ExtendedClosed(t: Tree, n: Name, m: nat)
    requires m <= |n| && ParentClosed(t) && NoFileBefore(t, n, m)
    ensures ParentClosed(Extended(t, n, m))
  {
    RootThere(t, n);
    hide ParentClosed;
    if m == 0 {
    } else {
      ExtendedClosed(t, n, m - 1);
      ExtendedAdds(t, n, m - 1);
      var e := Extended(t, n, m - 1);
      if n[..m] !in e {
        assert n[..m][..m - 1] == n[..m - 1];
        assert IsDir(e, n[..m - 1]);
        AddDirectory(e, n[..m]);
      }
    }
  }

  lemma RootThere(t: Tree, n: Name)
    requires ParentClosed(t)
    ensures IsDir(t, n[..0])
  {
    assert n[..0] == [];
  }

  /** Building a run of prefixes keeps the tree a tree. */
  lemma ExtendedTree(t: Tree, n: Name, m: nat)
    requires m <= |n| && ParentClosed(t) && NoFileBefore(t, n, m)
    ensures ParentClosed(Extended(t, n, m))
    ensures forall x :: x in t ==> x in Extended(t, n, m) && Extended(t, n, m)[x] == t[x]
    ensures forall k :: 0 <= k <= m ==> n[..k] in Extended(t, n, m)
    ensures forall x :: x in Extended(t, n, m) && x !in t ==> IsDir(Extended(t, n, m), x) && x <= n && 1 <= |x| <= m
  {
    RootThere(t, n);
    hide ParentClosed, NoFileBefore, Extended;
    ExtendedAdds(t, n, m);
    ExtendedClosed(t, n, m);
  }

  const NPOS := -1

  /** The first slash at or after `from`. */
  function FindSlash(path: string, from: nat): (pos: int)
    ensures pos == NPOS ==> forall i :: from <= i < |path| ==> path[i] != '/'
    ensures pos != NPOS ==> from <= pos < |path| && path[pos] == '/' && forall i :: from <= i < pos ==> path[i] != '/'
    decreases |path| - from
  {
    if from >= |path| then NPOS
    else if path[from] == '/' then from
    else FindSlash(path, from + 1)
  }

  /** Visiting the next prefix when the first `m` exist and it is there already. */
  lemma VisitThere(t: Tree, n: Name, m: nat, answer: Name -> Answer)
    requires m < |n| && ParentClosed(t) && NoFileBefore(t, n, m)
    requires n[..m + 1] in Extended(t, n, m)
    ensures Extended(t, n, m + 1) == Extended(t, n, m) && NoFileBefore(t, n, m + 1)
    ensures Passes(t, n, answer, m + 1) <==> Found(answer, n[..m + 1])
  {
    ExtendedTree(t, n, m);
    assert n[..m + 1][..m] == n[..m];
  }

  /** Visiting the next prefix when it is not there: its parent is, and it is made or refused. */
  lemma VisitMissing(t: Tree, n: Name, m: nat, answer: Name -> Answer)
    requires m < |n| && ParentClosed(t) && NoFileBefore(t, n, m)
    requires n[..m + 1] !in Extended(t, n, m)
    ensures n[..m + 1][..m] in Extended(t, n, m)
    ensures MkdirResult(Extended(t, n, m), n[..m + 1], answer) != Refused <==> Passes(t, n, answer, m + 1)
    ensures if Passes(t, n, answer, m + 1)
            then MkdirTree(Extended(t, n, m), n[..m + 1], answer) == Extended(t, n, m + 1) && NoFileBefore(t, n, m + 1)
            else MkdirTree(Extended(t, n, m), n[..m + 1], answer) == Extended(t, n, m)
  {
    ExtendedTree(t, n, m);
    assert n[..m + 1][..m] == n[..m];
    hide ParentClosed;
  }

  /** Exactly the first `m` prefixes of `n` exist, each there before or allowed to be made. */
  ghost predicate Built(t: Tree, n: Name, answer: Name -> Answer, m: nat, now: Tree)
    requires m <= |n|
  {
    && NoFileBefore(t, n, m)
    && (forall k :: 1 <= k <= m ==> Passes(t, n, answer, k))
    && now == Extended(t, n, m)
  }

  lemma BuiltMore(t: Tree, n: Name, answer: Name -> Answer, m: nat, now: Tree)
    requires m < |n| && ParentClosed(t) && Built(t, n, answer, m, now)
    ensures n[..m] in now
    ensures if n[..m + 1] in now then
              && (Passes(t, n, answer, m + 1) <==> Found(answer, n[..m + 1]))
              && (Passes(t, n, answer, m + 1) ==> Built(t, n, answer, m + 1, now))
            else
              && (MkdirResult(now, n[..m + 1], answer) != Refused <==> Passes(t, n, answer, m + 1))
              && (if Passes(t, n, answer, m + 1) then Built(t, n, answer, m + 1, MkdirTree(now, n[..m + 1], answer))
                  else MkdirTree(now, n[..m + 1], answer) == now)
  {
    ExtendedTree(t, n, m);
    if n[..m + 1] in now {
      VisitThere(t, n, m, answer);
    } else {
      VisitMissing(t, n, m, answer);
    }
    hide Extended, NoFileBefore, Passes, MkdirResult, MkdirTree;
  }

  /** Where the loop stands after looking at the first `p` characters. */
  ghost predicate Reached(t: Tree, path: string, answer: Name -> Answer, p: int, m: nat, now: Tree)
    requires 0 <= p <= |path| && m <= |Names(path)|
  {
    Names(path[..p]) == Names(path)[..m] && Built(t, Names(path), answer, m, now)
  }

  /** The next prefix to look at ends at `q`: a slash, or the end of the path. */
  predicate NextStop(path: string, p: int, q: int) {
    && 0 <= p < q <= |path|
    && (p == 0 || path[p] == '/')
    && (forall i :: p < i < q ==> path[i] != '/')
    && (q < |path| ==> path[q] == '/')
  }

  lemma NextPrefix(path: string, p: int, q: int, m: nat)
    requires NextStop(path, p, q) && m <= |Names(path)| && Names(path[..p]) == Names(path)[..m]
    ensures var k := |Names(path[..q])|; m <= k <= m + 1 && k <= |Names(path)| && Names(path[..q]) == Names(path)[..k]
  {
    NextNames(path, p, q);
    if q < |path| {
      PrefixNames(path, q);
    } else {
      assert path[..q] == path;
    }
  }

  lemma AfterThere(t: Tree, path: string, answer: Name -> Answer, p: int, q: int, m: nat, now: Tree)
    requires NextStop(path, p, q) && ParentClosed(t) && m <= |Names(path)| && Reached(t, path, answer, p, m, now)
    requires Names(path[..q]) == [] || (Names(path[..q]) in now && Found(answer, Names(path[..q])))
    ensures m <= |Names(path[..q])| <= |Names(path)| && Reached(t, path, answer, q, |Names(path[..q])|, now)
  {
    hide ParentClosed, Built, Names, MkdirResult, MkdirTree, Found, Passes;
    NextPrefix(path, p, q, m);
    if |Names(path[..q])| == m + 1 {
      BuiltMore(t, Names(path), answer, m, now);
    }
  }

  lemma AfterMissing(t: Tree, path: string, answer: Name -> Answer, p: int, q: int, m: nat, now: Tree)
    requires NextStop(path, p, q) && ParentClosed(t) && m <= |Names(path)| && Reached(t, path, answer, p, m, now)
    requires Names(path[..q]) !in now
    ensures m < |Names(path)| && Names(path[..q]) == Names(path)[..m + 1] && ParentThere(now, Names(path[..q]))
    ensures MkdirResult(now, Names(path[..q]), answer) != Refused <==> Passes(t, Names(path), answer, m + 1)
    ensures if Passes(t, Names(path), answer, m + 1)
            then Reached(t, path, answer, q, m + 1, MkdirTree(now, Names(path[..q]), answer))
            else MkdirTree(now, Names(path[..q]), answer) == now
  {
    BuiltThere(t, Names(path), answer, m, now);
    hide NextStop, ParentClosed, Built, Names, Passes, MkdirResult, MkdirTree;
    NextPrefix(path, p, q, m);
    assert Names(path)[..m + 1][..m] == Names(path)[..m];
    BuiltMore(t, Names(path), answer, m, now);
  }

  /** The prefix is there, for the first time or again after a repeated slash, but stat does
      not find it: the attempt to create it does, or is refused for the first time. */
  lemma AfterUnseen(t: Tree, path: string, answer: Name -> Answer, p: int, q: int, m: nat, now: Tree)
    requires NextStop(path, p, q) && ParentClosed(t) && m <= |Names(path)| && Reached(t, path, answer, p, m, now)
    requires Names(path[..q]) in now && !answer(Names(path[..q])).visible
    ensures ParentThere(now, Names(path[..q])) && MkdirTree(now, Names(path[..q]), answer) == now
    ensures if MkdirResult(now, Names(path[..q]), answer) != Refused
            then m <= |Names(path[..q])| <= |Names(path)| && Reached(t, path, answer, q, |Names(path[..q])|, now)
            else m < |Names(path)| && Names(path[..q]) == Names(path)[..m + 1] && Names(path[..q]) in t
                 && !Passes(t, Names(path), answer, m + 1)
  {
    BuiltThere(t, Names(path), answer, m, now);
    ExtendedTree(t, Names(path), m);
    NextPrefix(path, p, q, m);
    hide NextStop, Names, NoFileBefore, Extended;
    var n := Names(path[..q]);
    if n != [] && answer(n).mkdir == Denied {
      assert |n| == m ==> Passes(t, Names(path), answer, m);
      BuiltMore(t, Names(path), answer, m, now);
    } else {
      AfterThere(t, path, answer, p, q, m, now);
    }
  }

  lemma BuiltThere(t: Tree, n: Name, answer: Name -> Answer, m: nat, now: Tree)
    requires m <= |n| && ParentClosed(t) && Built(t, n, answer, m, now)
    ensures n[..m] in now
  {
    ExtendedTree(t, n, m);
  }

  /** One turn of the loop: the prefix is there, or it is made, or the attempt is refused. */
  method MakeIfMissing(fs: FileSystem, sub: string, answer: Name -> Answer,
                       ghost t: Tree, ghost path: string, ghost p: int, ghost q: int, ghost m: nat)
    returns (ok: bool)
    requires NextStop(path, p, q) && sub == path[..q] && ParentClosed(t)
    requires m <= |Names(path)| && Reached(t, path, answer, p, m, fs.tree)
    modifies fs
    ensures ok ==> m <= |Names(sub)| <= |Names(path)| && Reached(t, path, answer, q, |Names(sub)|, fs.tree)
    ensures !ok ==> m < |Names(path)| && !Passes(t, Names(path), answer, m + 1) && fs.tree == old(fs.tree)
    ensures !ok && Names(path)[..m + 1] in fs.tree ==> Names(path)[..m + 1] in t
    ensures old(fs.attempts) <= fs.attempts
    ensures forall i :: |old(fs.attempts)| <= i < |fs.attempts| ==> fs.attempts[i].parentThere
  {
    hide NextStop, Extended, ParentClosed, ParentThere, Names, Reached, Passes, MkdirResult, MkdirTree;
    if sub == "" || sub == "/" {
      NamesOfSlash();
      AfterThere(t, path, answer, p, q, m, fs.tree);
      return true;
    }
    var there := fs.Stat(sub, answer);
    ok := true;
    if there {
      AfterThere(t, path, answer, p, q, m, fs.tree);
    } else {
      if Names(sub) in fs.tree {
        AfterUnseen(t, path, answer, p, q, m, fs.tree);
      } else {
        AfterMissing(t, path, answer, p, q, m, fs.tree);
      }
      var r := fs.Mkdir(sub, answer);
      ok := r != Refused;
    }
  }

  lemma NamesOfSlash()
    ensures Names("") == [] && Names("/") == []
  {
    assert "/"[..0] == "";
  }

  /** Main result. True means that the path and all its prefixes exist; in either case a leading
      run of prefixes is all that was added, every attempt found its parent in place, and it is
      true exactly when every prefix is there and found, or can be made. False comes with the
      first prefix that is neither: missing, or there before but hidden. */
  method CreateDirectoryRecursive(fs: FileSystem, path: string, answer: Name -> Answer) returns (ok: bool, ghost m: nat)
    requires ParentClosed(fs.tree)
    modifies fs
    ensures m <= |Names(path)| && fs.tree == Extended(old(fs.tree), Names(path), m)
    ensures ParentClosed(fs.tree)
    ensures ok <==> path != "" && forall k :: 1 <= k <= |Names(path)| ==> Passes(old(fs.tree), Names(path), answer, k)
    ensures ok ==> m == |Names(path)| && forall k :: 0 <= k <= m ==> Names(path)[..k] in fs.tree
    ensures !ok && path != "" ==> m < |Names(path)| && !Passes(old(fs.tree), Names(path), answer, m + 1)
    ensures !ok && path != "" && Names(path)[..m + 1] in fs.tree ==>
              Names(path)[..m + 1] in old(fs.tree) && !Found(answer, Names(path)[..m + 1])
    ensures old(fs.attempts) <= fs.attempts
    ensures forall i :: |old(fs.attempts)| <= i < |fs.attempts| ==> fs.attempts[i].parentThere
  {
    var pos: int := 0;
    m := 0;
    if path == "" { return false, 0; }
    NamesOfSlash();
    assert path[..0] == "" && path[..|path|] == path;
    ghost var t, at: int := fs.tree, 0;
    hide Names, Passes, ParentClosed, NoFileBefore;
    while pos != NPOS
      invariant 0 <= at <= |path| && m <= |Names(path)| && Reached(t, path, answer, at, m, fs.tree)
      invariant if pos == NPOS then at == |path| else pos == at && at < |path| && (at == 0 || path[at] == '/')
      invariant old(fs.attempts) <= fs.attempts
      invariant forall i :: |old(fs.attempts)| <= i < |fs.attempts| ==> fs.attempts[i].parentThere
      decreases if pos == NPOS then 0 else |path| - pos + 1
    {
      pos := FindSlash(path, pos + 1);
      var sub := if pos == NPOS then path else path[..pos];
      ghost var q := if pos == NPOS then |path| else pos;
      var made := MakeIfMissing(fs, sub, answer, t, path, at, q, m);
      if !made {
        ExtendedTree(t, Names(path), m);
        return false, m;
      }
      m, at := |Names(sub)|, q;
    }
    ExtendedTree(t, Names(path), m);
    ok := true;
  }
}
