/** What writing files into a container does to its file tree. */
module FileTree {
  import opened Prelude
  import opened ContainerPaths

  type Bytes = seq<bv8>

  datatype Tree = Tree(files: map<Path, Bytes>, dirs: set<Path>)

  datatype Write = Write(path: Path, data: Bytes)

  /** The directories a path needs: its proper prefixes. */
  ghost function Ancestors(path: Path): set<Path> {
    set k | 0 <= k < |path| :: path[..k]
  }

  ghost predicate CanWrite(t: Tree, path: Path) {
    path != [] && path !in t.dirs && Ancestors(path) !! t.files.Keys
  }

  /** Writing a file creates its parent directories; None when a parent is a
      file or the path is a directory. */
  ghost function WriteFile(t: Tree, w: Write): Option<Tree> {
    if CanWrite(t, w.path)
    then Some(Tree(t.files[w.path := w.data], t.dirs + Ancestors(w.path)))
    else None
  }

  /** A file can be written unless it stands in for a directory, or a file stands on the
      way to it; then the directories on the way exist. */
  lemma WriteFileMeaning(t: Tree, w: Write)
    ensures WriteFile(t, w).Some? <==> w.path != [] && w.path !in t.dirs && forall f :: f in t.files ==> !(f < w.path)
    ensures WriteFile(t, w).Some? ==>
      && WriteFile(t, w).value.files == t.files[w.path := w.data]
      && forall d :: d in WriteFile(t, w).value.dirs <==> d in t.dirs || d < w.path
  {
    forall p ensures p in Ancestors(w.path) <==> p < w.path {
      assert p < w.path ==> w.path[..|p|] == p;
    }
  }

  ghost function WriteAll(t: Tree, writes: seq<Write>): Option<Tree>
    decreases |writes|
  {
    if writes == [] then Some(t)
    else
      var next := WriteFile(t, writes[0]);
      if next.None? then None else WriteAll(next.value, writes[1..])
  }

  /** No path is a directory prefix of another, and no path is written twice. */
  ghost predicate Independent(writes: seq<Write>) {
    forall i, j :: 0 <= i < |writes| && 0 <= j < |writes| && i != j ==>
      writes[i].path != writes[j].path && writes[i].path !in Ancestors(writes[j].path)
  }

  ghost predicate AllWritable(t: Tree, writes: seq<Write>) {
    forall w :: w in writes ==> CanWrite(t, w.path)
  }

  ghost function FilesAfter(t: Tree, writes: seq<Write>): map<Path, Bytes> {
    if writes == [] then t.files
    else FilesAfter(t, writes[..|writes| - 1])[writes[|writes| - 1].path := writes[|writes| - 1].data]
  }

  ghost function DirsAfter(t: Tree, writes: seq<Write>): set<Path> {
    t.dirs + (set w, p | w in writes && p in Ancestors(w.path) :: p)
  }

  /** Independent writes succeed exactly when each would succeed alone, and
      their joint effect has a closed form. */
  lemma {:induction false} WritesAddUp(t: Tree, writes: seq<Write>)
    requires Independent(writes)
    ensures WriteAll(t, writes) ==
      if AllWritable(t, writes) then Some(Tree(FilesAfter(t, writes), DirsAfter(t, writes))) else None
    decreases |writes|
  {
    if writes == [] {
      assert DirsAfter(t, writes) == t.dirs;
    } else {
      var n := |writes| - 1;
      var before, last := writes[..n], writes[n];
      WriteLast(t, before, last);
      assert writes == before + [last];
      WritesAddUp(t, before);
      if AllWritable(t, before) {
        var mid := Tree(FilesAfter(t, before), DirsAfter(t, before));
        FilesAfterKeys(t, before);
        assert CanWrite(mid, last.path) <==> CanWrite(t, last.path) by {
          LastIsUnaffected(t, writes);
        }
        assert DirsAfter(t, writes) == mid.dirs + Ancestors(last.path);
      }
    }
  }

  lemma {:induction false} WriteLast(t: Tree, before: seq<Write>, last: Write)
    ensures WriteAll(t, before + [last]) ==
      if WriteAll(t, before).None? then None else WriteFile(WriteAll(t, before).value, last)
    decreases |before|
  {
    if before == [] {
      assert before + [last] == [last];
      assert [last][1..] == [];
    } else {
      assert (before + [last])[1..] == before[1..] + [last];
      if WriteFile(t, before[0]).Some? {
        WriteLast(WriteFile(t, before[0]).value, before[1..], last);
      }
    }
  }

  lemma {:induction false} FilesAfterKeys(t: Tree, writes: seq<Write>)
    ensures forall p :: p in FilesAfter(t, writes) <==> p in t.files || exists i :: 0 <= i < |writes| && writes[i].path == p
    decreases |writes|
  {
    if writes != [] {
      FilesAfterKeys(t, writes[..|writes| - 1]);
    }
  }

  lemma LastIsUnaffected(t: Tree, writes: seq<Write>)
    requires Independent(writes) && writes != []
    ensures var n := |writes| - 1;
      CanWrite(Tree(FilesAfter(t, writes[..n]), DirsAfter(t, writes[..n])), writes[n].path)
      <==> CanWrite(t, writes[n].path)
  {
    var n := |writes| - 1;
    FilesAfterKeys(t, writes[..n]);
    var path := writes[n].path;
    forall w, p | w in writes[..n] && p in Ancestors(w.path) ensures p != path {
      var i :| 0 <= i < n && writes[i] == w;
    }
    forall p | p in Ancestors(path) && p in FilesAfter(t, writes[..n]) ensures p in t.files {
    }
  }

  lemma {:induction false} FilesAfterAt(t: Tree, writes: seq<Write>, i: nat)
    requires Independent(writes) && i < |writes|
    ensures writes[i].path in FilesAfter(t, writes) && FilesAfter(t, writes)[writes[i].path] == writes[i].data
    decreases |writes|
  {
    if i < |writes| - 1 {
      FilesAfterAt(t, writes[..|writes| - 1], i);
    }
  }

  lemma {:induction false} FilesAfterElsewhere(t: Tree, writes: seq<Write>, p: Path)
    requires forall i :: 0 <= i < |writes| ==> writes[i].path != p
    requires p in FilesAfter(t, writes)
    ensures p in t.files && FilesAfter(t, writes)[p] == t.files[p]
    decreases |writes|
  {
    if writes != [] {
      FilesAfterElsewhere(t, writes[..|writes| - 1], p);
    }
  }

  lemma {:induction false} SameFiles(t: Tree, a: seq<Write>, b: seq<Write>, p: Path)
    requires Independent(a) && Independent(b) && forall w :: w in a <==> w in b
    requires p in FilesAfter(t, a) && p in FilesAfter(t, b)
    ensures FilesAfter(t, a)[p] == FilesAfter(t, b)[p]
  {
    if i :| 0 <= i < |a| && a[i].path == p {
      assert a[i] in b;
      var j :| 0 <= j < |b| && b[j] == a[i];
      FilesAfterAt(t, a, i);
      FilesAfterAt(t, b, j);
    } else {
      SamePaths(b, a, p);
      FilesAfterElsewhere(t, a, p);
      FilesAfterElsewhere(t, b, p);
    }
  }

  lemma {:induction false} SameKeys(t: Tree, a: seq<Write>, b: seq<Write>, p: Path)
    requires forall w :: w in a <==> w in b
    ensures p in FilesAfter(t, a) <==> p in FilesAfter(t, b)
  {
    FilesAfterKeys(t, a);
    FilesAfterKeys(t, b);
    SamePaths(a, b, p);
    SamePaths(b, a, p);
  }

  /** The order of independent writes does not matter, nor does it matter for failure. */
  lemma {:induction false} OrderIsIrrelevant(t: Tree, a: seq<Write>, b: seq<Write>)
    requires Independent(a) && Independent(b) && forall w :: w in a <==> w in b
    ensures WriteAll(t, a) == WriteAll(t, b)
  {
    WritesAddUp(t, a);
    WritesAddUp(t, b);
    assert DirsAfter(t, a) == DirsAfter(t, b);
    var fa, fb := FilesAfter(t, a), FilesAfter(t, b);
    forall p ensures p in fa <==> p in fb { SameKeys(t, a, b, p); }
    forall p | p in fa ensures fa[p] == fb[p] { SameFiles(t, a, b, p); }
    assert fa == fb;
  }

  lemma SamePaths(a: seq<Write>, b: seq<Write>, p: Path)
    requires forall w :: w in a ==> w in b
    ensures (exists i :: 0 <= i < |a| && a[i].path == p) ==> exists j :: 0 <= j < |b| && b[j].path == p
  {
    if i :| 0 <= i < |a| && a[i].path == p {
      assert a[i] in b;
    }
  }
}
