/** `upload_files`: many files, canonicalised into one archive
    (src/ucloud_sandboxes_sdk/client.py). */
module FileArchive {
  import opened Prelude
  import opened SortedNames
  import opened ContainerPaths
  import opened FileTree

  const MAX_FILES: nat := 10_000
  const MAX_BYTES: nat := 0x1000_0000
  const MAX_MODE := 0x1FF   // 0o777

  // A file as the caller names it, or a member as the archive names it.
  datatype Entry = Entry(name: string, data: Bytes)

  datatype Archive = Archive(baseDir: string, members: seq<Entry>, mode: int, totalBytes: nat)

  datatype Error =
    | BaseNotAbsolute | BadMode | TooManyFiles | TooManyBytes
    | ControlCharacter | DotDot
    | EmptyPath | TrailingSlash | OutsideBase | NamesBase
    | SameFile | ParentDirectory

  /** The errors that one path can have. */
  predicate PathError(e: Error) {
    e.ControlCharacter? || e.DotDot? || e.EmptyPath? || e.TrailingSlash? || e.OutsideBase? || e.NamesBase?
  }

  function PathParts(path: string): (r: Result<Path, Error>)
    ensures r.Err? ==> PathError(r.error)
  {
    if !Printable(path) then Err(ControlCharacter)
    else if ".." in Parts(path) then Err(DotDot)
    else Ok(Parts(path))
  }

  /** The member a caller's path denotes, relative to the base directory. */
  function MemberPath(base: Path, path: string): (r: Result<Path, Error>)
    ensures r.Err? ==> PathError(r.error)
  {
    if path == "" then Err(EmptyPath)
    else if path[|path| - 1] == '/' then Err(TrailingSlash)
    else if PathParts(path).Err? then PathParts(path)
    else
      var parts := Parts(path);
      if path[0] == '/' && !(base <= parts) then Err(OutsideBase)
      else
        var inner := if path[0] == '/' then parts[|base|..] else parts;
        if inner == [] then Err(NamesBase) else Ok(inner)
  }

  function MemberName(base: Path, path: string): string {
    var m := MemberPath(base, path);
    if m.Ok? then Join(m.value) else ""
  }

  function Names(base: Path, files: seq<Entry>): seq<string> {
    seq(|files|, i requires 0 <= i < |files| => MemberName(base, files[i].name))
  }

  function Total(files: seq<Entry>): nat {
    if files == [] then 0 else Total(files[..|files| - 1]) + |files[|files| - 1].data|
  }

  /** Some name is a directory on the way to this one. */
  ghost predicate UnderAnother(names: seq<string>, name: string) {
    exists depth :: 0 < depth < |Split(name)| && Join(Split(name)[..depth]) in names
  }

  ghost predicate AllDenote(base: Path, files: seq<Entry>) {
    forall i :: 0 <= i < |files| ==> MemberPath(base, files[i].name).Ok?
  }

  /** Every path denotes a member, and no two denote the same one. */
  ghost predicate Nameable(base: Path, files: seq<Entry>) {
    AllDenote(base, files) && Distinct(Names(base, files))
  }

  ghost predicate NoParents(names: seq<string>) {
    forall i :: 0 <= i < |names| ==> !UnderAnother(names, names[i])
  }

  ghost predicate Acceptable(files: seq<Entry>, baseDir: string, mode: int) {
    && baseDir != "" && baseDir[0] == '/' && Clean(baseDir)
    && 0 <= mode <= MAX_MODE && |files| <= MAX_FILES && Total(files) <= MAX_BYTES
    && Nameable(Parts(baseDir), files) && NoParents(Names(Parts(baseDir), files))
  }

  /** The data of the last file with this name. */
  function Lookup(names: seq<string>, files: seq<Entry>, name: string): Bytes
    requires |names| == |files|
  {
    if files == [] then []
    else
      var n := |files| - 1;
      if names[n] == name then files[n].data else Lookup(names[..n], files[..n], name)
  }

  /** The content the caller gave for a member name. */
  function DataOf(base: Path, files: seq<Entry>, name: string): Bytes {
    Lookup(Names(base, files), files, name)
  }

  function Members(order: seq<string>, data: map<string, Bytes>): seq<Entry>
    requires forall n :: n in order ==> n in data
  {
    seq(|order|, i requires 0 <= i < |order| => Entry(order[i], data[order[i]]))
  }

  ghost function ArchiveOf(files: seq<Entry>, baseDir: string, mode: int): Archive {
    var base := Parts(baseDir);
    var order := Sort(Names(base, files));
    Archive("/" + Join(base),
            seq(|order|, i requires 0 <= i < |order| => Entry(order[i], DataOf(base, files, order[i]))),
            mode, Total(files))
  }

  /** `named` maps exactly the names to the data of their files. */
  ghost predicate Keyed(names: seq<string>, files: seq<Entry>, named: map<string, Bytes>) {
    && |names| == |files| && Distinct(names)
    && (forall n :: n in named <==> n in names)
    && (forall n :: n in named ==> named[n] == Lookup(names, files, n))
  }

  /** What the first loop knows of the files it has named. */
  ghost predicate Named(base: Path, files: seq<Entry>, names: seq<string>, named: map<string, Bytes>, total: nat) {
    && AllDenote(base, files) && names == Names(base, files) && Keyed(names, files, named) && total == Total(files)
  }

  /** Why the first loop stops at an error. */
  ghost predicate NamingFails(base: Path, files: seq<Entry>, e: Error) {
    if e == SameFile then !Distinct(Names(base, files))
    else PathError(e) && exists i :: 0 <= i < |files| && MemberPath(base, files[i].name) == Err(e)
  }

  /** The first loop: names every file and adds up the bytes. `names` and
      `named` are the keys and the values of one insertion-ordered dictionary. */
  method NameFiles(base: Path, files: seq<Entry>)
      returns (failed: Option<Error>, names: seq<string>, named: map<string, Bytes>, total: nat)
    ensures failed.None? <==> Nameable(base, files)
    ensures failed.None? ==> Named(base, files, names, named, total)
    ensures failed.Some? ==> NamingFails(base, files, failed.value)
  {
    names, named, total := [], map[], 0;
    for k := 0 to |files|
      invariant Named(base, files[..k], names, named, total)
    {
      var member := MemberPath(base, files[k].name);
      if member.Err? {
        return Some(member.error), names, named, total;
      }
      var name := Join(member.value);
      if name in named {
        NamedTwice(base, files, k);
        return Some(SameFile), names, named, total;
      }
      NamedMore(base, files[..k], files[k], names, named, total);
      assert files[..k + 1] == files[..k] + [files[k]];
      total := total + |files[k].data|;
      names := names + [name];
      named := named[name := files[k].data];
    }
    assert files[..|files|] == files;
    failed := None;
  }

  lemma NamedTwice(base: Path, files: seq<Entry>, k: nat)
    requires k < |files| && MemberName(base, files[k].name) in Names(base, files[..k])
    ensures !Distinct(Names(base, files))
  {
    var names := Names(base, files);
    var i :| 0 <= i < k && Names(base, files[..k])[i] == MemberName(base, files[k].name);
    assert names[i] == names[k];
  }

  lemma KeyedMore(names: seq<string>, files: seq<Entry>, named: map<string, Bytes>, name: string, file: Entry)
    requires Keyed(names, files, named) && name !in named
    ensures Keyed(names + [name], files + [file], named[name := file.data])
  {
    assert (names + [name])[..|names|] == names && (files + [file])[..|files|] == files;
  }

  lemma NamesMore(base: Path, done: seq<Entry>, file: Entry)
    ensures Names(base, done + [file]) == Names(base, done) + [MemberName(base, file.name)]
    ensures AllDenote(base, done) && MemberPath(base, file.name).Ok? ==> AllDenote(base, done + [file])
  {
  }

  lemma NamedMore(base: Path, done: seq<Entry>, file: Entry, names: seq<string>, named: map<string, Bytes>, total: nat)
    requires Named(base, done, names, named, total)
    requires MemberPath(base, file.name).Ok? && MemberName(base, file.name) !in named
    ensures var name := MemberName(base, file.name);
      Named(base, done + [file], names + [name], named[name := file.data], total + |file.data|)
  {
    assert (done + [file])[..|done|] == done;
    NamesMore(base, done, file);
    KeyedMore(names, done, named, MemberName(base, file.name), file);
  }

  /** The second loop: looks for a name that is a directory of another. */
  method FindParent(names: seq<string>, named: map<string, Bytes>) returns (found: bool)
    requires forall n :: n in named <==> n in names
    ensures found <==> !NoParents(names)
  {
    for i := 0 to |names|
      invariant forall j :: 0 <= j < i ==> !UnderAnother(names, names[j])
    {
      var parts := Split(names[i]);
      for depth := 1 to |parts|
        invariant forall d :: 0 < d < depth ==> Join(parts[..d]) !in names
      {
        if Join(parts[..depth]) in named {
          assert UnderAnother(names, names[i]);
          return true;
        }
      }
    }
    found := false;
  }

  /** What each error says about the input. */
  ghost predicate Refused(files: seq<Entry>, baseDir: string, mode: int, e: Error) {
    var base := Parts(baseDir);
    match e
    case BaseNotAbsolute => baseDir == "" || baseDir[0] != '/'
    case BadMode => mode < 0 || mode > MAX_MODE
    case TooManyFiles => |files| > MAX_FILES
    case TooManyBytes => Total(files) > MAX_BYTES
    case ParentDirectory => !NoParents(Names(base, files))
    case _ => PathParts(baseDir) == Err(e) || NamingFails(base, files, e)
  }

  /** `_file_archive`: accepts exactly the acceptable input. */
  method FileArchive(files: seq<Entry>, baseDir: string, mode: int) returns (r: Result<Archive, Error>)
    ensures r.Ok? <==> Acceptable(files, baseDir, mode)
    ensures r.Ok? ==> r.value == ArchiveOf(files, baseDir, mode)
    ensures r.Err? ==> Refused(files, baseDir, mode, r.error)
  {
    if baseDir == "" || baseDir[0] != '/' {
      return Err(BaseNotAbsolute);
    }
    var baseParts := PathParts(baseDir);
    if baseParts.Err? {
      return Err(baseParts.error);
    }
    var base := baseParts.value;
    if !(0 <= mode <= MAX_MODE) {
      return Err(BadMode);
    }
    if |files| > MAX_FILES {
      return Err(TooManyFiles);
    }
    var failed, names, named, total := NameFiles(base, files);
    if failed.Some? {
      return Err(failed.value);
    }
    if total > MAX_BYTES {
      return Err(TooManyBytes);
    }
    var found := FindParent(names, named);
    if found {
      return Err(ParentDirectory);
    }
    SortKeepsNames(names);
    r := Ok(Archive("/" + Join(base), Members(Sort(names), named), mode, total));
  }

  lemma {:induction false} SortKeepsNames(names: seq<string>)
    requires Distinct(names)
    ensures StrictlySorted(Sort(names)) && |Sort(names)| == |names|
    ensures forall n :: n in Sort(names) <==> n in names
  {
    SortSorts(names);
    assert |multiset(Sort(names))| == |multiset(names)|;
    forall n ensures n in Sort(names) <==> n in names {
      assert n in Sort(names) <==> n in multiset(Sort(names));
      assert n in names <==> n in multiset(names);
    }
  }

  // ----- an accepted archive is canonical -----

  function MemberNames(a: Archive): seq<string> {
    seq(|a.members|, i requires 0 <= i < |a.members| => a.members[i].name)
  }

  /** Strictly sorted names made of components, none a directory of another. */
  ghost predicate Canonical(a: Archive) {
    var names := MemberNames(a);
    && StrictlySorted(names)
    && (forall n :: n in names ==> AllComponents(Split(n)))
    && (forall n, m :: n in names && m in names && n != m ==> !(Split(n) <= Split(m)))
  }

  lemma MemberPathOk(base: Path, path: string)
    requires MemberPath(base, path).Ok?
    ensures var m := MemberPath(base, path).value;
      m != [] && AllComponents(m) && Split(MemberName(base, path)) == m
  {
    CleanParts(path);
    ComponentsRoundTrip(MemberPath(base, path).value);
  }

  lemma {:induction false} LookupAt(names: seq<string>, files: seq<Entry>, i: nat)
    requires |names| == |files| && Distinct(names) && i < |files|
    ensures Lookup(names, files, names[i]) == files[i].data
    decreases |files|
  {
    var n := |files| - 1;
    if i < n {
      LookupAt(names[..n], files[..n], i);
    }
  }

  lemma DataOfFile(base: Path, files: seq<Entry>, i: nat)
    requires Nameable(base, files) && i < |files|
    ensures DataOf(base, files, MemberName(base, files[i].name)) == files[i].data
  {
    LookupAt(Names(base, files), files, i);
  }

  lemma ArchiveNames(files: seq<Entry>, baseDir: string, mode: int)
    requires Acceptable(files, baseDir, mode)
    ensures var names := MemberNames(ArchiveOf(files, baseDir, mode)); var given := Names(Parts(baseDir), files);
      names == Sort(given) && StrictlySorted(names) && |names| == |given| && forall n :: n in names <==> n in given
  {
    var given := Names(Parts(baseDir), files);
    SortKeepsNames(given);
    assert MemberNames(ArchiveOf(files, baseDir, mode)) == Sort(given);
  }

  lemma {:induction false} ArchiveBase(base: Path)
    requires AllComponents(base)
    ensures Parts("/" + Join(base)) == base
  {
    if base == [] {
      RootHasNoParts();
      assert "/" + "" == "/";
    } else {
      SplitSlash(Join(base));
      ComponentsRoundTrip(base);
      KeepConcat([""], base);
      KeepAll(base);
      assert [""][1..] == [] && [] + base == base;
    }
  }

  lemma ArchiveIsCanonical(files: seq<Entry>, baseDir: string, mode: int)
    requires Acceptable(files, baseDir, mode)
    ensures Canonical(ArchiveOf(files, baseDir, mode))
  {
    var base := Parts(baseDir);
    var names, given := MemberNames(ArchiveOf(files, baseDir, mode)), Names(base, files);
    ArchiveNames(files, baseDir, mode);
    forall n | n in names ensures AllComponents(Split(n)) {
      var i :| 0 <= i < |given| && given[i] == n;
      MemberPathOk(base, files[i].name);
    }
    forall n, m | n in names && m in names && n != m ensures !(Split(n) <= Split(m)) {
      NotUnderAnother(given, n, m);
    }
  }

  /** The archive holds the caller's files, each once and under its own name. */
  lemma AcceptedIsCanonical(files: seq<Entry>, baseDir: string, mode: int)
    requires Acceptable(files, baseDir, mode)
    ensures var a := ArchiveOf(files, baseDir, mode); var base := Parts(baseDir);
      && Canonical(a) && |a.members| == |files| && Parts(a.baseDir) == base && AllComponents(base)
      && (forall i :: 0 <= i < |files| ==> Entry(MemberName(base, files[i].name), files[i].data) in a.members)
      && (forall e :: e in a.members ==>
            exists i :: 0 <= i < |files| && e == Entry(MemberName(base, files[i].name), files[i].data))
  {
    var a, base := ArchiveOf(files, baseDir, mode), Parts(baseDir);
    var given := Names(base, files);
    ArchiveIsCanonical(files, baseDir, mode);
    ArchiveNames(files, baseDir, mode);
    CleanParts(baseDir);
    ArchiveBase(base);
    forall i | 0 <= i < |files|
      ensures Entry(MemberName(base, files[i].name), files[i].data) in a.members
    {
      assert given[i] in MemberNames(a);
      var k :| 0 <= k < |a.members| && MemberNames(a)[k] == given[i];
      DataOfFile(base, files, i);
      assert a.members[k] == Entry(given[i], files[i].data);
    }
    forall k | 0 <= k < |a.members|
      ensures exists i :: 0 <= i < |files| && a.members[k] == Entry(MemberName(base, files[i].name), files[i].data)
    {
      assert MemberNames(a)[k] in given;
      var i :| 0 <= i < |given| && given[i] == MemberNames(a)[k];
      DataOfFile(base, files, i);
    }
  }

  lemma {:induction false} NotUnderAnother(names: seq<string>, n: string, m: string)
    requires NoParents(names) && n in names && m in names && n != m
    ensures !(Split(n) <= Split(m))
  {
    JoinSplit(n);
    JoinSplit(m);
    var i :| 0 <= i < |names| && names[i] == m;
    assert !UnderAnother(names, names[i]);
    var depth := |Split(n)|;
    assert depth < |Split(m)| ==> Join(Split(m)[..depth]) !in names;
    assert depth < |Split(m)| ==> Split(m)[..depth] != Split(n);
    assert depth == |Split(m)| ==> Split(n) != Split(m);
    assert depth == |Split(m)| ==> Split(m)[..depth] == Split(m);
  }

  // ----- resubmitting an archive's own members -----

  function RStrip(s: string): string {
    if s != "" && s[|s| - 1] == '/' then RStrip(s[..|s| - 1]) else s
  }

  /** The absolute path of a member. */
  function ContainerPath(a: Archive, name: string): string { RStrip(a.baseDir) + "/" + name }

  lemma {:induction false} JoinEnds(path: Path)
    requires path != [] && AllComponents(path)
    ensures Join(path) != "" && Join(path)[0] != '/' && Join(path)[|Join(path)| - 1] != '/'
  {
    assert Component(path[0]);
    if |path| > 1 {
      JoinEnds(path[1..]);
    }
  }

  lemma {:induction false} RootParts(a: Archive, base: Path)
    requires AllComponents(base) && a.baseDir == "/" + Join(base)
    ensures var root := RStrip(a.baseDir);
      Parts(root) == base && Printable(root) && (root == "" || root[0] == '/')
  {
    ComponentsRoundTrip(base);
    assert Parts("") == [];
    if base == [] {
      assert a.baseDir[..0] == "";
    } else {
      JoinEnds(base);
      ArchiveBase(base);
    }
  }

  lemma {:induction false} ContainerPathParts(a: Archive, base: Path, name: string)
    requires AllComponents(base) && a.baseDir == "/" + Join(base)
    requires AllComponents(Split(name))
    ensures Parts(ContainerPath(a, name)) == base + Split(name) && Clean(ContainerPath(a, name))
    ensures ContainerPath(a, name)[0] == '/' && ContainerPath(a, name)[|ContainerPath(a, name)| - 1] != '/'
  {
    RootParts(a, base);
    JoinSplit(name);
    JoinEnds(Split(name));
    KeepAll(Split(name));
    JoinPrintable(Split(name));
    PartsUnder(RStrip(a.baseDir), name);
    NoDotDot(base + Split(name));
  }

  lemma NoDotDot(path: Path)
    requires AllComponents(path)
    ensures ".." !in path
  {
    forall k | 0 <= k < |path| ensures path[k] != ".." {
      assert Component(path[k]);
    }
  }

  /** A member's own name, relative or absolute, denotes that member again. */
  lemma {:induction false} MemberDenotesItself(a: Archive, base: Path, name: string)
    requires AllComponents(base) && a.baseDir == "/" + Join(base)
    requires AllComponents(Split(name))
    ensures MemberPath(base, name) == Ok(Split(name)) && MemberName(base, name) == name
    ensures MemberPath(base, ContainerPath(a, name)) == Ok(Split(name))
    ensures MemberName(base, ContainerPath(a, name)) == name
  {
    JoinSplit(name);
    JoinEnds(Split(name));
    ComponentsRoundTrip(Split(name));
    ContainerPathParts(a, base, name);
    assert (base + Split(name))[|base|..] == Split(name);
  }

  function Sum(names: seq<string>, size: string -> nat): nat {
    if names == [] then 0 else size(names[0]) + Sum(names[1..], size)
  }

  lemma {:induction false} SumOfSort(names: seq<string>, size: string -> nat)
    ensures Sum(Sort(names), size) == Sum(names, size)
  {
    if names != [] {
      SumOfSort(names[1..], size);
      SumOfInsert(names[0], Sort(names[1..]), size);
    }
  }

  lemma {:induction false} SumOfInsert(name: string, names: seq<string>, size: string -> nat)
    ensures Sum(Insert(name, names), size) == size(name) + Sum(names, size)
  {
    if names == [] || Less(name, names[0]) {
      assert ([name] + names)[1..] == names;
    } else {
      SumOfInsert(name, names[1..], size);
      assert ([names[0]] + Insert(name, names[1..]))[1..] == Insert(name, names[1..]);
    }
  }

  lemma {:induction false} SumAppend(names: seq<string>, name: string, size: string -> nat)
    ensures Sum(names + [name], size) == Sum(names, size) + size(name)
  {
    if names == [] {
      assert ([] + [name])[1..] == [];
    } else {
      SumAppend(names[1..], name, size);
      assert (names + [name])[1..] == names[1..] + [name];
    }
  }

  /** The byte total is the sum over the names, whatever their order. */
  lemma {:induction false} TotalIsSum(files: seq<Entry>, names: seq<string>, size: string -> nat)
    requires |names| == |files| && forall i :: 0 <= i < |files| ==> size(names[i]) == |files[i].data|
    ensures Total(files) == Sum(names, size)
    decreases |files|
  {
    if files != [] {
      var n := |files| - 1;
      TotalIsSum(files[..n], names[..n], size);
      SumAppend(names[..n], names[n], size);
      assert names == names[..n] + [names[n]];
    }
  }

  /** The members of an archive as input again, each in either spelling. */
  function Respelled(a: Archive, absolute: string -> bool): seq<Entry> {
    seq(|a.members|, i requires 0 <= i < |a.members| =>
      Entry(if absolute(a.members[i].name) then ContainerPath(a, a.members[i].name) else a.members[i].name,
            a.members[i].data))
  }

  lemma {:induction false} TotalIsKept(files: seq<Entry>, baseDir: string, mode: int)
    requires Acceptable(files, baseDir, mode)
    ensures Total(ArchiveOf(files, baseDir, mode).members) == Total(files)
  {
    var a, base := ArchiveOf(files, baseDir, mode), Parts(baseDir);
    var given := Names(base, files);
    var size := (n: string) => |DataOf(base, files, n)|;
    forall i | 0 <= i < |files| ensures size(given[i]) == |files[i].data| {
      DataOfFile(base, files, i);
    }
    TotalIsSum(files, given, size);
    SumOfSort(given, size);
    TotalIsSum(a.members, Sort(given), size);
  }

  lemma {:induction false} TotalIgnoresNames(a: seq<Entry>, b: seq<Entry>)
    requires |a| == |b| && forall i :: 0 <= i < |a| ==> a[i].data == b[i].data
    ensures Total(a) == Total(b)
    decreases |a|
  {
    if a != [] {
      TotalIgnoresNames(a[..|a| - 1], b[..|b| - 1]);
    }
  }

  lemma {:induction false} RespelledNames(a: Archive, base: Path, absolute: string -> bool)
    requires Canonical(a) && AllComponents(base) && a.baseDir == "/" + Join(base)
    ensures Nameable(base, Respelled(a, absolute)) && Names(base, Respelled(a, absolute)) == MemberNames(a)
  {
    var again, names := Respelled(a, absolute), MemberNames(a);
    forall i | 0 <= i < |again|
      ensures MemberPath(base, again[i].name).Ok? && MemberName(base, again[i].name) == names[i]
    {
      assert names[i] == a.members[i].name;
      MemberDenotesItself(a, base, names[i]);
    }
    forall i, j | 0 <= i < j < |names| ensures names[i] != names[j] {
      LessTotal(names[i], names[j]);
    }
  }

  lemma NoParentsInSameNames(a: seq<string>, b: seq<string>)
    requires NoParents(a) && forall n :: n in a <==> n in b
    ensures NoParents(b)
  {
    forall i | 0 <= i < |b| ensures !UnderAnother(b, b[i]) {
      assert b[i] in a;
      var k :| 0 <= k < |a| && a[k] == b[i];
      assert !UnderAnother(a, a[k]);
    }
  }

  /** A sorted, nameable list of files is its own archive. */
  lemma {:induction false} SortedFilesAreTheirArchive(a: Archive, base: Path, again: seq<Entry>)
    requires Nameable(base, again) && Names(base, again) == MemberNames(a) && StrictlySorted(MemberNames(a))
    requires |again| == |a.members| && forall i :: 0 <= i < |again| ==> again[i].data == a.members[i].data
    requires Parts(a.baseDir) == base && a.baseDir == "/" + Join(base) && Total(again) == a.totalBytes
    ensures ArchiveOf(again, a.baseDir, a.mode) == a
  {
    var names := MemberNames(a);
    SortKeepsNames(names);
    SortedIsUnique(Sort(names), names);
    forall i | 0 <= i < |again| ensures Entry(names[i], DataOf(base, again, names[i])) == a.members[i] {
      DataOfFile(base, again, i);
      assert names[i] == Names(base, again)[i];
    }
    assert ArchiveOf(again, a.baseDir, a.mode).members == a.members;
  }

  /** Submitting an accepted archive's members again, in any mix of the two
      spellings, gives the same archive. */
  lemma ResubmissionIsIdempotent(files: seq<Entry>, baseDir: string, mode: int, absolute: string -> bool)
    requires Acceptable(files, baseDir, mode)
    ensures var a := ArchiveOf(files, baseDir, mode);
      && Acceptable(Respelled(a, absolute), a.baseDir, mode)
      && ArchiveOf(Respelled(a, absolute), a.baseDir, mode) == a
  {
    var a, base := ArchiveOf(files, baseDir, mode), Parts(baseDir);
    var again, given := Respelled(a, absolute), Names(base, files);
    AcceptedIsCanonical(files, baseDir, mode);
    RespelledNames(a, base, absolute);
    SortKeepsNames(given);
    assert MemberNames(a) == Sort(given);
    NoParentsInSameNames(given, MemberNames(a));
    TotalIsKept(files, baseDir, mode);
    TotalIgnoresNames(again, a.members);
    SortedFilesAreTheirArchive(a, base, again);
    JoinPrintable(base);
    NoDotDot(base);
  }

  // ----- the file tree an upload builds -----

  /** What extracting the archive at its base directory writes. */
  ghost function Extraction(a: Archive, base: Path): seq<Write> {
    seq(|a.members|, i requires 0 <= i < |a.members| =>
      Write(base + Split(a.members[i].name), a.members[i].data))
  }

  /** What the per-file fallback writes. */
  ghost function Fallback(a: Archive): seq<Write> {
    seq(|a.members|, i requires 0 <= i < |a.members| =>
      Write(Parts(ContainerPath(a, a.members[i].name)), a.members[i].data))
  }

  lemma PrefixUnder(base: Path, p: Path, q: Path)
    ensures base + p <= base + q ==> p <= q
  {
    assert (base + p)[|base|..] == p && (base + q)[|base|..] == q;
  }

  lemma ExtractionIsIndependent(a: Archive, base: Path)
    requires Canonical(a)
    ensures Independent(Extraction(a, base))
  {
    var names, writes := MemberNames(a), Extraction(a, base);
    forall i, j | 0 <= i < |writes| && 0 <= j < |writes| && i != j
      ensures writes[i].path != writes[j].path && writes[i].path !in Ancestors(writes[j].path)
    {
      LessTotal(names[i], names[j]);
      assert names[i] != names[j];
      assert !(Split(names[i]) <= Split(names[j]));
      assert writes[i].path == base + Split(names[i]) && writes[j].path == base + Split(names[j]);
      PrefixUnder(base, Split(names[i]), Split(names[j]));
    }
  }

  /** Extracting the members in any order builds, on any tree, path for path
      what the per-file fallback builds, and fails exactly when it fails. */
  lemma {:induction false} ExtractionMatchesFallback(files: seq<Entry>, baseDir: string, mode: int, t: Tree, order: seq<Write>)
    requires Acceptable(files, baseDir, mode)
    requires Distinct(order)
    requires var a := ArchiveOf(files, baseDir, mode);
      forall w :: w in order <==> w in Extraction(a, Parts(baseDir))
    ensures WriteAll(t, order) == WriteAll(t, Fallback(ArchiveOf(files, baseDir, mode)))
  {
    var a, base := ArchiveOf(files, baseDir, mode), Parts(baseDir);
    AcceptedIsCanonical(files, baseDir, mode);
    var writes := Extraction(a, base);
    forall i | 0 <= i < |writes| ensures writes[i] == Fallback(a)[i] {
      assert MemberNames(a)[i] == a.members[i].name;
      ContainerPathParts(a, base, a.members[i].name);
    }
    assert writes == Fallback(a);
    ExtractionIsIndependent(a, base);
    forall i, j | 0 <= i < |order| && 0 <= j < |order| && i != j
      ensures order[i].path != order[j].path && order[i].path !in Ancestors(order[j].path)
    {
      assert order[i] in writes && order[j] in writes;
    }
    OrderIsIrrelevant(t, order, writes);
  }

  // ----- where each file goes -----

  /** The place in the container that a caller's path names. */
  function Place(base: Path, path: string): Path {
    if "/" <= path then Parts(path) else base + Parts(path)
  }

  /** A path that names a file below the base directory. */
  ghost predicate NamesFileBelow(base: Path, path: string) {
    && path != "" && path[|path| - 1] != '/'
    && (forall c :: c in path ==> 0x20 <= c as int <= 0x7E || 0xA0 <= c as int) && ".." !in Split(path)
    && base <= Place(base, path) && |base| < |Place(base, path)|
  }

  /** A path denotes a member exactly when it names a file below the base directory,
      and the member is that file's place seen from there. */
  lemma MemberPathMeaning(base: Path, path: string)
    ensures MemberPath(base, path).Ok? <==> NamesFileBelow(base, path)
    ensures MemberPath(base, path).Ok? ==> Place(base, path) == base + MemberPath(base, path).value
  {
    CleanMeaning(path);
    assert base <= base + Parts(path);
  }

  /** One error for each way a path can fail, in the order they are looked for. */
  lemma {:induction false} MemberPathErrors(base: Path, path: string)
    ensures path == "" ==> MemberPath(base, path) == Err(EmptyPath)
    ensures path != "" && path[|path| - 1] == '/' ==> MemberPath(base, path) == Err(TrailingSlash)
    ensures path != "" && path[|path| - 1] != '/' && !(base <= Place(base, path)) && Clean(path) ==>
      MemberPath(base, path) == Err(OutsideBase)
    ensures path != "" && path[|path| - 1] != '/' && base == Place(base, path) && Clean(path) ==>
      MemberPath(base, path) == Err(NamesBase)
    ensures path != "" && path[|path| - 1] != '/' && !Printable(path) ==> MemberPath(base, path) == Err(ControlCharacter)
    ensures path != "" && path[|path| - 1] != '/' && Printable(path) && ".." in Split(path) ==>
      MemberPath(base, path) == Err(DotDot)
  {
    KeptMembers(Split(path), "..");
    assert base == Place(base, path) && !("/" <= path) ==> base[|base|..] == Parts(path);
  }

  /** No file's place is another's, or a directory on the way to it. */
  ghost predicate PlacesApart(base: Path, files: seq<Entry>) {
    forall i, j :: 0 <= i < |files| && 0 <= j < |files| && i != j ==>
      !(Place(base, files[i].name) <= Place(base, files[j].name))
  }

  lemma NamesKeepPlaces(base: Path, files: seq<Entry>, i: nat)
    requires i < |files| && MemberPath(base, files[i].name).Ok?
    ensures Place(base, files[i].name) == base + Split(Names(base, files)[i])
    ensures Split(Names(base, files)[i]) == MemberPath(base, files[i].name).value
  {
    MemberPathOk(base, files[i].name);
    MemberPathMeaning(base, files[i].name);
  }

  lemma NameablePlacesApart(base: Path, files: seq<Entry>)
    requires Nameable(base, files) && NoParents(Names(base, files))
    ensures PlacesApart(base, files)
  {
    var names := Names(base, files);
    forall i, j | 0 <= i < |files| && 0 <= j < |files| && i != j
      ensures !(Place(base, files[i].name) <= Place(base, files[j].name))
    {
      assert names[i] != names[j];
      NotUnderAnother(names, names[i], names[j]);
      NamesKeepPlaces(base, files, i);
      NamesKeepPlaces(base, files, j);
      PrefixUnder(base, Split(names[i]), Split(names[j]));
    }
  }

  lemma PlacesApartNameable(base: Path, files: seq<Entry>)
    requires AllDenote(base, files) && PlacesApart(base, files)
    ensures Nameable(base, files) && NoParents(Names(base, files))
  {
    var names := Names(base, files);
    forall i, j | 0 <= i < j < |files| ensures names[i] != names[j] {
      NamesKeepPlaces(base, files, i);
      NamesKeepPlaces(base, files, j);
    }
    forall j | 0 <= j < |files| ensures !UnderAnother(names, names[j]) {
      forall depth | 0 < depth < |Split(names[j])| ensures Join(Split(names[j])[..depth]) !in names {
        NoDirectory(base, files, j, depth);
      }
    }
  }

  lemma NoDirectory(base: Path, files: seq<Entry>, j: nat, depth: nat)
    requires AllDenote(base, files) && PlacesApart(base, files) && j < |files|
    requires 0 < depth < |Split(Names(base, files)[j])|
    ensures Join(Split(Names(base, files)[j])[..depth]) !in Names(base, files)
  {
    var names := Names(base, files);
    var parts := Split(names[j]);
    forall i | 0 <= i < |names| ensures names[i] != Join(parts[..depth]) {
      forall k | 0 <= k < depth ensures '/' !in parts[..depth][k] {
        SplitPieces(names[j], k);
      }
      SplitJoin(parts[..depth]);
      NamesKeepPlaces(base, files, i);
      NamesKeepPlaces(base, files, j);
      assert base + parts[..depth] <= base + parts;
      assert |base + parts[..depth]| < |base + parts|;
    }
  }

  /** Acceptance without any member name: limits, an absolute base, files below it,
      and places apart. */
  lemma {:induction false} AcceptanceRule(files: seq<Entry>, baseDir: string, mode: int)
    ensures Acceptable(files, baseDir, mode) <==>
      && "/" <= baseDir && (forall c :: c in baseDir ==> 0x20 <= c as int <= 0x7E || 0xA0 <= c as int)
      && ".." !in Split(baseDir)
      && 0 <= mode < 512 && |files| <= 10000 && Total(files) <= 256 * 1024 * 1024
      && (forall i :: 0 <= i < |files| ==> NamesFileBelow(Parts(baseDir), files[i].name))
      && PlacesApart(Parts(baseDir), files)
  {
    var base := Parts(baseDir);
    CleanMeaning(baseDir);
    forall i | 0 <= i < |files| ensures MemberPath(base, files[i].name).Ok? <==> NamesFileBelow(base, files[i].name) {
      MemberPathMeaning(base, files[i].name);
    }
    if Nameable(base, files) && NoParents(Names(base, files)) {
      NameablePlacesApart(base, files);
    }
    if AllDenote(base, files) && PlacesApart(base, files) {
      PlacesApartNameable(base, files);
    }
  }

  lemma WrittenInPlace(files: seq<Entry>, baseDir: string, mode: int, i: nat)
    requires Acceptable(files, baseDir, mode) && i < |files|
    ensures var base := Parts(baseDir);
      Write(Place(base, files[i].name), files[i].data) in Extraction(ArchiveOf(files, baseDir, mode), base)
  {
    var base, a := Parts(baseDir), ArchiveOf(files, baseDir, mode);
    AcceptedIsCanonical(files, baseDir, mode);
    NamesKeepPlaces(base, files, i);
    var e := Entry(MemberName(base, files[i].name), files[i].data);
    assert e in a.members;
    var k :| 0 <= k < |a.members| && a.members[k] == e;
    assert Extraction(a, base)[k] == Write(base + Split(e.name), e.data);
  }

  lemma WritesAreFiles(files: seq<Entry>, baseDir: string, mode: int, k: nat)
    requires Acceptable(files, baseDir, mode) && k < |ArchiveOf(files, baseDir, mode).members|
    ensures var base := Parts(baseDir);
      exists i :: 0 <= i < |files| && Extraction(ArchiveOf(files, baseDir, mode), base)[k].path == Place(base, files[i].name)
  {
    var base, a := Parts(baseDir), ArchiveOf(files, baseDir, mode);
    AcceptedIsCanonical(files, baseDir, mode);
    var e := a.members[k];
    assert e in a.members;
    var i :| 0 <= i < |files| && e == Entry(MemberName(base, files[i].name), files[i].data);
    NamesKeepPlaces(base, files, i);
  }

  /** An upload that succeeds leaves each of the caller's files, with its data, at the
      place that its own path names, and every other file as it was. */
  lemma {:induction false} UploadWritesEachFile(files: seq<Entry>, baseDir: string, mode: int, t: Tree)
    requires Acceptable(files, baseDir, mode)
    requires WriteAll(t, Extraction(ArchiveOf(files, baseDir, mode), Parts(baseDir))).Some?
    ensures var after := WriteAll(t, Extraction(ArchiveOf(files, baseDir, mode), Parts(baseDir))).value.files;
      var base := Parts(baseDir);
      && (forall i :: 0 <= i < |files| ==>
            && Place(base, files[i].name) in after
            && after[Place(base, files[i].name)] == files[i].data)
      && (forall p :: (forall i :: 0 <= i < |files| ==> p != Place(base, files[i].name)) ==>
            (p in after <==> p in t.files) && (p in after ==> after[p] == t.files[p]))
  {
    var base, a := Parts(baseDir), ArchiveOf(files, baseDir, mode);
    var writes := Extraction(a, base);
    ArchiveIsCanonical(files, baseDir, mode);
    ExtractionIsIndependent(a, base);
    WritesAddUp(t, writes);
    FilesAfterKeys(t, writes);
    forall i | 0 <= i < |files|
      ensures var p := Place(base, files[i].name); p in FilesAfter(t, writes) && FilesAfter(t, writes)[p] == files[i].data
    {
      WrittenInPlace(files, baseDir, mode, i);
      var k :| 0 <= k < |writes| && writes[k] == Write(Place(base, files[i].name), files[i].data);
      FilesAfterAt(t, writes, k);
    }
    forall p | forall i :: 0 <= i < |files| ==> p != Place(base, files[i].name)
      ensures (p in FilesAfter(t, writes) <==> p in t.files)
      ensures p in FilesAfter(t, writes) ==> FilesAfter(t, writes)[p] == t.files[p]
    {
      forall k | 0 <= k < |writes| ensures writes[k].path != p {
        WritesAreFiles(files, baseDir, mode, k);
      }
      if p in FilesAfter(t, writes) {
        FilesAfterElsewhere(t, writes, p);
      }
    }
  }
}
