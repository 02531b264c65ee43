/** Container paths: splitting, joining and cleaning them
    (src/ucloud_sandboxes_sdk/client.py). */
module ContainerPaths {
  import opened Prelude

  // The components of a path.
  type Path = seq<string>

  /** `s.split("/")` */
  function Split(s: string): (parts: seq<string>)
    ensures parts != []
  {
    if s == "" then [""]
    else if s[0] == '/' then [""] + Split(s[1..])
    else var rest := Split(s[1..]); [[s[0]] + rest[0]] + rest[1..]
  }

  /** `"/".join(parts)` */
  function Join(parts: seq<string>): string {
    if parts == [] then ""
    else if |parts| == 1 then parts[0]
    else parts[0] + "/" + Join(parts[1..])
  }

  function Keep(parts: seq<string>): Path {
    if parts == [] then []
    else (if parts[0] == "" || parts[0] == "." then [] else [parts[0]]) + Keep(parts[1..])
  }

  function Parts(path: string): Path { Keep(Split(path)) }

  /** Unicode category Cc. */
  predicate Control(c: char) { c as int < 0x20 || 0x7F <= c as int < 0xA0 }

  predicate Printable(s: string) { forall c :: c in s ==> !Control(c) }

  /** `_container_path_parts` accepts the path. */
  predicate Clean(path: string) { Printable(path) && ".." !in Parts(path) }

  /** A component that names exactly one directory entry. */
  predicate Component(part: string) {
    part != "" && part != "." && part != ".." && '/' !in part && Printable(part)
  }

  predicate AllComponents(path: Path) { forall k :: 0 <= k < |path| ==> Component(path[k]) }

  lemma {:induction false} JoinFirst(c: char, parts: seq<string>)
    requires parts != []
    ensures Join([[c] + parts[0]] + parts[1..]) == [c] + Join(parts)
  {
    if |parts| > 1 {
      assert ([[c] + parts[0]] + parts[1..])[1..] == parts[1..];
      Associative([c], parts[0], "/");
      Associative([c], parts[0] + "/", Join(parts[1..]));
    }
  }

  lemma {:induction false} JoinSplit(s: string)
    ensures Join(Split(s)) == s
  {
    if s != "" {
      JoinSplit(s[1..]);
      var rest := Split(s[1..]);
      assert s == [s[0]] + s[1..];
      if s[0] == '/' {
        assert ([""] + rest)[1..] == rest && "" + "/" == "/";
      } else {
        JoinFirst(s[0], rest);
      }
    }
  }

  lemma {:induction false} SplitSlash(s: string)
    ensures Split("/" + s) == [""] + Split(s)
  {
    assert ("/" + s)[1..] == s;
  }

  lemma RootHasNoParts()
    ensures Split("/") == ["", ""] && Parts("/") == []
  {
    assert "/"[1..] == "";
    assert [""] + [""] == ["", ""] && ["", ""][1..] == [""] && [""][1..] == [];
  }

  lemma {:induction false} SplitConcat(a: string, b: string)
    ensures Split(a + ("/" + b)) == Split(a) + Split(b)
  {
    var rest := "/" + b;
    if a == "" {
      assert a + rest == rest && rest[1..] == b;
    } else {
      SplitConcat(a[1..], b);
      TailOfConcat(a, rest);
      var head, tail := Split(a[1..]), Split(b);
      if a[0] == '/' {
        Associative([""], head, tail);
      } else {
        TailOfConcat(head, tail);
        Associative([[a[0]] + head[0]], head[1..], tail);
      }
    }
  }

  lemma {:induction false} SplitPlain(s: string)
    requires '/' !in s
    ensures Split(s) == [s]
  {
    if s != "" {
      SplitPlain(s[1..]);
      assert s == [s[0]] + s[1..];
    }
  }

  lemma {:induction false} SplitJoin(parts: seq<string>)
    requires parts != [] && forall k :: 0 <= k < |parts| ==> '/' !in parts[k]
    ensures Split(Join(parts)) == parts
  {
    SplitPlain(parts[0]);
    if |parts| > 1 {
      SplitJoin(parts[1..]);
      SplitConcat(parts[0], Join(parts[1..]));
      Associative(parts[0], "/", Join(parts[1..]));
      assert parts == [parts[0]] + parts[1..];
    }
  }

  lemma {:induction false} SplitPieces(s: string, k: nat)
    requires k < |Split(s)|
    ensures '/' !in Split(s)[k] && forall c :: c in Split(s)[k] ==> c in s
  {
    if s != "" {
      var rest := Split(s[1..]);
      if s[0] == '/' {
        if k > 0 { SplitPieces(s[1..], k - 1); }
      } else if k == 0 {
        SplitPieces(s[1..], 0);
      } else {
        SplitPieces(s[1..], k);
        assert Split(s)[k] == rest[k];
      }
    }
  }

  lemma {:induction false} KeepConcat(a: seq<string>, b: seq<string>)
    ensures Keep(a + b) == Keep(a) + Keep(b)
  {
    if a == [] {
      assert a + b == b;
    } else {
      KeepConcat(a[1..], b);
      TailOfConcat(a, b);
      Associative(if a[0] == "" || a[0] == "." then [] else [a[0]], Keep(a[1..]), Keep(b));
    }
  }

  lemma {:induction false} KeepAll(parts: seq<string>)
    requires AllComponents(parts)
    ensures Keep(parts) == parts
  {
    if parts != [] {
      KeepAll(parts[1..]);
    }
  }

  lemma {:induction false} Kept(parts: seq<string>, k: nat)
    requires k < |Keep(parts)|
    ensures Keep(parts)[k] in parts && Keep(parts)[k] != "" && Keep(parts)[k] != "."
    decreases |parts|
  {
    if parts[0] == "" || parts[0] == "." {
      Kept(parts[1..], k);
    } else if k > 0 {
      Kept(parts[1..], k - 1);
    }
  }

  /** Whatever spelling is accepted, its parts are components. */
  lemma CleanParts(path: string)
    requires Clean(path)
    ensures AllComponents(Parts(path))
  {
    forall k | 0 <= k < |Parts(path)| ensures Component(Parts(path)[k]) {
      Kept(Split(path), k);
      var part := Parts(path)[k];
      var j :| 0 <= j < |Split(path)| && Split(path)[j] == part;
      SplitPieces(path, j);
    }
  }

  /** A joined list of components is a clean path with exactly those parts. */
  lemma {:induction false} ComponentsRoundTrip(path: Path)
    requires AllComponents(path)
    ensures Parts(Join(path)) == path && Clean(Join(path))
    ensures path != [] ==> Split(Join(path)) == path
  {
    JoinPrintable(path);
    if path != [] {
      SplitJoin(path);
      KeepAll(path);
    }
    forall k | 0 <= k < |path| ensures path[k] != ".." {
      assert Component(path[k]);
    }
  }

  lemma {:induction false} JoinPrintable(path: Path)
    requires AllComponents(path)
    ensures Printable(Join(path))
  {
    if |path| == 1 {
      assert Component(path[0]);
    } else if |path| > 1 {
      JoinPrintable(path[1..]);
      assert Component(path[0]);
    }
  }

  /** Putting one path under another appends its parts. */
  lemma PartsUnder(base: string, name: string)
    ensures Parts(base + "/" + name) == Parts(base) + Parts(name)
  {
    SplitConcat(base, name);
    Associative(base, "/", name);
    KeepConcat(Split(base), Split(name));
  }

  /** One component is a part unless it is empty or a single dot. */
  lemma {:induction false} PartsOfOne(part: string)
    requires '/' !in part
    ensures Parts(part) == if part in {"", "."} then [] else [part]
  {
    SplitPlain(part);
    assert Split(part) == [part] && [part][1..] == [];
    assert Keep([part]) == (if part == "" || part == "." then [] else [part]) + Keep([]);
  }

  lemma {:induction false} KeptMembers(parts: seq<string>, part: string)
    ensures part in Keep(parts) <==> part in parts && part != "" && part != "."
  {
    if parts != [] {
      KeptMembers(parts[1..], part);
      assert parts == [parts[0]] + parts[1..];
    }
  }

  /** A path is clean when it has neither control codes nor a ".." between its slashes. */
  lemma {:induction false} CleanMeaning(path: string)
    ensures Clean(path) <==>
      (forall c :: c in path ==> 0x20 <= c as int <= 0x7E || 0xA0 <= c as int) && ".." !in Split(path)
  {
    KeptMembers(Split(path), "..");
  }
}
