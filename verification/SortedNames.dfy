/** Python's order on strings, and what `sorted` returns for distinct names. */
module SortedNames {
  predicate Less(a: string, b: string) {
    b != "" && (a == "" || a[0] < b[0] || (a[0] == b[0] && Less(a[1..], b[1..])))
  }

  /** The first k characters agree, and the next one is smaller. */
  ghost predicate SmallerAt(a: string, b: string, k: nat) {
    k < |a| && k < |b| && a[..k] == b[..k] && a[k] < b[k]
  }

  lemma AgreeAtFirst(a: string, b: string, k: nat)
    requires 0 < k <= |a| && k <= |b| && a[..k] == b[..k]
    ensures a[0] == b[0]
  {
    assert a[0] == a[..k][0] && b[0] == b[..k][0];
  }

  /** A proper prefix comes first; otherwise the first difference decides. */
  lemma {:induction false} LessMeaning(a: string, b: string)
    ensures Less(a, b) <==> a < b || exists k :: SmallerAt(a, b, k)
  {
    if a != "" && b != "" && a[0] == b[0] {
      LessMeaning(a[1..], b[1..]);
      assert a == [a[0]] + a[1..] && b == [b[0]] + b[1..];
      forall k: nat | SmallerAt(a[1..], b[1..], k) ensures SmallerAt(a, b, k + 1) {
        assert a[..k + 1] == [a[0]] + a[1..][..k] && b[..k + 1] == [b[0]] + b[1..][..k];
      }
      forall k: nat | SmallerAt(a, b, k) ensures k > 0 && SmallerAt(a[1..], b[1..], k - 1) {
        assert k > 0;
        assert a[1..][..k - 1] == a[..k][1..] && b[1..][..k - 1] == b[..k][1..];
      }
    } else if a != "" && b != "" {
      forall k: nat | SmallerAt(a, b, k) ensures k == 0 {
        if k > 0 { AgreeAtFirst(a, b, k); }
      }
      assert a[0] < b[0] ==> SmallerAt(a, b, 0);
    }
  }

  lemma {:induction false} LessTotal(a: string, b: string)
    ensures a == b || Less(a, b) || Less(b, a)
    ensures !(Less(a, b) && Less(b, a)) && (a == b ==> !Less(a, b))
  {
    if a != "" && b != "" {
      LessTotal(a[1..], b[1..]);
      assert a == [a[0]] + a[1..] && b == [b[0]] + b[1..];
    }
  }

  lemma {:induction false} LessTransitive(a: string, b: string, c: string)
    requires Less(a, b) && Less(b, c)
    ensures Less(a, c)
  {
    if a != "" && a[0] == b[0] && b[0] == c[0] {
      LessTransitive(a[1..], b[1..], c[1..]);
    }
  }

  ghost predicate StrictlySorted(names: seq<string>) {
    forall i, j :: 0 <= i < j < |names| ==> Less(names[i], names[j])
  }

  ghost predicate Distinct<T>(s: seq<T>) {
    forall i, j :: 0 <= i < j < |s| ==> s[i] != s[j]
  }

  function Insert(name: string, names: seq<string>): seq<string> {
    if names == [] || Less(name, names[0]) then [name] + names
    else [names[0]] + Insert(name, names[1..])
  }

  function Sort(names: seq<string>): seq<string> {
    if names == [] then [] else Insert(names[0], Sort(names[1..]))
  }

  lemma {:induction false} InsertKeeps(name: string, names: seq<string>)
    ensures multiset(Insert(name, names)) == multiset{name} + multiset(names)
  {
    if names != [] && !Less(name, names[0]) {
      InsertKeeps(name, names[1..]);
      assert names == [names[0]] + names[1..];
    }
  }

  lemma {:induction false} SortedFrom(first: string, rest: seq<string>)
    requires StrictlySorted(rest) && forall k :: 0 <= k < |rest| ==> Less(first, rest[k])
    ensures StrictlySorted([first] + rest)
  {
  }

  lemma {:induction false} InsertSorts(name: string, names: seq<string>)
    requires StrictlySorted(names) && name !in names
    ensures StrictlySorted(Insert(name, names))
  {
    if names != [] {
      LessTotal(name, names[0]);
      if Less(name, names[0]) {
        forall j | 0 < j < |names| ensures Less(name, names[j]) {
          LessTransitive(name, names[0], names[j]);
        }
      } else {
        InsertSorts(name, names[1..]);
        InsertKeeps(name, names[1..]);
        var rest := Insert(name, names[1..]);
        forall k | 0 <= k < |rest| ensures Less(names[0], rest[k]) {
          assert rest[k] in multiset(rest);
        }
        SortedFrom(names[0], rest);
      }
    }
  }

  lemma {:induction false} SortSorts(names: seq<string>)
    requires Distinct(names)
    ensures StrictlySorted(Sort(names)) && multiset(Sort(names)) == multiset(names)
  {
    if names != [] {
      SortSorts(names[1..]);
      assert names == [names[0]] + names[1..];
      assert names[0] !in names[1..];
      assert names[0] in Sort(names[1..]) <==> names[0] in multiset(Sort(names[1..]));
      InsertSorts(names[0], Sort(names[1..]));
      InsertKeeps(names[0], Sort(names[1..]));
    }
  }

  lemma SameMembersNotEmpty(a: seq<string>, b: seq<string>)
    requires a != [] && forall n :: n in a <==> n in b
    ensures b != []
  {
    assert a[0] in b;
  }

  /** A set of names has one sorted listing. */
  lemma {:induction false} SortedIsUnique(a: seq<string>, b: seq<string>)
    requires StrictlySorted(a) && StrictlySorted(b)
    requires forall n :: n in a <==> n in b
    ensures a == b
  {
    if a == [] {
      if b != [] { SameMembersNotEmpty(b, a); }
    } else {
      SameMembersNotEmpty(a, b);
      assert a[0] in b;
      assert b[0] in a;
      assert a[0] == b[0] by {
        LessTotal(a[0], b[0]);
      }
      assert a == [a[0]] + a[1..] && b == [b[0]] + b[1..];
      forall n ensures n in a[1..] <==> n in b[1..] {
        LessTotal(a[0], a[0]);
        assert n in a <==> n in b;
      }
      SortedIsUnique(a[1..], b[1..]);
    }
  }

  /** Sorting does not depend on the order the names come in. */
  lemma {:induction false} SortIgnoresOrder(a: seq<string>, b: seq<string>)
    requires Distinct(a) && Distinct(b) && multiset(a) == multiset(b)
    ensures Sort(a) == Sort(b)
  {
    SortSorts(a);
    SortSorts(b);
    forall n ensures n in Sort(a) <==> n in Sort(b) {
      assert n in Sort(a) <==> n in multiset(Sort(a));
      assert n in Sort(b) <==> n in multiset(Sort(b));
    }
    SortedIsUnique(Sort(a), Sort(b));
  }
}
