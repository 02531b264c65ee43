/** The byte stream behind a build context's fingerprint, and a decoder for it
    (src/ucloud_sandboxes_sdk/integrations/inspect.py). A byte string is
    written as a string, one char a byte. */
module Fingerprint {
  import opened Prelude
  import opened SortedNames

  const NUL := '\0'
  const MISSING := "missing-context"

  // What `lstat` and the reads after it find under one name. `size` is the size
  // that lstat reported and `content` what reading the file gave.
  datatype Kind =
    | File(mode: nat, size: nat, content: string)
    | Symlink(target: string)
    | Special(mode: nat)
    | Unreadable(exception: string)
    | Directory

  datatype Entry = Entry(name: string, kind: Kind)

  // A context is absent, or a list of entries.
  datatype Context = Missing(path: string) | Present(entries: seq<Entry>)

  ghost predicate NulFree(s: string) { NUL !in s }

  // ----- numbers in text -----

  function Digit(d: nat): char
    requires d < 10
  {
    (d + '0' as int) as char
  }

  function Digits(n: nat, base: nat): string
    requires 2 <= base <= 10
    decreases n
  {
    if n < base then [Digit(n)] else Digits(n / base, base) + [Digit(n % base)]
  }

  function Oct(n: nat): string { "0o" + Digits(n, 8) }

  function Dec(n: nat): string { Digits(n, 10) }

  function DigitValue(c: char): nat { if '0' <= c <= '9' then c as int - '0' as int else 0 }

  function Value(s: string, base: nat): nat {
    if s == "" then 0 else Value(s[..|s| - 1], base) * base + DigitValue(s[|s| - 1])
  }

  predicate Numeral(s: string) { forall c :: c in s ==> '0' <= c <= '9' }

  lemma {:induction false} AppendDigit(high: string, d: nat, base: nat)
    requires d < 10 && Numeral(high)
    ensures Numeral(high + [Digit(d)]) && Value(high + [Digit(d)], base) == Value(high, base) * base + d
  {
    assert (high + [Digit(d)])[..|high|] == high;
  }

  lemma {:induction false} OctalRoundTrip(n: nat)
    ensures Numeral(Digits(n, 8)) && Value(Digits(n, 8), 8) == n
  {
    if n >= 8 {
      OctalRoundTrip(n / 8);
      AppendDigit(Digits(n / 8, 8), n % 8, 8);
    } else {
      AppendDigit("", n, 8);
      assert "" + [Digit(n)] == [Digit(n)];
    }
  }

  lemma {:induction false} DecimalRoundTrip(n: nat)
    ensures Numeral(Digits(n, 10)) && Value(Digits(n, 10), 10) == n
  {
    if n >= 10 {
      DecimalRoundTrip(n / 10);
      AppendDigit(Digits(n / 10, 10), n % 10, 10);
    } else {
      AppendDigit("", n, 10);
      assert "" + [Digit(n)] == [Digit(n)];
    }
  }

  // ----- the encoding -----

  function Field(s: string): string { s + [NUL] }

  function Tag(k: Kind): string {
    match k
    case File(_, _, _) => "file"
    case Symlink(_) => "symlink"
    case Special(_) => "special"
    case Unreadable(_) => "unreadable"
    case Directory => ""
  }

  function EncodeKind(k: Kind): string {
    match k
    case File(mode, size, content) => Field(Oct(mode)) + (Field(Dec(size)) + Field(content))
    case Symlink(target) => Field(target)
    case Special(mode) => Field(Oct(mode))
    case Unreadable(exception) => Field(exception)
    case Directory => ""
  }

  function EncodeEntry(e: Entry): string {
    if e.kind == Directory then "" else Field(Tag(e.kind)) + (Field(e.name) + EncodeKind(e.kind))
  }

  function EncodeEntries(entries: seq<Entry>): string {
    if entries == [] then "" else EncodeEntry(entries[0]) + EncodeEntries(entries[1..])
  }

  function EncodeContext(context: Context): string {
    match context
    case Missing(path) => Field(MISSING) + Field(path)
    case Present(entries) => EncodeEntries(entries)
  }

  function Encode(header: string, context: Context): string { Field(header) + EncodeContext(context) }

  // ----- the decoder -----

  datatype Read<T> = Read(value: T, rest: string)

  function ReadField(s: string): Option<Read<string>> {
    if s == "" then None
    else if s[0] == NUL then Some(Read("", s[1..]))
    else
      var more := ReadField(s[1..]);
      if more.None? then None else Some(Read([s[0]] + more.value.value, more.value.rest))
  }

  function ReadNumber(s: string, prefix: string, base: nat): Option<Read<nat>> {
    var field := ReadField(s);
    if field.None? || !(prefix <= field.value.value) || !Numeral(field.value.value[|prefix|..]) then None
    else Some(Read(Value(field.value.value[|prefix|..], base), field.value.rest))
  }

  function ReadKind(tag: string, s: string): Option<Read<Kind>> {
    if tag == "file" then
      var mode := ReadNumber(s, "0o", 8);
      if mode.None? then None else
      var size := ReadNumber(mode.value.rest, "", 10);
      if size.None? || |size.value.rest| <= size.value.value then None else
      var n, body := size.value.value, size.value.rest;
      Some(Read(File(mode.value.value, n, body[..n]), body[n + 1..]))
    else if tag == "special" then
      var mode := ReadNumber(s, "0o", 8);
      if mode.None? then None else Some(Read(Special(mode.value.value), mode.value.rest))
    else
      var text := ReadField(s);
      if text.None? then None
      else if tag == "symlink" then Some(Read(Symlink(text.value.value), text.value.rest))
      else if tag == "unreadable" then Some(Read(Unreadable(text.value.value), text.value.rest))
      else None
  }

  function ReadEntry(s: string): Option<Read<Entry>> {
    var tag := ReadField(s);
    if tag.None? then None else
    var name := ReadField(tag.value.rest);
    if name.None? then None else
    var kind := ReadKind(tag.value.value, name.value.rest);
    if kind.None? then None else Some(Read(Entry(name.value.value, kind.value.value), kind.value.rest))
  }

  function ReadEntries(s: string): Option<seq<Entry>>
    decreases |s|
  {
    if s == "" then Some([]) else
    var entry := ReadEntry(s);
    if entry.None? || |entry.value.rest| >= |s| then None else
    var more := ReadEntries(entry.value.rest);
    if more.None? then None else Some([entry.value.value] + more.value)
  }

  function Decode(s: string): Option<(string, Context)> {
    var header := ReadField(s);
    if header.None? then None else
    var tag := ReadField(header.value.rest);
    if tag.Some? && tag.value.value == MISSING then
      var path := ReadField(tag.value.rest);
      if path.None? then None else Some((header.value.value, Missing(path.value.value)))
    else
      var entries := ReadEntries(header.value.rest);
      if entries.None? then None else Some((header.value.value, Present(entries.value)))
  }

  // ----- the round trip -----

  /** A file's content has exactly the size that was written before it, every
      other text is free of NUL, and directories are not listed. */
  ghost predicate Faithful(e: Entry) {
    && NulFree(e.name)
    && match e.kind
       case File(_, size, content) => |content| == size
       case Symlink(target) => NulFree(target)
       case Special(_) => true
       case Unreadable(exception) => NulFree(exception)
       case Directory => false
  }

  ghost predicate FaithfulContext(c: Context) {
    match c
    case Missing(path) => NulFree(path)
    case Present(entries) => forall e :: e in entries ==> Faithful(e)
  }

  lemma {:induction false} FieldRoundTrip(field: string, rest: string)
    requires NulFree(field)
    ensures ReadField(Field(field) + rest) == Some(Read(field, rest))
  {
    var s := Field(field) + rest;
    if field == "" {
      assert s[1..] == rest;
    } else {
      FieldRoundTrip(field[1..], rest);
      assert s[1..] == Field(field[1..]) + rest && s[0] == field[0] && field[0] in field;
      assert field == [field[0]] + field[1..];
    }
  }

  lemma {:induction false} NumberRoundTrip(n: nat, prefix: string, base: nat, rest: string)
    requires (base == 8 || base == 10) && NulFree(prefix)
    ensures ReadNumber(Field(prefix + Digits(n, base)) + rest, prefix, base) == Some(Read(n, rest))
  {
    if base == 8 { OctalRoundTrip(n); } else { DecimalRoundTrip(n); }
    var field := prefix + Digits(n, base);
    assert NulFree(field);
    FieldRoundTrip(field, rest);
    assert field[|prefix|..] == Digits(n, base);
  }

  lemma KindRoundTrip(e: Entry, rest: string)
    requires Faithful(e)
    ensures ReadKind(Tag(e.kind), EncodeKind(e.kind) + rest) == Some(Read(e.kind, rest))
  {
    match e.kind
    case File(mode, size, content) =>
      var body := Field(content) + rest;
      var tail := Field(Dec(size)) + body;
      assert EncodeKind(e.kind) + rest == Field(Oct(mode)) + tail;
      NumberRoundTrip(mode, "0o", 8, tail);
      NumberRoundTrip(size, "", 10, body);
      assert "" + Dec(size) == Dec(size);
      assert body[..size] == content && body[size + 1..] == rest;
    case Special(mode) => NumberRoundTrip(mode, "0o", 8, rest);
    case Symlink(target) => FieldRoundTrip(target, rest);
    case Unreadable(exception) => FieldRoundTrip(exception, rest);
  }

  lemma EntryShape(e: Entry, rest: string)
    requires e.kind != Directory
    ensures EncodeEntry(e) + rest == Field(Tag(e.kind)) + (Field(e.name) + (EncodeKind(e.kind) + rest))
  {
    Associative(Field(Tag(e.kind)), Field(e.name) + EncodeKind(e.kind), rest);
    Associative(Field(e.name), EncodeKind(e.kind), rest);
  }

  lemma EntryRoundTrip(e: Entry, rest: string)
    requires Faithful(e)
    ensures ReadEntry(EncodeEntry(e) + rest) == Some(Read(e, rest))
    ensures |EncodeEntry(e)| > 0
  {
    var tail := EncodeKind(e.kind) + rest;
    EntryShape(e, rest);
    FieldRoundTrip(Tag(e.kind), Field(e.name) + tail);
    FieldRoundTrip(e.name, tail);
    KindRoundTrip(e, rest);
  }

  lemma {:induction false} EntriesRoundTrip(entries: seq<Entry>)
    requires forall e :: e in entries ==> Faithful(e)
    ensures ReadEntries(EncodeEntries(entries)) == Some(entries)
  {
    if entries != [] {
      EntryRoundTrip(entries[0], EncodeEntries(entries[1..]));
      EntriesRoundTrip(entries[1..]);
      assert entries == [entries[0]] + entries[1..];
    }
  }

  /** A list of entries never begins like an absent context. */
  lemma {:induction false} FirstTag(entries: seq<Entry>)
    requires forall e :: e in entries ==> Faithful(e)
    ensures var tag := ReadField(EncodeEntries(entries)); tag.Some? ==> |tag.value.value| < |MISSING|
  {
    if entries != [] {
      var e := entries[0];
      assert Faithful(e);
      var tail := EncodeKind(e.kind) + EncodeEntries(entries[1..]);
      EntryShape(e, EncodeEntries(entries[1..]));
      FieldRoundTrip(Tag(e.kind), Field(e.name) + tail);
    }
  }

  lemma MissingRoundTrip(header: string, path: string)
    requires NulFree(header) && NulFree(path)
    ensures Decode(Encode(header, Missing(path))) == Some((header, Missing(path)))
  {
    FieldRoundTrip(header, Field(MISSING) + Field(path));
    FieldRoundTrip(MISSING, Field(path));
    FieldRoundTrip(path, "");
    assert Field(path) + "" == Field(path);
  }

  lemma PresentRoundTrip(header: string, entries: seq<Entry>)
    requires NulFree(header) && forall e :: e in entries ==> Faithful(e)
    ensures Decode(Encode(header, Present(entries))) == Some((header, Present(entries)))
  {
    FieldRoundTrip(header, EncodeEntries(entries));
    EntriesRoundTrip(entries);
    FirstTag(entries);
  }

  lemma {:induction false} FieldsAreNulFree(s: string)
    ensures ReadField(s).Some? ==> NulFree(ReadField(s).value.value)
  {
    if s != "" && s[0] != NUL {
      FieldsAreNulFree(s[1..]);
    }
  }

  lemma EntriesReadAreFaithful(s: string)
    ensures ReadEntry(s).Some? ==> Faithful(ReadEntry(s).value.value)
  {
    var tag := ReadField(s);
    if tag.Some? {
      var name := ReadField(tag.value.rest);
      FieldsAreNulFree(tag.value.rest);
      if name.Some? {
        FieldsAreNulFree(name.value.rest);
      }
    }
  }

  lemma {:induction false} ListsReadAreFaithful(s: string)
    ensures ReadEntries(s).Some? ==> forall e :: e in ReadEntries(s).value ==> Faithful(e)
    decreases |s|
  {
    if s != "" && ReadEntry(s).Some? && |ReadEntry(s).value.rest| < |s| {
      EntriesReadAreFaithful(s);
      ListsReadAreFaithful(ReadEntry(s).value.rest);
    }
  }

  lemma ContextsReadAreFaithful(s: string)
    ensures Decode(s).Some? ==> NulFree(Decode(s).value.0) && FaithfulContext(Decode(s).value.1)
  {
    FieldsAreNulFree(s);
    var header := ReadField(s);
    if header.Some? {
      ListsReadAreFaithful(header.value.rest);
      var tag := ReadField(header.value.rest);
      if tag.Some? {
        FieldsAreNulFree(tag.value.rest);
      }
    }
  }

  /** The stream is uniquely decodable, exactly for what reads like its own stat. */
  lemma StreamRoundTrip(header: string, context: Context)
    ensures Decode(Encode(header, context)) == Some((header, context)) <==> NulFree(header) && FaithfulContext(context)
  {
    ContextsReadAreFaithful(Encode(header, context));
    if NulFree(header) && FaithfulContext(context) {
      match context
      case Missing(path) => MissingRoundTrip(header, path);
      case Present(entries) => PresentRoundTrip(header, entries);
    }
  }

  /** Different headers or contexts give different streams. */
  lemma StreamIsInjective(h1: string, c1: Context, h2: string, c2: Context)
    requires NulFree(h1) && FaithfulContext(c1) && NulFree(h2) && FaithfulContext(c2)
    requires Encode(h1, c1) == Encode(h2, c2)
    ensures h1 == h2 && c1 == c2
  {
    StreamRoundTrip(h1, c1);
    StreamRoundTrip(h2, c2);
  }

  lemma EndsWithNul(e: Entry)
    requires e.kind != Directory
    ensures EncodeEntry(e) != "" && Field(EncodeEntry(e)[..|EncodeEntry(e)| - 1]) == EncodeEntry(e)
  {
    var kind := EncodeKind(e.kind);
    assert kind[|kind| - 1] == NUL;
    assert EncodeEntry(e)[|EncodeEntry(e)| - 1] == NUL;
  }

  /** Content that was not there at lstat, after the size that said it was empty. */
  lemma GrownKind(mode: nat, bytes: string)
    ensures EncodeKind(File(mode, 0, [NUL] + bytes)) == EncodeKind(File(mode, 0, "")) + Field(bytes)
  {
    Associative([NUL], bytes, [NUL]);
    Associative(Field(Oct(mode)), Field(Dec(0)) + Field(""), Field(bytes));
    Associative(Field(Dec(0)), Field(""), Field(bytes));
  }

  /** The sizes matter: a file that grew after lstat can imitate two entries,
      whatever the second one is. */
  lemma GrownFileIsAmbiguous(name: string, mode: nat, hidden: Entry)
    requires hidden.kind != Directory
    ensures var bytes := EncodeEntry(hidden);
      var grown := Entry(name, File(mode, 0, [NUL] + bytes[..|bytes| - 1]));
      EncodeEntries([grown]) == EncodeEntries([Entry(name, File(mode, 0, "")), hidden])
  {
    var bytes := EncodeEntry(hidden);
    EndsWithNul(hidden);
    var short := Entry(name, File(mode, 0, ""));
    GrownKind(mode, bytes[..|bytes| - 1]);
    EntryShape(short, bytes);
    EncodeOne(hidden);
    EncodeOne(Entry(name, File(mode, 0, [NUL] + bytes[..|bytes| - 1])));
    assert [short, hidden][1..] == [hidden];
  }

  lemma EncodeOne(e: Entry)
    ensures EncodeEntries([e]) == EncodeEntry(e)
  {
    assert [e][1..] == [];
  }

  // ----- feeding the digest -----

  const CHUNK: nat := 1024 * 1024

  /** A digest, of which only the bytes fed to it matter. */
  class Digest {
    var fed: string

    constructor ()
      ensures fed == ""
    {
      fed := "";
    }

    method Update(chunk: string)
      modifies this
      ensures fed == old(fed) + chunk
    {
      fed := fed + chunk;
    }

    method HashJson(text: string)
      modifies this
      ensures fed == old(fed) + Field(text)
    {
      Update(text);
      Update([NUL]);
    }

    method HashText(parts: seq<string>)
      modifies this
      ensures fed == old(fed) + Fields(parts)
    {
      var i := 0;
      while i < |parts|
        invariant 0 <= i <= |parts| && fed + Fields(parts[i..]) == old(fed) + Fields(parts)
      {
        ghost var before := fed;
        assert parts[i..][0] == parts[i] && parts[i..][1..] == parts[i + 1..];
        Update(parts[i]);
        Update([NUL]);
        assert before + (Field(parts[i]) + Fields(parts[i + 1..])) == fed + Fields(parts[i + 1..]);
        i := i + 1;
      }
      assert fed + "" == fed;
    }

    /** Reads the file chunk by chunk until an empty one comes. */
    method FeedFile(content: string)
      modifies this
      ensures fed == old(fed) + Field(content)
    {
      var at := 0;
      while true
        invariant 0 <= at <= |content| && fed == old(fed) + content[..at]
        decreases |content| - at
      {
        var end := if at + CHUNK <= |content| then at + CHUNK else |content|;
        var chunk := content[at..end];
        if chunk == "" {
          break;
        }
        Update(chunk);
        assert content[..at] + chunk == content[..end];
        at := end;
      }
      Update([NUL]);
    }

    method HashEntry(e: Entry)
      modifies this
      ensures fed == old(fed) + EncodeEntry(e)
    {
      match e.kind
      case File(mode, size, content) =>
        HashText(["file", e.name, Oct(mode), Dec(size)]);
        FileFields(e);
        Associative(old(fed), Fields(["file", e.name, Oct(mode), Dec(size)]), Field(content));
        FeedFile(content);
      case Symlink(target) =>
        HashText(["symlink", e.name, target]);
        FieldsOfThree("symlink", e.name, target);
      case Special(mode) =>
        HashText(["special", e.name, Oct(mode)]);
        FieldsOfThree("special", e.name, Oct(mode));
      case Unreadable(exception) =>
        HashText(["unreadable", e.name, exception]);
        FieldsOfThree("unreadable", e.name, exception);
      case Directory =>
        assert fed + "" == fed;
    }
  }

  function Fields(parts: seq<string>): string {
    if parts == [] then "" else Field(parts[0]) + Fields(parts[1..])
  }

  lemma FieldsOfPair(a: string, b: string)
    ensures Fields([a, b]) == Field(a) + Field(b)
  {
    assert [a, b][1..] == [b] && [b][1..] == [];
    assert Fields([b]) == Field(b) + "" == Field(b);
  }

  lemma FieldsOfThree(a: string, b: string, c: string)
    ensures Fields([a, b, c]) == Field(a) + (Field(b) + Field(c))
  {
    assert [a, b, c][1..] == [b, c];
    FieldsOfPair(b, c);
  }

  lemma FileFields(e: Entry)
    requires e.kind.File?
    ensures Fields(["file", e.name, Oct(e.kind.mode), Dec(e.kind.size)]) + Field(e.kind.content) == EncodeEntry(e)
  {
    var tag, name, mode, size, content := "file", e.name, Oct(e.kind.mode), Dec(e.kind.size), Field(e.kind.content);
    assert [tag, name, mode, size][1..] == [name, mode, size];
    FieldsOfThree(name, mode, size);
    Associative(Field(tag), Field(name) + (Field(mode) + Field(size)), content);
    Associative(Field(name), Field(mode) + Field(size), content);
    Associative(Field(mode), Field(size), content);
  }

  /** The entries of the listed names, directories left out. */
  function EntriesOf(names: seq<string>, kindOf: string -> Kind): seq<Entry> {
    if names == [] then []
    else
      var last := names[|names| - 1];
      EntriesOf(names[..|names| - 1], kindOf)
      + (if kindOf(last) == Directory then [] else [Entry(last, kindOf(last))])
  }

  function ContextOf(isDir: bool, path: string, listing: seq<string>, kindOf: string -> Kind): Context {
    if isDir then Present(EntriesOf(Sort(listing), kindOf)) else Missing(path)
  }

  /** `_build_context_fingerprint`: feeds the digest the encoding of the context,
      whose names the file system lists in any order. */
  method BuildContextFingerprint(header: string, isDir: bool, path: string, listing: seq<string>, kindOf: string -> Kind)
      returns (digest: Digest)
    ensures digest.fed == Encode(header, ContextOf(isDir, path, listing, kindOf))
  {
    digest := new Digest();
    digest.HashJson(header);
    assert "" + Field(header) == Field(header);
    if !isDir {
      FeedMissing(digest, path);
      return;
    }
    FeedEntries(digest, Sort(listing), kindOf);
  }

  method FeedMissing(digest: Digest, path: string)
    modifies digest
    ensures digest.fed == old(digest.fed) + EncodeContext(Missing(path))
  {
    digest.HashText([MISSING, path]);
    FieldsOfPair(MISSING, path);
  }

  method FeedEntries(digest: Digest, names: seq<string>, kindOf: string -> Kind)
    modifies digest
    ensures digest.fed == old(digest.fed) + EncodeEntries(EntriesOf(names, kindOf))
  {
    ghost var start, done := digest.fed, "";
    for k := 0 to |names|
      invariant digest.fed == start + done && done == EncodeEntries(EntriesOf(names[..k], kindOf))
    {
      var e := Entry(names[k], kindOf(names[k]));
      digest.HashEntry(e);
      EncodeNext(names, kindOf, k);
      Associative(start, done, EncodeEntry(e));
      done := done + EncodeEntry(e);
    }
    assert names[..|names|] == names;
  }

  lemma EncodeNext(names: seq<string>, kindOf: string -> Kind, k: nat)
    requires k < |names|
    ensures EncodeEntries(EntriesOf(names[..k + 1], kindOf))
         == EncodeEntries(EntriesOf(names[..k], kindOf)) + EncodeEntry(Entry(names[k], kindOf(names[k])))
  {
    assert names[..k + 1][..k] == names[..k] && names[..k + 1][k] == names[k];
    var before, e := EntriesOf(names[..k], kindOf), Entry(names[k], kindOf(names[k]));
    if e.kind == Directory {
      assert before + [] == before && EncodeEntries(before) + "" == EncodeEntries(before);
    } else {
      EncodeAppend(before, e);
    }
  }

  lemma {:induction false} EncodeAppend(entries: seq<Entry>, e: Entry)
    ensures EncodeEntries(entries + [e]) == EncodeEntries(entries) + EncodeEntry(e)
  {
    if entries == [] {
      assert [] + [e] == [e] && [e][1..] == [];
    } else {
      EncodeAppend(entries[1..], e);
      TailOfConcat(entries, [e]);
      Associative(EncodeEntry(entries[0]), EncodeEntries(entries[1..]), EncodeEntry(e));
    }
  }

  // ----- what the stream determines -----

  /** `e` is one of the entries a listing stands for. */
  ghost predicate Lists(listing: seq<string>, kindOf: string -> Kind, e: Entry) {
    e.name in listing && e.kind == kindOf(e.name) && e.kind != Directory
  }

  lemma {:induction false} EntriesOfSorted(names: seq<string>, kindOf: string -> Kind)
    requires StrictlySorted(names)
    ensures forall e :: e in EntriesOf(names, kindOf) <==> Lists(names, kindOf, e)
    ensures StrictlySorted(EntryNames(EntriesOf(names, kindOf)))
    decreases |names|
  {
    if names != [] {
      var n := |names| - 1;
      var before := EntriesOf(names[..n], kindOf);
      EntriesOfSorted(names[..n], kindOf);
      forall i | 0 <= i < |before| ensures Less(before[i].name, names[n]) {
        assert before[i] in before;
        var k :| 0 <= k < n && names[k] == before[i].name;
      }
      var all := EntryNames(EntriesOf(names, kindOf));
      assert forall i :: 0 <= i < |before| ==> all[i] == EntryNames(before)[i];
      assert |all| > |before| ==> all[|before|] == names[n];
    }
  }

  ghost function EntryNames(entries: seq<Entry>): seq<string> {
    seq(|entries|, i requires 0 <= i < |entries| => entries[i].name)
  }

  /** Two sorted lists of entries with the same members are the same list. */
  lemma SortedEntriesUnique(a: seq<Entry>, b: seq<Entry>)
    requires StrictlySorted(EntryNames(a)) && StrictlySorted(EntryNames(b))
    requires forall e :: e in a <==> e in b
    ensures a == b
  {
    forall n ensures n in EntryNames(a) <==> n in EntryNames(b) {
      SameNames(a, b, n);
      SameNames(b, a, n);
    }
    SortedIsUnique(EntryNames(a), EntryNames(b));
    assert |a| == |EntryNames(a)| && |b| == |EntryNames(b)|;
    forall i | 0 <= i < |a| ensures a[i] == b[i] {
      assert EntryNames(a)[i] == EntryNames(b)[i];
      assert a[i] in b;
      var j :| 0 <= j < |b| && b[j] == a[i];
      LessTotal(EntryNames(b)[i], EntryNames(b)[j]);
      assert EntryNames(b)[j] == EntryNames(a)[i];
    }
  }

  lemma SameNames(a: seq<Entry>, b: seq<Entry>, n: string)
    requires forall e :: e in a ==> e in b
    ensures n in EntryNames(a) ==> n in EntryNames(b)
  {
    if n in EntryNames(a) {
      var i :| 0 <= i < |a| && EntryNames(a)[i] == n;
      assert a[i] in b;
      var j :| 0 <= j < |b| && b[j] == a[i];
      assert EntryNames(b)[j] == n;
    }
  }

  /** Two contexts feed the digest the same bytes exactly when their headers and
      their files, links and other entries agree, in whatever order the file
      systems list them. */
  lemma StreamDeterminesContext(h1: string, names1: seq<string>, kind1: string -> Kind,
                                h2: string, names2: seq<string>, kind2: string -> Kind)
    requires Distinct(names1) && Distinct(names2) && NulFree(h1) && NulFree(h2)
    requires forall e :: Lists(names1, kind1, e) ==> Faithful(e)
    requires forall e :: Lists(names2, kind2, e) ==> Faithful(e)
    ensures Encode(h1, ContextOf(true, "", names1, kind1)) == Encode(h2, ContextOf(true, "", names2, kind2))
      <==> h1 == h2 && forall e :: Lists(names1, kind1, e) <==> Lists(names2, kind2, e)
  {
    var a, b := EntriesOf(Sort(names1), kind1), EntriesOf(Sort(names2), kind2);
    SortedListing(names1, kind1);
    SortedListing(names2, kind2);
    if Encode(h1, Present(a)) == Encode(h2, Present(b)) {
      StreamIsInjective(h1, Present(a), h2, Present(b));
    }
    if forall e :: Lists(names1, kind1, e) <==> Lists(names2, kind2, e) {
      forall e ensures e in a <==> e in b {
        assert e in a <==> Lists(names1, kind1, e);
      }
      SortedEntriesUnique(a, b);
    }
  }

  lemma {:induction false} SortedListing(names: seq<string>, kindOf: string -> Kind)
    requires Distinct(names)
    ensures var entries := EntriesOf(Sort(names), kindOf);
      && StrictlySorted(EntryNames(entries))
      && forall e :: e in entries <==> Lists(names, kindOf, e)
  {
    SortSorts(names);
    EntriesOfSorted(Sort(names), kindOf);
    forall n ensures n in Sort(names) <==> n in names {
      assert n in Sort(names) <==> n in multiset(Sort(names));
      assert n in names <==> n in multiset(names);
    }
  }
}
