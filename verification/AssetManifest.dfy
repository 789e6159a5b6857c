/** The tree manifest of scripts/security/fr06b_asset_copy_manifest.py: which trees it accepts, and
    that two of them have the same entries only when they are the same tree. */
module AssetManifest {
  import opened Prelude

  /** Permission bits and owner. */
  datatype Meta = Meta(bits: nat, uid: int, gid: int)

  /** What a scan finds: a directory with its entries in name order, a regular file with its link
      count, size and the digest of its bytes, or something else. `steady` says that nothing
      about it changed between the two looks the scan takes. */
  datatype Node =
    | Dir(meta: Meta, entries: seq<Entry>, steady: bool)
    | File(meta: Meta, links: nat, size: nat, digest: string, steady: bool)
    | SymbolicLink
    | Special

  datatype Entry = Entry(name: string, node: Node)

  datatype Record =
    | DirectoryRecord(path: string, mode: string, uid: int, gid: int)
    | RegularRecord(path: string, mode: string, uid: int, gid: int, size: nat, digest: string)

  // ----- trees a file system can have -----

  predicate ValidName(name: string) { name != "" && name != "." && '/' !in name }

  predicate DistinctNames(entries: seq<Entry>) {
    forall i, j | 0 <= i < j < |entries| :: entries[i].name != entries[j].name
  }

  /** Names are single path components and differ within a directory; modes have twelve bits. */
  predicate Real(n: Node) {
    match n
    case Dir(meta, entries, _) => meta.bits < 4096 && DistinctNames(entries) && RealEntries(entries)
    case File(meta, _, _, _, _) => meta.bits < 4096
    case SymbolicLink => true
    case Special => true
  }

  predicate RealEntries(entries: seq<Entry>) {
    entries == [] || (ValidName(entries[0].name) && Real(entries[0].node) && RealEntries(entries[1..]))
  }

  /** Only directories and regular files with one link, all of them steady. */
  predicate Copyable(n: Node) {
    match n
    case Dir(_, entries, steady) => steady && CopyableEntries(entries)
    case File(_, links, _, _, steady) => links == 1 && steady
    case SymbolicLink => false
    case Special => false
  }

  predicate CopyableEntries(entries: seq<Entry>) {
    entries == [] || (Copyable(entries[0].node) && CopyableEntries(entries[1..]))
  }

  // ----- records -----

  function OctalDigit(n: nat): char
    requires n < 8
  {
    '0' + n as char
  }

  /** The permission bits as four octal digits. */
  function ModeText(bits: nat): string
    requires bits < 4096
  {
    [OctalDigit(bits / 512), OctalDigit(bits / 64 % 8), OctalDigit(bits / 8 % 8), OctalDigit(bits % 8)]
  }

  function Join(path: string, name: string): string {
    if path == "." then name else path + "/" + name
  }

  function RecordOf(n: Node, path: string): Record
    requires Real(n) && (n.Dir? || n.File?)
  {
    match n
    case Dir(meta, _, _) => DirectoryRecord(path, ModeText(meta.bits), meta.uid, meta.gid)
    case File(meta, _, size, digest, _) => RegularRecord(path, ModeText(meta.bits), meta.uid, meta.gid, size, digest)
  }

  /** The records of a tree in the order of the walk: a directory before what it holds. */
  function Listing(n: Node, path: string): (r: seq<Record>)
    requires Real(n) && Copyable(n)
    ensures r != []
  {
    [RecordOf(n, path)] + if n.Dir? then ListEntries(n.entries, path) else []
  }

  function ListEntries(entries: seq<Entry>, path: string): seq<Record>
    requires RealEntries(entries) && CopyableEntries(entries)
  {
    if entries == [] then []
    else Listing(entries[0].node, Join(path, entries[0].name)) + ListEntries(entries[1..], path)
  }

  // ----- the walk -----

  /** _walk_directory: appends to the records, or raises at the first thing it does not accept. */
  method WalkDirectory(n: Node, path: string, records: seq<Record>) returns (r: Result<seq<Record>>)
    requires Real(n) && n.Dir?
    ensures r.Ok? <==> Copyable(n)
    ensures r.Ok? ==> r.value == records + Listing(n, path)
    decreases n, 0
  {
    r := WalkEntries(n.entries, path, records + [RecordOf(n, path)]);
    if r.Ok? && !n.steady {
      return Err("directory mutated while scanning");
    }
  }

  method WalkFile(n: Node, path: string, records: seq<Record>) returns (r: Result<seq<Record>>)
    requires Real(n) && n.File?
    ensures r.Ok? <==> Copyable(n)
    ensures r.Ok? ==> r.value == records + Listing(n, path)
  {
    if n.links != 1 { return Err("hard-linked file rejected"); }
    if !n.steady { return Err("file mutated while hashing"); }
    assert Listing(n, path) == [RecordOf(n, path)];
    return Ok(records + [RecordOf(n, path)]);
  }

  method WalkEntries(entries: seq<Entry>, path: string, records: seq<Record>) returns (r: Result<seq<Record>>)
    requires RealEntries(entries)
    ensures r.Ok? <==> CopyableEntries(entries)
    ensures r.Ok? ==> r.value == records + ListEntries(entries, path)
    decreases entries
  {
    if entries == [] {
      return Ok(records);
    }
    var child := Join(path, entries[0].name);
    r := WalkNode(entries[0].node, child, records);
    if r.Ok? {
      r := WalkEntries(entries[1..], path, r.value);
    }
    if r.Ok? {
      ghost var first, rest := Listing(entries[0].node, child), ListEntries(entries[1..], path);
      assert records + first + rest == records + (first + rest);
    }
  }

  method WalkNode(n: Node, path: string, records: seq<Record>) returns (r: Result<seq<Record>>)
    requires Real(n)
    ensures r.Ok? <==> Copyable(n)
    ensures r.Ok? ==> r.value == records + Listing(n, path)
    decreases n, 1
  {
    match n
    case SymbolicLink => return Err("symbolic link rejected");
    case Special => return Err("special file rejected");
    case Dir(_, _, _) => r := WalkDirectory(n, path, records);
    case File(_, _, _, _, _) => r := WalkFile(n, path, records);
  }

  // ----- the same entries only for the same tree -----

  lemma FromDigits(bits: nat)
    ensures bits == 512 * (bits / 512) + 64 * (bits / 64 % 8) + 8 * (bits / 8 % 8) + bits % 8
  {
    assert bits / 64 / 8 == bits / 512;
    assert bits / 8 / 8 == bits / 64;
  }

  lemma OctalDigitInjective(a: nat, b: nat)
    requires a < 8 && b < 8 && OctalDigit(a) == OctalDigit(b)
    ensures a == b
  {
  }

  lemma ModeTextInjective(a: nat, b: nat)
    requires a < 4096 && b < 4096 && ModeText(a) == ModeText(b)
    ensures a == b
  {
    FromDigits(a);
    FromDigits(b);
    hide OctalDigit;
    assert ModeText(a)[0] == ModeText(b)[0] && ModeText(a)[1] == ModeText(b)[1];
    assert ModeText(a)[2] == ModeText(b)[2] && ModeText(a)[3] == ModeText(b)[3];
    OctalDigitInjective(a / 512, b / 512);
    OctalDigitInjective(a / 64 % 8, b / 64 % 8);
    OctalDigitInjective(a / 8 % 8, b / 8 % 8);
    OctalDigitInjective(a % 8, b % 8);
  }

  /** A path at or below another. */
  predicate Within(top: string, path: string) { path == top || top + "/" <= path }

  lemma WithinChild(top: string, name: string, path: string)
    requires top != "." && Within(Join(top, name), path)
    ensures Within(top, path)
  {
  }

  lemma JoinInjective(path: string, a: string, b: string)
    requires Join(path, a) == Join(path, b)
    ensures a == b
  {
    if path != "." {
      assert a == (path + "/" + a)[|path| + 1..];
      assert b == (path + "/" + b)[|path| + 1..];
    }
  }

  lemma JoinIsNotRoot(path: string, name: string)
    requires ValidName(name)
    ensures Join(path, name) != "."
  {
  }

  lemma SlashFollows(path: string, a: string, b: string)
    requires Join(path, a) + "/" <= Join(path, b)
    ensures '/' in b
  {
    var skip := if path == "." then 0 else |path| + 1;
    assert Join(path, b)[skip..] == b && (Join(path, a) + "/")[skip + |a|] == '/';
    assert b[|a|] == '/';
  }

  lemma SiblingNotWithin(path: string, a: string, b: string)
    requires ValidName(a) && ValidName(b) && a != b
    ensures !Within(Join(path, a), Join(path, b))
  {
    if Join(path, a) == Join(path, b) {
      JoinInjective(path, a, b);
    } else if Join(path, a) + "/" <= Join(path, b) {
      SlashFollows(path, a, b);
    }
  }

  lemma {:induction false} ListingWithin(n: Node, path: string, i: nat)
    requires Real(n) && Copyable(n) && path != "." && i < |Listing(n, path)|
    ensures Within(path, Listing(n, path)[i].path)
    decreases n
  {
    if i > 0 { EntriesWithin(n.entries, path, i - 1); }
  }

  lemma {:induction false} EntriesWithin(entries: seq<Entry>, path: string, i: nat)
    requires RealEntries(entries) && CopyableEntries(entries) && path != "." && i < |ListEntries(entries, path)|
    ensures Within(path, ListEntries(entries, path)[i].path)
    decreases entries
  {
    var child := Join(path, entries[0].name);
    var first := Listing(entries[0].node, child);
    if i < |first| {
      JoinIsNotRoot(path, entries[0].name);
      ListingWithin(entries[0].node, child, i);
      WithinChild(path, entries[0].name, first[i].path);
    } else {
      EntriesWithin(entries[1..], path, i - |first|);
    }
  }

  /** What follows the records of the first entry is not below it. */
  lemma NextIsOutside(entries: seq<Entry>, path: string)
    requires |entries| > 1 && RealEntries(entries) && CopyableEntries(entries) && DistinctNames(entries)
    ensures ListEntries(entries[1..], path) != []
    ensures !Within(Join(path, entries[0].name), ListEntries(entries[1..], path)[0].path)
  {
    var rest := entries[1..];
    assert rest[0].name == entries[1].name;
    SiblingNotWithin(path, entries[0].name, rest[0].name);
    assert RealEntries(rest) && CopyableEntries(rest);
    assert Copyable(rest[0].node) && (rest[0].node.Dir? || rest[0].node.File?);
    assert ListEntries(rest, path)[0] == RecordOf(rest[0].node, Join(path, rest[0].name));
  }

  lemma NotLonger(whole: seq<Record>, n: nat, m: nat, top: string)
    requires n <= m <= |whole|
    requires n < |whole| ==> !Within(top, whole[n].path)
    requires forall i | 0 <= i < m :: Within(top, whole[i].path)
    ensures n == m
  {
  }

  /** Equal concatenations split at the same place. */
  lemma SameSplit(a: seq<Record>, s: seq<Record>, b: seq<Record>, t: seq<Record>, top: string)
    requires a + s == b + t && |a| <= |b|
    requires s != [] ==> !Within(top, s[0].path)
    requires forall i | 0 <= i < |b| :: Within(top, b[i].path)
    ensures a == b && s == t
  {
    var whole := b + t;
    assert s != [] ==> (a + s)[|a|] == s[0];
    assert forall i | 0 <= i < |b| :: whole[i] == b[i];
    NotLonger(whole, |a|, |b|, top);
    assert a == (a + s)[..|a|] && b == whole[..|b|];
    assert s == (a + s)[|a|..] && t == whole[|b|..];
  }

  lemma {:induction false} NodesEqual(a: Node, b: Node, path: string)
    requires Real(a) && Copyable(a) && Real(b) && Copyable(b) && Listing(a, path) == Listing(b, path)
    ensures a == b
    decreases a
  {
    assert Listing(a, path)[0] == RecordOf(a, path) && Listing(b, path)[0] == RecordOf(b, path);
    ModeTextInjective(a.meta.bits, b.meta.bits);
    if a.Dir? {
      assert Listing(a, path)[1..] == ListEntries(a.entries, path);
      assert Listing(b, path)[1..] == ListEntries(b.entries, path);
      EntriesEqual(a.entries, b.entries, path);
    }
  }

  lemma {:induction false} EntriesEqual(a: seq<Entry>, b: seq<Entry>, path: string)
    requires RealEntries(a) && CopyableEntries(a) && DistinctNames(a)
    requires RealEntries(b) && CopyableEntries(b) && DistinctNames(b)
    requires ListEntries(a, path) == ListEntries(b, path)
    ensures a == b
    decreases a
  {
    if a == [] || b == [] {
      assert a == b;
    } else {
      FirstNames(a, b, path);
      FirstSplit(a, b, path);
      NodesEqual(a[0].node, b[0].node, Join(path, a[0].name));
      EntriesEqual(a[1..], b[1..], path);
      assert a == [a[0]] + a[1..] && b == [b[0]] + b[1..];
    }
  }

  lemma FirstNames(a: seq<Entry>, b: seq<Entry>, path: string)
    requires a != [] && RealEntries(a) && CopyableEntries(a)
    requires b != [] && RealEntries(b) && CopyableEntries(b)
    requires ListEntries(a, path) == ListEntries(b, path)
    ensures a[0].name == b[0].name
  {
    assert ListEntries(a, path)[0] == RecordOf(a[0].node, Join(path, a[0].name));
    assert ListEntries(b, path)[0] == RecordOf(b[0].node, Join(path, b[0].name));
    JoinInjective(path, a[0].name, b[0].name);
  }

  lemma FirstSplit(a: seq<Entry>, b: seq<Entry>, path: string)
    requires a != [] && RealEntries(a) && CopyableEntries(a) && DistinctNames(a)
    requires b != [] && RealEntries(b) && CopyableEntries(b) && DistinctNames(b)
    requires ListEntries(a, path) == ListEntries(b, path) && a[0].name == b[0].name
    ensures var top := Join(path, a[0].name);
      Listing(a[0].node, top) == Listing(b[0].node, top) && ListEntries(a[1..], path) == ListEntries(b[1..], path)
  {
    var top := Join(path, a[0].name);
    JoinIsNotRoot(path, a[0].name);
    var la, lb := Listing(a[0].node, top), Listing(b[0].node, top);
    forall i | 0 <= i < |la| ensures Within(top, la[i].path) { ListingWithin(a[0].node, top, i); }
    forall i | 0 <= i < |lb| ensures Within(top, lb[i].path) { ListingWithin(b[0].node, top, i); }
    if |a| > 1 { NextIsOutside(a, path); } else { assert a[1..] == []; }
    if |b| > 1 { NextIsOutside(b, path); } else { assert b[1..] == []; }
    var sa, sb := ListEntries(a[1..], path), ListEntries(b[1..], path);
    if |la| <= |lb| { SameSplit(la, sa, lb, sb, top); } else { SameSplit(lb, sb, la, sa, top); }
  }

  /** compare_manifests accepts exactly the pairs of manifests of the same tree: names, structure,
      permission bits, owners, sizes and digests. */
  lemma SameEntriesSameTree(a: Node, b: Node)
    requires Real(a) && Copyable(a) && Real(b) && Copyable(b)
    ensures Listing(a, ".") == Listing(b, ".") <==> a == b
  {
    if Listing(a, ".") == Listing(b, ".") { NodesEqual(a, b, "."); }
  }

  // ----- the summary -----

  function CountDirectories(records: seq<Record>): nat {
    if records == [] then 0 else (if records[0].DirectoryRecord? then 1 else 0) + CountDirectories(records[1..])
  }

  function CountRegular(records: seq<Record>): nat {
    if records == [] then 0 else (if records[0].RegularRecord? then 1 else 0) + CountRegular(records[1..])
  }

  function PayloadBytes(records: seq<Record>): nat {
    if records == [] then 0 else (if records[0].RegularRecord? then records[0].size else 0) + PayloadBytes(records[1..])
  }

  datatype Totals = Totals(directories: nat, files: nat, bytes: nat)

  function Plus(a: Totals, b: Totals): Totals {
    Totals(a.directories + b.directories, a.files + b.files, a.bytes + b.bytes)
  }

  function Summary(records: seq<Record>): Totals {
    Totals(CountDirectories(records), CountRegular(records), PayloadBytes(records))
  }

  /** The directories, files and bytes of the tree itself. */
  function TreeTotals(n: Node): Totals {
    match n
    case Dir(_, entries, _) => Plus(Totals(1, 0, 0), EntriesTotals(entries))
    case File(_, _, size, _, _) => Totals(0, 1, size)
    case SymbolicLink => Totals(0, 0, 0)
    case Special => Totals(0, 0, 0)
  }

  function EntriesTotals(entries: seq<Entry>): Totals {
    if entries == [] then Totals(0, 0, 0) else Plus(TreeTotals(entries[0].node), EntriesTotals(entries[1..]))
  }

  lemma {:induction false} DirectoriesOfConcat(a: seq<Record>, b: seq<Record>)
    ensures CountDirectories(a + b) == CountDirectories(a) + CountDirectories(b)
  {
    if a == [] {
      assert a + b == b;
    } else {
      assert (a + b)[1..] == a[1..] + b;
      DirectoriesOfConcat(a[1..], b);
    }
  }

  lemma {:induction false} RegularOfConcat(a: seq<Record>, b: seq<Record>)
    ensures CountRegular(a + b) == CountRegular(a) + CountRegular(b)
  {
    if a == [] {
      assert a + b == b;
    } else {
      assert (a + b)[1..] == a[1..] + b;
      RegularOfConcat(a[1..], b);
    }
  }

  lemma {:induction false} BytesOfConcat(a: seq<Record>, b: seq<Record>)
    ensures PayloadBytes(a + b) == PayloadBytes(a) + PayloadBytes(b)
  {
    if a == [] {
      assert a + b == b;
    } else {
      assert (a + b)[1..] == a[1..] + b;
      BytesOfConcat(a[1..], b);
    }
  }

  lemma SummaryOfConcat(a: seq<Record>, b: seq<Record>)
    ensures Summary(a + b) == Plus(Summary(a), Summary(b))
  {
    hide CountDirectories, CountRegular, PayloadBytes;
    DirectoriesOfConcat(a, b);
    RegularOfConcat(a, b);
    BytesOfConcat(a, b);
  }

  /** The summary counts what the tree holds. */
  lemma {:induction false} SummaryIsTree(n: Node, path: string)
    requires Real(n) && Copyable(n)
    ensures Summary(Listing(n, path)) == TreeTotals(n)
    decreases n
  {
    var head := [RecordOf(n, path)];
    var more := if n.Dir? then ListEntries(n.entries, path) else [];
    SummaryOfConcat(head, more);
    assert head[1..] == [];
    if n.Dir? { EntriesSummary(n.entries, path); }
  }

  lemma {:induction false} EntriesSummary(entries: seq<Entry>, path: string)
    requires RealEntries(entries) && CopyableEntries(entries)
    ensures Summary(ListEntries(entries, path)) == EntriesTotals(entries)
    decreases entries
  {
    if entries != [] {
      var child := Join(path, entries[0].name);
      SummaryIsTree(entries[0].node, child);
      EntriesSummary(entries[1..], path);
      SummaryOfConcat(Listing(entries[0].node, child), ListEntries(entries[1..], path));
    }
  }
}
