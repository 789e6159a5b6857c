/** The manifest of a tree, node by node: what stands where in the tree has exactly one record, with
    its path, mode, owner, size and digest. */
module AssetClaims {
  import opened Prelude
  import opened AssetManifest

  /** Node m is reached from n by these names, one after the other. */
  ghost predicate At(n: Node, names: seq<string>, m: Node)
    decreases |names|
  {
    if names == [] then n == m
    else
      n.Dir? && exists k | 0 <= k < |n.entries| ::
        n.entries[k].name == names[0] && At(n.entries[k].node, names[1..], m)
  }

  /** "." and otherwise the names with a slash between them. */
  function PathText(names: seq<string>): string {
    if names == [] then "."
    else if |names| == 1 then names[0]
    else names[0] + "/" + PathText(names[1..])
  }

  /** Four octal digits. */
  predicate Octal(text: string, bits: nat) {
    && |text| == 4 && (forall i | 0 <= i < 4 :: '0' <= text[i] <= '7')
    && bits == 512 * Value(text[0]) + 64 * Value(text[1]) + 8 * Value(text[2]) + Value(text[3])
  }

  function Value(c: char): int { c as int - 48 }

  /** The record says of the node what there is to say. */
  predicate Tells(r: Record, path: string, m: Node) {
    match m
    case Dir(meta, _, _) =>
      r.DirectoryRecord? && r.path == path && Octal(r.mode, meta.bits) && r.uid == meta.uid && r.gid == meta.gid
    case File(meta, links, size, digest, _) =>
      && r.RegularRecord? && r.path == path && Octal(r.mode, meta.bits) && r.uid == meta.uid && r.gid == meta.gid
      && links == 1 && r.size == size && r.digest == digest
    case _ => false
  }

  lemma ModeIs(bits: nat)
    requires bits < 4096
    ensures Octal(ModeText(bits), bits)
  {
    FromDigits(bits);
  }

  lemma RecordTells(n: Node, path: string)
    requires Real(n) && Copyable(n)
    ensures Tells(RecordOf(n, path), path, n)
  {
    ModeIs(n.meta.bits);
    hide ModeText, Octal;
  }

  /** The path of a node below another one. */
  function Under(path: string, names: seq<string>): string
    decreases |names|
  {
    if names == [] then path else Under(Join(path, names[0]), names[1..])
  }

  lemma {:induction false} UnderIs(path: string, names: seq<string>)
    requires path != "."
    ensures Under(path, names) == if names == [] then path else path + "/" + PathText(names)
    decreases |names|
  {
    if names != [] { assert Join(path, names[0])[|path|] == '/'; }
    if |names| > 1 {
      UnderIs(Join(path, names[0]), names[1..]);
      var t := names[0] + "/" + PathText(names[1..]);
      assert path + "/" + names[0] + "/" + PathText(names[1..]) == path + "/" + t;
    } else if |names| == 1 {
      assert names[1..] == [];
    }
  }

  lemma UnderTop(names: seq<string>)
    requires forall i | 0 <= i < |names| :: ValidName(names[i])
    ensures Under(".", names) == PathText(names)
  {
    if names != [] {
      JoinIsNotRoot(".", names[0]);
      UnderIs(Join(".", names[0]), names[1..]);
      if |names| == 1 { assert names[1..] == []; }
    }
  }

  /** The entries with this many at their front taken off. */
  lemma EntryFirst(entries: seq<Entry>, path: string)
    requires entries != [] && RealEntries(entries) && CopyableEntries(entries)
    ensures ValidName(entries[0].name) && Real(entries[0].node) && Copyable(entries[0].node)
    ensures RealEntries(entries[1..]) && CopyableEntries(entries[1..])
    ensures ListEntries(entries, path) ==
      Listing(entries[0].node, Join(path, entries[0].name)) + ListEntries(entries[1..], path)
  {
  }

  lemma FourParts(a: seq<Record>, b: seq<Record>, c: seq<Record>, d: seq<Record>)
    ensures a + (b + c + d) == a + b + c + d && [] + c + d == c + d
  {
  }

  lemma {:induction false} EntryAt(entries: seq<Entry>, path: string, k: nat)
      returns (before: seq<Record>, after: seq<Record>)
    requires RealEntries(entries) && CopyableEntries(entries) && k < |entries|
    ensures ValidName(entries[k].name) && Real(entries[k].node) && Copyable(entries[k].node)
    ensures ListEntries(entries, path) ==
      before + Listing(entries[k].node, Join(path, entries[k].name)) + after
  {
    hide RealEntries, CopyableEntries, Real, Copyable, Listing, ListEntries, Join, ValidName;
    EntryFirst(entries, path);
    var first := Listing(entries[0].node, Join(path, entries[0].name));
    if k == 0 {
      before, after := [], ListEntries(entries[1..], path);
      FourParts(first, [], first, after);
    } else {
      before, after := EntryAt(entries[1..], path, k - 1);
      assert entries[1..][k - 1] == entries[k];
      FourParts(first, before, Listing(entries[k].node, Join(path, entries[k].name)), after);
      before := first + before;
    }
  }

  lemma ListingOf(n: Node, path: string)
    requires Real(n) && Copyable(n) && n.Dir?
    ensures RealEntries(n.entries) && CopyableEntries(n.entries)
    ensures Listing(n, path) == [RecordOf(n, path)] + ListEntries(n.entries, path)
  {
  }

  lemma FoundBehind(a: seq<Record>, b: seq<Record>, c: seq<Record>, d: seq<Record>, j: nat)
    requires j < |c|
    ensures (a + (b + c + d))[|a| + |b| + j] == c[j] && |a| + |b| + j < |a + (b + c + d)|
  {
  }

  lemma UnderBelow(path: string, name: string, rest: seq<string>)
    ensures Under(path, [name] + rest) == Under(Join(path, name), rest)
  {
    assert ([name] + rest)[1..] == rest;
  }

  lemma TopTells(n: Node, path: string)
    requires Real(n) && Copyable(n)
    ensures At(n, [], n) && Tells(Listing(n, path)[0], Under(path, []), n)
  {
    RecordTells(n, path);
    hide Tells;
  }

  lemma AtSteps(n: Node, names: seq<string>, m: Node) returns (k: nat)
    requires At(n, names, m) && names != []
    ensures n.Dir? && k < |n.entries| && n.entries[k].name == names[0] && At(n.entries[k].node, names[1..], m)
  {
    var l :| 0 <= l < |n.entries| && n.entries[l].name == names[0] && At(n.entries[l].node, names[1..], m);
    k := l;
  }

  /** What stands in the tree has its record. */
  lemma {:induction false} Listed(n: Node, path: string, names: seq<string>, m: Node) returns (i: nat)
    requires Real(n) && Copyable(n) && At(n, names, m)
    ensures i < |Listing(n, path)| && Tells(Listing(n, path)[i], Under(path, names), m)
    ensures forall k | 0 <= k < |names| :: ValidName(names[k])
    decreases |names|, 1
  {
    if names == [] {
      i := 0;
      assert n == m;
      TopTells(n, path);
    } else {
      i := ListedBelow(n, path, names, m);
    }
  }

  lemma {:induction false} ListedBelow(n: Node, path: string, names: seq<string>, m: Node) returns (i: nat)
    requires Real(n) && Copyable(n) && At(n, names, m) && names != []
    ensures i < |Listing(n, path)| && Tells(Listing(n, path)[i], Under(path, names), m)
    ensures forall k | 0 <= k < |names| :: ValidName(names[k])
    decreases |names|, 0
  {
    hide Real, Copyable, RealEntries, CopyableEntries, Listing, ListEntries, Join, ValidName;
    hide Tells, RecordOf, At, Under;
    var k := AtSteps(n, names, m);
    ListingOf(n, path);
    var before, after := EntryAt(n.entries, path, k);
    var child := Listing(n.entries[k].node, Join(path, names[0]));
    var j := Listed(n.entries[k].node, Join(path, names[0]), names[1..], m);
    i := 1 + |before| + j;
    FoundBehind([RecordOf(n, path)], before, child, after, j);
    UnderBelow(path, names[0], names[1..]);
    assert names == [names[0]] + names[1..];
    forall l | 0 <= l < |names| ensures ValidName(names[l]) {
      if l > 0 { assert names[1..][l - 1] == names[l]; }
    }
  }

  lemma AtBelow(n: Node, k: nat, rest: seq<string>, m: Node)
    requires n.Dir? && k < |n.entries| && At(n.entries[k].node, rest, m)
    ensures At(n, [n.entries[k].name] + rest, m)
  {
    assert ([n.entries[k].name] + rest)[1..] == rest;
  }

  /** And every record is that of something in the tree. */
  lemma {:induction false} Stands(n: Node, path: string, i: nat) returns (names: seq<string>, m: Node)
    requires Real(n) && Copyable(n) && i < |Listing(n, path)|
    ensures At(n, names, m) && Tells(Listing(n, path)[i], Under(path, names), m)
    decreases n
  {
    hide At, Tells, Listing, ListEntries, Join, RecordOf, Real, Copyable, RealEntries, CopyableEntries, Under;
    if i == 0 {
      TopTells(n, path);
      names, m := [], n;
    } else {
      DeeperIsDir(n, path, i);
      ListingOf(n, path);
      var k, rest, below := StandsIn(n.entries, path, i - 1);
      AtBelow(n, k, rest, below);
      UnderBelow(path, n.entries[k].name, rest);
      names, m := [n.entries[k].name] + rest, below;
    }
  }

  lemma DeeperIsDir(n: Node, path: string, i: nat)
    requires Real(n) && Copyable(n) && 0 < i < |Listing(n, path)|
    ensures n.Dir?
  {
  }

  lemma {:induction false} StandsIn(entries: seq<Entry>, path: string, i: nat)
      returns (k: nat, names: seq<string>, m: Node)
    requires RealEntries(entries) && CopyableEntries(entries) && i < |ListEntries(entries, path)|
    ensures k < |entries| && At(entries[k].node, names, m)
    ensures Tells(ListEntries(entries, path)[i], Under(Join(path, entries[k].name), names), m)
    decreases entries
  {
    var first := Listing(entries[0].node, Join(path, entries[0].name));
    if i < |first| {
      k := 0;
      names, m := Stands(entries[0].node, Join(path, entries[0].name), i);
    } else {
      k, names, m := StandsIn(entries[1..], path, i - |first|);
      k := k + 1;
    }
  }

  /** Some record of the manifest tells of the node that these names lead to. */
  ghost predicate Recorded(n: Node, names: seq<string>, m: Node)
    requires Real(n) && Copyable(n)
  {
    exists i | 0 <= i < |Listing(n, ".")| :: Tells(Listing(n, ".")[i], PathText(names), m)
  }

  /** Record i of the manifest tells of something in the tree. */
  ghost predicate Placed(n: Node, i: nat)
    requires Real(n) && Copyable(n) && i < |Listing(n, ".")|
  {
    exists names, m :: At(n, names, m) && Tells(Listing(n, ".")[i], PathText(names), m)
  }

  lemma HasRecord(n: Node, names: seq<string>, m: Node)
    requires Real(n) && Copyable(n) && At(n, names, m)
    ensures Recorded(n, names, m)
  {
    var i := Listed(n, ".", names, m);
    UnderTop(names);
    hide Tells, Listing, At;
  }

  lemma HasNode(n: Node, i: nat)
    requires Real(n) && Copyable(n) && i < |Listing(n, ".")|
    ensures Placed(n, i)
  {
    var names, m := Stands(n, ".", i);
    var j := Listed(n, ".", names, m);
    UnderTop(names);
    hide Tells, Listing, At;
  }

  /** The manifest of a tree holds, for exactly what stands in it, a record with its path from the
      top, its mode in four octal digits, its owner and, for a file, size and digest. */
  lemma ManifestIs(n: Node)
    requires Real(n) && Copyable(n)
    ensures forall names, m | At(n, names, m) :: Recorded(n, names, m)
    ensures forall i | 0 <= i < |Listing(n, ".")| :: Placed(n, i)
  {
    forall names, m | At(n, names, m) ensures Recorded(n, names, m) { HasRecord(n, names, m); }
    forall i | 0 <= i < |Listing(n, ".")| ensures Placed(n, i) { HasNode(n, i); }
  }
}
