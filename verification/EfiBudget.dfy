/** How much room the EFI source tree needs on a file system with a given cluster size. */
module EfiBudget {
  import opened Bytes
  import opened PowersOfTwo

  const MIB := 1048576
  const GIB := 1073741824
  const MAX_ENTRIES := 4096
  const MAX_DEPTH := 8

  /** `Elsewhere` is an entry on another device, `Special` a symlink, socket or device node. */
  datatype Node = Node(name: string, kind: Kind)
  datatype Kind = Regular(size: int) | Directory(entries: seq<Node>) | Special | Elsewhere

  datatype Budget = Budget(required: int, sourceBytes: int, files: int, cluster: int)

  // ---- cluster sizes ----

  predicate ClusterOk(c: int) {
    512 <= c <= MIB && BitAnd(c, c - 1) == 0
  }

  /** Clusters are accepted precisely from 2 to the power 9 to 2 to the power 20. */
  lemma ClusterExactly(c: int)
    ensures ClusterOk(c) <==> exists k: nat :: 9 <= k <= 20 && c == TwoTo(k)
  {
    assert TwoTo(5) == 32;
    assert TwoTo(9) == 512;
    assert TwoTo(10) == 1024;
    assert TwoTo(15) == 32768;
    assert TwoTo(20) == 1048576;
    if ClusterOk(c) {
      BitTrick(c);
      var k := PowerIsTwoTo(c);
      if k < 9 {
        TwoToGrows(k, 9);
      } else if k > 20 {
        TwoToGrows(20, k);
      }
    }
    forall k: nat | 9 <= k <= 20 && c == TwoTo(k) ensures ClusterOk(c) {
      TwoToIsPower(k);
      BitTrick(c);
      if k > 9 {
        TwoToGrows(9, k);
      }
      if k < 20 {
        TwoToGrows(k, 20);
      }
    }
  }

  /** The size rounded up to whole clusters. */
  function RoundUp(size: nat, cluster: int): int
    requires cluster > 0
  {
    (size + cluster - 1) / cluster * cluster
  }

  /** Rounding up gives the least multiple that is large enough. */
  lemma RoundUpIsLeast(size: nat, cluster: int, k: int)
    requires cluster > 0
    ensures size <= RoundUp(size, cluster) < size + cluster
    ensures size <= k * cluster ==> RoundUp(size, cluster) <= k * cluster
  {
    var q := (size + cluster - 1) / cluster;
    assert size + cluster - 1 == q * cluster + (size + cluster - 1) % cluster;
    assert (k + 1) * cluster == k * cluster + cluster;
    if k < q {
      ProductOrder(k + 1, q, cluster);
    }
  }

  lemma RoundUpMonotone(size: nat, c: nat, d: nat)
    requires PowerOfTwo(c) && PowerOfTwo(d) && c <= d
    ensures RoundUp(size, c) <= RoundUp(size, d)
  {
    var k := PowersDivide(c, d);
    var q := RoundUpIsMultiple(size, d);
    RoundUpIsLeast(size, d, 0);
    Regroup(q, k, c);
    hide RoundUp;
    RoundUpIsLeast(size, c, q * k);
  }

  lemma RoundUpIsMultiple(size: nat, cluster: int) returns (q: int)
    requires cluster > 0
    ensures RoundUp(size, cluster) == q * cluster
  {
    q := (size + cluster - 1) / cluster;
  }

  // ---- the tree as a whole ----

  function Count(nodes: seq<Node>): nat {
    if nodes == [] then 0
    else 1 + (if nodes[0].kind.Directory? then Count(nodes[0].kind.entries) else 0) + Count(nodes[1..])
  }

  function Files(nodes: seq<Node>): nat {
    if nodes == [] then 0
    else (match nodes[0].kind
          case Directory(entries) => Files(entries)
          case Regular(_) => 1
          case _ => 0) + Files(nodes[1..])
  }

  function Size(k: Kind): nat {
    if k.Regular? && k.size > 0 then k.size else 0
  }

  function SourceBytes(nodes: seq<Node>): nat {
    if nodes == [] then 0
    else Size(nodes[0].kind)
         + (if nodes[0].kind.Directory? then SourceBytes(nodes[0].kind.entries) else 0)
         + SourceBytes(nodes[1..])
  }

  function Allocated(nodes: seq<Node>, cluster: int): int
    requires cluster > 0
  {
    if nodes == [] then 0
    else (if nodes[0].kind.Regular? then RoundUp(Size(nodes[0].kind), cluster) else 0)
         + (if nodes[0].kind.Directory? then Allocated(nodes[0].kind.entries, cluster) else 0)
         + Allocated(nodes[1..], cluster)
  }

  // ---- names ----

  predicate FirstChar(c: char) {
    'A' <= c <= 'Z' || 'a' <= c <= 'z' || '0' <= c <= '9' || c == '_' || c == '-'
  }

  predicate NameOk(name: string) {
    && 1 <= |name| <= 255
    && FirstChar(name[0])
    && (forall i :: 1 <= i < |name| ==> FirstChar(name[i]) || name[i] == '.')
    && name[|name| - 1] != '.'
  }

  function LowerChar(c: char): char {
    if 'A' <= c <= 'Z' then c - 'A' + 'a' else c
  }

  function Lower(name: string): string {
    seq(|name|, i requires 0 <= i < |name| => LowerChar(name[i]))
  }

  /** No two entries of one directory differ only in case. */
  ghost predicate CaseDistinct(nodes: seq<Node>) {
    forall i, j :: 0 <= i < j < |nodes| ==> Lower(nodes[i].name) != Lower(nodes[j].name)
  }

  ghost predicate NodeShaped(n: Node, depth: nat)
    decreases n, 0
  {
    && NameOk(n.name)
    && match n.kind
       case Regular(size) => size >= 0
       case Directory(entries) => Shaped(entries, depth + 1)
       case Special => false
       case Elsewhere => false
  }

  ghost predicate AllShaped(nodes: seq<Node>, depth: nat)
    decreases nodes, 0
  {
    nodes == [] || (NodeShaped(nodes[0], depth) && AllShaped(nodes[1..], depth))
  }

  /** A directory the walk can take in, limits on numbers and bytes apart. */
  ghost predicate Shaped(nodes: seq<Node>, depth: nat)
    decreases nodes, 1
  {
    depth <= MAX_DEPTH && CaseDistinct(nodes) && AllShaped(nodes, depth)
  }

  const SHIM: string := "shimx64.efi"
  const GRUB: string := "grubx64.efi"

  /** A non-empty regular file of that name, in any case, stands at the top. */
  ghost predicate HasBinary(nodes: seq<Node>, name: string) {
    exists i :: 0 <= i < |nodes| && IsBinary(nodes[i], name)
  }

  predicate IsBinary(n: Node, name: string) {
    Lower(n.name) == name && n.kind.Regular? && n.kind.size > 0
  }

  ghost predicate Acceptable(root: seq<Node>) {
    && Shaped(root, 0)
    && Count(root) <= MAX_ENTRIES
    && SourceBytes(root) <= GIB
    && HasBinary(root, SHIM) && HasBinary(root, GRUB)
  }

  function Required(root: seq<Node>, cluster: int): int
    requires cluster > 0
  {
    Allocated(root, cluster) + (2 * Count(root) + 4) * cluster + 16 * MIB
  }

  /** What one entry adds: two clusters, and its file in whole clusters or what its own entries add. */
  lemma EntryAdds(entry: Node, rest: seq<Node>, cluster: int)
    requires cluster > 0
    ensures Required([], cluster) == 4 * cluster + 16777216
    ensures Required([entry] + rest, cluster) - Required(rest, cluster) == 2 * cluster +
              match entry.kind
              case Regular(size) => if size > 0 then RoundUp(size, cluster) else 0
              case Directory(entries) => Required(entries, cluster) - Required([], cluster)
              case _ => 0
  {
    hide RoundUp;
    assert ([entry] + rest)[1..] == rest;
    RoundUpIsLeast(0, cluster, 0);
  }

  // ---- the walk ----

  /** The counters that all levels of the walk share. */
  class Walker {
    const cluster: int
    var count: int
    var files: int
    var sourceBytes: int
    var rounded: int
    var found: set<string>

    constructor (cluster: int)
      ensures this.cluster == cluster
      ensures count == files == sourceBytes == rounded == 0 && found == {}
    {
      this.cluster := cluster;
      count, files, sourceBytes, rounded, found := 0, 0, 0, 0, {};
    }

    ghost predicate Valid()
      reads this
    {
      cluster > 0 && 0 <= count <= MAX_ENTRIES && 0 <= sourceBytes <= GIB
    }

    /** One directory: it stops at the first entry that may not be there. */
    method Walk(nodes: seq<Node>, depth: nat) returns (ok: bool)
      requires Valid()
      modifies this
      ensures ok <==> Shaped(nodes, depth) && old(count) + Count(nodes) <= MAX_ENTRIES
                      && old(sourceBytes) + SourceBytes(nodes) <= GIB
      ensures ok ==> Valid() && count == old(count) + Count(nodes)
                     && files == old(files) + Files(nodes)
                     && sourceBytes == old(sourceBytes) + SourceBytes(nodes)
                     && rounded == old(rounded) + Allocated(nodes, cluster)
      ensures ok && depth > 0 ==> found == old(found)
      ensures ok && depth == 0 ==> found == old(found) + FoundIn(nodes)
      decreases nodes, 1
    {
      hide Lower, RoundUp, Size;
      if depth > MAX_DEPTH {
        return false;
      }
      var names: set<string> := {};
      for n := 0 to |nodes|
        invariant Valid()
        invariant names == set i | 0 <= i < n :: Lower(nodes[i].name)
        invariant CaseDistinct(nodes[..n])
        invariant AllShaped(nodes, depth) <==> AllShaped(nodes[n..], depth)
        invariant count + Count(nodes[n..]) == old(count) + Count(nodes)
        invariant files + Files(nodes[n..]) == old(files) + Files(nodes)
        invariant sourceBytes + SourceBytes(nodes[n..]) == old(sourceBytes) + SourceBytes(nodes)
        invariant rounded + Allocated(nodes[n..], cluster) == old(rounded) + Allocated(nodes, cluster)
        invariant found == old(found) + (if depth == 0 then FoundIn(nodes[..n]) else {})
      {
        var entry := nodes[n];
        assert nodes[n..][1..] == nodes[n + 1..] && nodes[..n + 1] == nodes[..n] + [entry];
        FoundOneMore(nodes[..n], entry);
        count := count + 1;
        if count > MAX_ENTRIES || !NameOk(entry.name) {
          return false;
        }
        var lower := Lower(entry.name);
        if lower in names {
          assert !CaseDistinct(nodes);
          return false;
        }
        names := names + {lower};
        ok := Enter(entry, depth);
        if !ok {
          return false;
        }
      }
      assert nodes[..|nodes|] == nodes;
      ok := true;
    }

    /** What is done with one entry whose name is accepted. */
    method Enter(entry: Node, depth: nat) returns (ok: bool)
      requires Valid() && NameOk(entry.name)
      modifies this
      ensures ok <==> NodeShaped(entry, depth) && old(count) + Inside(entry) <= MAX_ENTRIES
                      && old(sourceBytes) + SourceBytes([entry]) <= GIB
      ensures ok ==> Valid() && count == old(count) + Inside(entry)
                     && files == old(files) + Files([entry])
                     && sourceBytes == old(sourceBytes) + SourceBytes([entry])
                     && rounded == old(rounded) + Allocated([entry], cluster)
      ensures ok ==> found == old(found) + (if depth == 0 then FoundIn([entry]) else {})
      decreases entry, 0
    {
      match entry.kind {
        case Special => return false;
        case Elsewhere => return false;
        case Directory(entries) =>
          ok := Walk(entries, depth + 1);
        case Regular(size) =>
          files := files + 1;
          sourceBytes := sourceBytes + size;
          if size < 0 || sourceBytes > GIB {
            return false;
          }
          rounded := rounded + RoundUp(size, cluster);
          var lower := Lower(entry.name);
          if depth == 0 && lower in {SHIM, GRUB} && size > 0 {
            found := found + {lower};
          }
          ok := true;
      }
    }
  }

  /** The entries below one entry. */
  function Inside(entry: Node): nat {
    if entry.kind.Directory? then Count(entry.kind.entries) else 0
  }

  /** The required binaries among these entries. */
  ghost function FoundIn(nodes: seq<Node>): set<string> {
    set name | name in {SHIM, GRUB} && HasBinary(nodes, name)
  }

  lemma FoundOneMore(nodes: seq<Node>, entry: Node)
    ensures FoundIn(nodes + [entry]) == FoundIn(nodes) + FoundIn([entry])
  {
    forall name
      ensures HasBinary(nodes + [entry], name) <==> HasBinary(nodes, name) || HasBinary([entry], name)
    {
      var all := nodes + [entry];
      if HasBinary(nodes, name) {
        var i :| 0 <= i < |nodes| && IsBinary(nodes[i], name);
        assert all[i] == nodes[i];
      }
      if HasBinary([entry], name) {
        assert all[|nodes|] == entry;
      }
    }
  }

  /** `source_budget`: refused, or exactly what the tree as a whole needs. */
  method SourceBudget(root: seq<Node>, cluster: int) returns (r: Option<Budget>)
    ensures r.Some? <==> ClusterOk(cluster) && Acceptable(root)
    ensures r.Some? ==> r.value == Budget(Required(root, cluster), SourceBytes(root), Files(root), cluster)
  {
    if !ClusterOk(cluster) {
      return None;
    }
    var walker := new Walker(cluster);
    var ok := walker.Walk(root, 0);
    if !ok {
      return None;
    }
    BothFound(root);
    if |walker.found| != 2 {
      return None;
    }
    r := Some(Budget(walker.rounded + (2 * walker.count + 4) * cluster + 16 * MIB,
                     walker.sourceBytes, walker.files, cluster));
  }

  lemma BothFound(root: seq<Node>)
    ensures |FoundIn(root)| == 2 <==> HasBinary(root, SHIM) && HasBinary(root, GRUB)
  {
    assert SHIM[0] != GRUB[0];
    var f := FoundIn(root);
    if HasBinary(root, SHIM) && HasBinary(root, GRUB) {
      assert f == {SHIM, GRUB};
    } else if HasBinary(root, SHIM) {
      assert f == {SHIM};
    } else if HasBinary(root, GRUB) {
      assert f == {GRUB};
    } else {
      assert f == {};
    }
  }

  // ---- the budget is conservative ----

  lemma {:induction false} AllocatedMonotone(nodes: seq<Node>, c: nat, d: nat)
    requires PowerOfTwo(c) && PowerOfTwo(d) && 0 < c <= d
    ensures Allocated(nodes, c) <= Allocated(nodes, d)
  {
    if nodes != [] {
      RoundUpMonotone(Size(nodes[0].kind), c, d);
      if nodes[0].kind.Directory? {
        AllocatedMonotone(nodes[0].kind.entries, c, d);
      }
      AllocatedMonotone(nodes[1..], c, d);
    }
  }

  /** Larger clusters never need less: the budget at c is at most the budget at d. */
  lemma BudgetMonotone(root: seq<Node>, c: int, d: int)
    requires ClusterOk(c) && ClusterOk(d) && c <= d
    ensures Required(root, c) <= Required(root, d)
  {
    BitTrick(c);
    BitTrick(d);
    AllocatedMonotone(root, c, d);
    hide BitAnd, PowerOfTwo, Allocated, Count;
    SumOrder(Allocated(root, c), Allocated(root, d), c, d, 2 * Count(root) + 4, 16 * MIB);
  }

  lemma SumOrder(a: int, b: int, c: int, d: int, n: nat, rest: int)
    requires a <= b && c <= d
    ensures a + n * c + rest <= b + n * d + rest
  {
    ProductOrder(c, d, n);
  }

  lemma LargestCluster()
    ensures ClusterOk(MIB)
  {
    BitTrick(MIB);
    TwoToTwenty();
  }

  /** Room that suffices for a new partition at the assumed cluster of 1 MiB suffices for
      whatever cluster size the file system is then made with. */
  lemma NewPartitionSuffices(root: seq<Node>, available: int, cluster: int)
    requires available >= Required(root, MIB) && ClusterOk(cluster)
    ensures available >= Required(root, cluster)
    ensures Allocated(root, cluster) >= SourceBytes(root)
  {
    LargestCluster();
    BudgetMonotone(root, cluster, MIB);
    AllocatedCovers(root, cluster);
  }

  lemma {:induction false} AllocatedCovers(nodes: seq<Node>, cluster: int)
    requires cluster > 0
    ensures Allocated(nodes, cluster) >= SourceBytes(nodes)
  {
    if nodes != [] {
      RoundUpIsLeast(Size(nodes[0].kind), cluster, 0);
      if nodes[0].kind.Directory? {
        AllocatedCovers(nodes[0].kind.entries, cluster);
      }
      AllocatedCovers(nodes[1..], cluster);
    }
  }
}
