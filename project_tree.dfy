/**
 * The project tree of the SQL database projects extension, as its tests
 * (extensions/sql-database-projects/src/test/projectTree.test.ts) pin it
 * down: file and folder nodes are ordered folders first, then by URI path;
 * the children of a folder are the entries below it, each once, including
 * the folders that lead to deeper entries; the root lists the data sources
 * and database references nodes before its entries.
 *
 * The ordering function and the tree items themselves are not part of this
 * model: the comparator becomes the order `NodeLeq`, `Array.prototype.sort`
 * a stable insertion sort, and a folder's child list a function of the
 * project's entries.
 */
module ProjectTree {
  import opened Wrappers
  import opened Strings

  /** The context value of a tree item: what kind of node it is. */
  datatype ItemType = DataSourceRoot | ReferencesRoot | FolderItem | FileItem

  datatype EntryType = File | Folder

  /** A project entry: its path relative to the project, segment by segment, and its type. */
  datatype ProjectEntry = ProjectEntry(segments: seq<string>, entryType: EntryType)

  /** A tree node: its kind, its name and the path of its URI. */
  datatype TreeNode = TreeNode(itemType: ItemType, name: string, uri: string)

  const DataSourcesName := "Data Sources"
  const DatabaseReferencesName := "Database References"

  // ---------------------------------------------------------------------
  // Ordering

  /** Folders rank before everything else. */
  function Rank(t: ItemType): nat {
    if t == FolderItem then 0 else 1
  }

  /** `sortFileFolderNodes` as an order: folders before files, then by URI path. */
  predicate NodeLeq(a: TreeNode, b: TreeNode) {
    Rank(a.itemType) < Rank(b.itemType) || (Rank(a.itemType) == Rank(b.itemType) && Below(a.uri, b.uri))
  }

  lemma {:induction false} NodeLeqTotal(a: TreeNode, b: TreeNode)
    ensures NodeLeq(a, b) || NodeLeq(b, a)
  {
    BelowTotal(a.uri, b.uri);
  }

  lemma {:induction false} NodeLeqTransitive(a: TreeNode, b: TreeNode, c: TreeNode)
    requires NodeLeq(a, b) && NodeLeq(b, c)
    ensures NodeLeq(a, c)
  {
    if Rank(a.itemType) == Rank(b.itemType) == Rank(c.itemType) {
      BelowTransitive(a.uri, b.uri, c.uri);
    }
  }

  predicate Sorted(s: seq<TreeNode>) {
    forall i, j :: 0 <= i < j < |s| ==> NodeLeq(s[i], s[j])
  }

  /** `x` placed before the first element it does not follow. */
  function Insert(x: TreeNode, s: seq<TreeNode>): seq<TreeNode>
    decreases |s|
  {
    if s == [] then [x]
    else if NodeLeq(x, s[0]) then [x] + s
    else [s[0]] + Insert(x, s[1..])
  }

  /** The nodes in comparator order; nodes the comparator ties keep their input order. */
  function SortNodes(s: seq<TreeNode>): seq<TreeNode>
    decreases |s|
  {
    if s == [] then [] else Insert(s[0], SortNodes(s[1..]))
  }

  /** Inserting adds the one node and keeps the others. */
  lemma {:induction false} InsertPermutes(x: TreeNode, s: seq<TreeNode>)
    ensures multiset(Insert(x, s)) == multiset(s) + multiset{x}
    decreases |s|
  {
    if s != [] && !NodeLeq(x, s[0]) {
      InsertPermutes(x, s[1..]);
      assert s == [s[0]] + s[1..];
    }
  }

  /** A lower bound of a node and of a list is a lower bound of the list with the node inserted. */
  lemma {:induction false} InsertLowerBound(lo: TreeNode, x: TreeNode, s: seq<TreeNode>)
    requires NodeLeq(lo, x)
    requires forall k :: 0 <= k < |s| ==> NodeLeq(lo, s[k])
    ensures forall k :: 0 <= k < |Insert(x, s)| ==> NodeLeq(lo, Insert(x, s)[k])
    decreases |s|
  {
    if s != [] && !NodeLeq(x, s[0]) {
      InsertLowerBound(lo, x, s[1..]);
      var r := Insert(x, s);
      forall k | 0 <= k < |r| ensures NodeLeq(lo, r[k]) {
        if k > 0 {
          assert r[k] == Insert(x, s[1..])[k - 1];
        }
      }
    }
  }

  lemma {:induction false} InsertSorted(x: TreeNode, s: seq<TreeNode>)
    requires Sorted(s)
    ensures Sorted(Insert(x, s))
    decreases |s|
  {
    if s == [] {
    } else if NodeLeq(x, s[0]) {
      var r := [x] + s;
      forall i, j | 0 <= i < j < |r| ensures NodeLeq(r[i], r[j]) {
        if i == 0 && j > 1 {
          NodeLeqTransitive(x, s[0], s[j - 1]);
        }
      }
    } else {
      var rest := Insert(x, s[1..]);
      InsertSorted(x, s[1..]);
      NodeLeqTotal(x, s[0]);
      InsertLowerBound(s[0], x, s[1..]);
      var r := [s[0]] + rest;
      forall i, j | 0 <= i < j < |r| ensures NodeLeq(r[i], r[j]) {
        assert r[j] == rest[j - 1];
        if i > 0 {
          assert r[i] == rest[i - 1];
        }
      }
    }
  }

  /** Sorting yields a sorted permutation of the nodes. */
  lemma {:induction false} SortNodesCorrect(s: seq<TreeNode>)
    ensures Sorted(SortNodes(s))
    ensures multiset(SortNodes(s)) == multiset(s)
    decreases |s|
  {
    if s != [] {
      SortNodesCorrect(s[1..]);
      InsertSorted(s[0], SortNodes(s[1..]));
      InsertPermutes(s[0], SortNodes(s[1..]));
      assert s == [s[0]] + s[1..];
    }
  }

  /**
   * After sorting every folder comes before every other node, and nodes of
   * the same kind are in ascending order of their URI paths.
   */
  lemma {:induction false} SortedOrder(s: seq<TreeNode>)
    ensures var r := SortNodes(s);
      && (forall i, j :: 0 <= i < j < |r| && r[j].itemType == FolderItem ==> r[i].itemType == FolderItem)
      && (forall i, j :: 0 <= i < j < |r| && r[i].itemType == r[j].itemType ==> Below(r[i].uri, r[j].uri))
  {
    SortNodesCorrect(s);
  }

  // ---------------------------------------------------------------------
  // Building the tree

  /** The URI path of the entry at `segments` below the project file's URI path `root`. */
  function UriOf(root: string, segments: seq<string>): string
    decreases |segments|
  {
    if segments == [] then root
    else UriOf(root, segments[..|segments| - 1]) + "/" + segments[|segments| - 1]
  }

  /**
   * The node an entry puts directly under the folder at `dir`: the entry
   * itself when it is a child of that folder, the folder leading to it when
   * it lies deeper, and none when it is not below the folder.
   */
  function ChildOf(root: string, dir: seq<string>, e: ProjectEntry): (r: Option<TreeNode>)
    ensures r.Some? <==> |e.segments| > |dir| && e.segments[..|dir|] == dir
    ensures r.Some? ==> r.value.name == e.segments[|dir|] && r.value.uri == UriOf(root, dir) + "/" + r.value.name
    ensures r.Some? ==> r.value.itemType == (if |e.segments| == |dir| + 1 && e.entryType == File then FileItem else FolderItem)
  {
    if |e.segments| > |dir| && e.segments[..|dir|] == dir then
      var name := e.segments[|dir|];
      var kind := if |e.segments| == |dir| + 1 && e.entryType == File then FileItem else FolderItem;
      assert (dir + [name])[..|dir|] == dir;
      Some(TreeNode(kind, name, UriOf(root, dir + [name])))
    else None
  }

  /** The nodes the entries put under the folder at `dir`, in entry order, duplicates included. */
  function Candidates(root: string, dir: seq<string>, entries: seq<ProjectEntry>): (r: seq<TreeNode>)
    ensures forall n :: n in r <==> exists e :: e in entries && ChildOf(root, dir, e) == Some(n)
    decreases |entries|
  {
    if entries == [] then []
    else
      var init := entries[..|entries| - 1];
      var last := entries[|entries| - 1];
      assert entries == init + [last];
      Candidates(root, dir, init) + (match ChildOf(root, dir, last) case Some(n) => [n] case None => [])
  }

  /** The first occurrence of each node, in order. */
  function Distinct(s: seq<TreeNode>): (r: seq<TreeNode>)
    ensures forall n :: n in r <==> n in s
    ensures forall i, j :: 0 <= i < j < |r| ==> r[i] != r[j]
    decreases |s|
  {
    if s == [] then []
    else
      var d := Distinct(s[..|s| - 1]);
      assert s == s[..|s| - 1] + [s[|s| - 1]];
      if s[|s| - 1] in d then d else d + [s[|s| - 1]]
  }

  /** The children of the folder at `dir`: each node once, folders first, then by URI path. */
  function Children(root: string, dir: seq<string>, entries: seq<ProjectEntry>): seq<TreeNode> {
    SortNodes(Distinct(Candidates(root, dir, entries)))
  }

  /** The children of the project root: data sources, database references, then the top-level entries. */
  function RootChildren(root: string, entries: seq<ProjectEntry>): seq<TreeNode> {
    [TreeNode(DataSourceRoot, DataSourcesName, UriOf(root, [DataSourcesName])),
     TreeNode(ReferencesRoot, DatabaseReferencesName, UriOf(root, [DatabaseReferencesName]))]
    + Children(root, [], entries)
  }

  /**
   * A folder's children are sorted, hold no node twice, and are exactly the
   * nodes some entry puts under the folder, wherever it is listed.
   */
  lemma {:induction false} ChildrenContract(root: string, dir: seq<string>, entries: seq<ProjectEntry>)
    ensures var cs := Children(root, dir, entries);
      && Sorted(cs)
      && (forall i, j :: 0 <= i < j < |cs| ==> cs[i] != cs[j])
      && (forall n :: n in cs <==> exists e :: e in entries && ChildOf(root, dir, e) == Some(n))
  {
    var d := Distinct(Candidates(root, dir, entries));
    SortNodesCorrect(d);
    var cs := SortNodes(d);
    forall n ensures n in cs <==> n in d {
      assert n in cs <==> n in multiset(cs);
      assert n in d <==> n in multiset(d);
    }
    forall i, j | 0 <= i < j < |cs| ensures cs[i] != cs[j] {
      if cs[i] == cs[j] {
        DistinctCountsOnce(d, cs[i]);
        assert multiset(cs)[cs[i]] >= 2 by {
          TwoOccurrences(cs, i, j);
        }
        assert false;
      }
    }
  }

  /** An element of a list without repeats occurs in it once. */
  lemma {:induction false} DistinctCountsOnce(s: seq<TreeNode>, x: TreeNode)
    requires forall i, j :: 0 <= i < j < |s| ==> s[i] != s[j]
    ensures multiset(s)[x] <= 1
    decreases |s|
  {
    if s != [] {
      var init := s[..|s| - 1];
      DistinctCountsOnce(init, x);
      assert s == init + [s[|s| - 1]];
      if x == s[|s| - 1] {
        assert x !in init;
      }
    }
  }

  lemma {:induction false} TwoOccurrences(s: seq<TreeNode>, i: nat, j: nat)
    requires i < j < |s| && s[i] == s[j]
    ensures multiset(s)[s[i]] >= 2
  {
    assert s == s[..j] + [s[j]] + s[j + 1..];
    assert s[..j][i] == s[i];
  }

  /** Within one folder, nodes of the same kind are in ascending order of their names. */
  lemma {:induction false} ChildrenByName(root: string, dir: seq<string>, entries: seq<ProjectEntry>)
    ensures var cs := Children(root, dir, entries);
      forall i, j :: 0 <= i < j < |cs| && cs[i].itemType == cs[j].itemType ==> Below(cs[i].name, cs[j].name)
  {
    var cs := Children(root, dir, entries);
    ChildrenContract(root, dir, entries);
    SortedOrder(Distinct(Candidates(root, dir, entries)));
    forall i, j | 0 <= i < j < |cs| && cs[i].itemType == cs[j].itemType ensures Below(cs[i].name, cs[j].name) {
      var e1 :| e1 in entries && ChildOf(root, dir, e1) == Some(cs[i]);
      var e2 :| e2 in entries && ChildOf(root, dir, e2) == Some(cs[j]);
      BelowSharedPrefix(UriOf(root, dir) + "/", cs[i].name, cs[j].name);
    }
  }

  /** A shared prefix does not change the order of two strings. */
  lemma {:induction false} BelowSharedPrefix(p: string, a: string, b: string)
    ensures Below(p + a, p + b) <==> Below(a, b)
    decreases |p|
  {
    if p != [] {
      assert (p + a)[1..] == p[1..] + a;
      assert (p + b)[1..] == p[1..] + b;
      BelowSharedPrefix(p[1..], a, b);
    } else {
      assert p + a == a && p + b == b;
    }
  }

  /** The root lists its two fixed nodes first, then the sorted top-level entries, each of them a folder or a file. */
  lemma {:induction false} RootChildrenShape(root: string, entries: seq<ProjectEntry>)
    ensures var rs := RootChildren(root, entries);
      && |rs| >= 2 && rs[0].itemType == DataSourceRoot && rs[1].itemType == ReferencesRoot
      && rs[2..] == Children(root, [], entries)
      && forall k :: 2 <= k < |rs| ==> rs[k].itemType in {FolderItem, FileItem}
  {
    var rs := RootChildren(root, entries);
    ChildrenContract(root, [], entries);
    forall k | 2 <= k < |rs| ensures rs[k].itemType in {FolderItem, FileItem} {
      assert rs[k] in Children(root, [], entries);
    }
  }

  /**
   * Two sorted lists without repeats that hold the same nodes are equal,
   * when the order ties no two different nodes among them.
   */
  lemma {:induction false} SortedUnique(a: seq<TreeNode>, b: seq<TreeNode>)
    requires Sorted(a) && Sorted(b)
    requires forall i, j :: 0 <= i < j < |a| ==> a[i] != a[j]
    requires forall i, j :: 0 <= i < j < |b| ==> b[i] != b[j]
    requires forall n :: n in a <==> n in b
    requires forall m, n :: m in a && n in a && NodeLeq(m, n) && NodeLeq(n, m) ==> m == n
    ensures a == b
    decreases |a|
  {
    if b != [] {
      assert b[0] in b;
    }
    if a != [] {
      assert a[0] in a && b[0] in b;
      assert a[0] == b[0];
      TailMembers(a);
      TailMembers(b);
      SortedUnique(a[1..], b[1..]);
      assert a == [a[0]] + a[1..] && b == [b[0]] + b[1..];
    }
  }

  /** The rest of a list without repeats holds all its nodes but the first. */
  lemma {:induction false} TailMembers(a: seq<TreeNode>)
    requires a != []
    requires forall i, j :: 0 <= i < j < |a| ==> a[i] != a[j]
    ensures forall n :: n in a[1..] <==> (n in a && n != a[0])
  {
    forall n | n in a && n != a[0] ensures n in a[1..] {
      var k :| 0 <= k < |a| && a[k] == n;
      assert a[1..][k - 1] == n;
    }
  }

  /** Two children of one folder that the order ties are the same node. */
  lemma {:induction false} ChildrenTiesAreEqual(root: string, dir: seq<string>, entries: seq<ProjectEntry>, m: TreeNode, n: TreeNode)
    requires m in Children(root, dir, entries) && n in Children(root, dir, entries)
    requires NodeLeq(m, n) && NodeLeq(n, m)
    ensures m == n
  {
    ChildrenContract(root, dir, entries);
    var e1 :| e1 in entries && ChildOf(root, dir, e1) == Some(m);
    var e2 :| e2 in entries && ChildOf(root, dir, e2) == Some(n);
    BelowAntisymmetric(m.uri, n.uri);
    var p := UriOf(root, dir) + "/";
    assert p + m.name == p + n.name;
    assert m.name == (p + m.name)[|p|..] && n.name == (p + n.name)[|p|..];
  }

  /**
   * The children of a folder do not depend on the order of the entries or
   * on repeated entries: an entry nested in a folder that is listed before
   * the folder's own entry lands under it all the same.
   */
  lemma {:induction false} EntryOrderIrrelevant(root: string, dir: seq<string>, entries: seq<ProjectEntry>, others: seq<ProjectEntry>)
    requires forall e :: e in entries <==> e in others
    ensures Children(root, dir, entries) == Children(root, dir, others)
  {
    var a, b := Children(root, dir, entries), Children(root, dir, others);
    ChildrenContract(root, dir, entries);
    ChildrenContract(root, dir, others);
    forall m, n | m in a && n in a && NodeLeq(m, n) && NodeLeq(n, m) ensures m == n {
      ChildrenTiesAreEqual(root, dir, entries, m, n);
    }
    SortedUnique(a, b);
  }

  /** Listing an entry a second time changes no folder's children. */
  lemma {:induction false} DuplicateEntryIrrelevant(root: string, dir: seq<string>, entries: seq<ProjectEntry>, e: ProjectEntry)
    requires e in entries
    ensures Children(root, dir, entries + [e]) == Children(root, dir, entries)
  {
    EntryOrderIrrelevant(root, dir, entries + [e], entries);
  }

  /**
   * The project the tree is built from, as far as the tree goes: the URI
   * path of its project file and its entries in the order they were added.
   */
  class Project {
    const root: string
    var files: seq<ProjectEntry>

    constructor (root: string)
      ensures this.root == root && files == []
    {
      this.root := root;
      files := [];
    }

    /** The children of the project's root tree item. */
    function RootItems(): seq<TreeNode>
      reads this
    {
      RootChildren(root, files)
    }

    /** `files.push(entry)`: the entry is added last; a repeated entry leaves the tree as it was. */
    method AddEntry(e: ProjectEntry)
      modifies this
      ensures files == old(files) + [e]
      ensures e in old(files) ==> RootItems() == old(RootItems())
    {
      if e in files {
        DuplicateEntryIrrelevant(root, [], files, e);
      }
      files := files + [e];
    }
  }

  // ---------------------------------------------------------------------
  // The tree of the second test

  /** The node named `name` of type `t` directly under the folder at `dir`. */
  function NodeUnder(root: string, dir: seq<string>, name: string, t: ItemType): TreeNode {
    TreeNode(t, name, UriOf(root, dir) + "/" + name)
  }

  /** Siblings are ordered by URI path exactly as they are by name. */
  lemma {:induction false} SiblingOrder(root: string, dir: seq<string>, a: string, b: string)
    ensures Below(NodeUnder(root, dir, a, FileItem).uri, NodeUnder(root, dir, b, FileItem).uri) <==> Below(a, b)
  {
    var p := UriOf(root, dir) + "/";
    assert UriOf(root, dir) + "/" + a == p + a && UriOf(root, dir) + "/" + b == p + b;
    BelowSharedPrefix(p, a, b);
  }

  /**
   * A folder's children are a given list when that list is sorted, holds no
   * node twice, and holds exactly the nodes the entries put under the folder.
   */
  lemma {:induction false} ChildrenAre(root: string, dir: seq<string>, entries: seq<ProjectEntry>, expected: seq<TreeNode>)
    requires Sorted(expected)
    requires forall i, j :: 0 <= i < j < |expected| ==> expected[i] != expected[j]
    requires forall n :: n in expected <==> exists e :: e in entries && ChildOf(root, dir, e) == Some(n)
    ensures Children(root, dir, entries) == expected
  {
    var cs := Children(root, dir, entries);
    ChildrenContract(root, dir, entries);
    forall m, n | m in cs && n in cs && NodeLeq(m, n) && NodeLeq(n, m) ensures m == n {
      ChildrenTiesAreEqual(root, dir, entries, m, n);
    }
    SortedUnique(cs, expected);
  }

  /** The entries the second tree test pushes, nested ones before their folder, duplicates twice. */
  function TestEntries(): seq<ProjectEntry> {
    [ProjectEntry(["someFolder", "bNestedTest.sql"], File),
     ProjectEntry(["someFolder", "bNestedFolder"], Folder),
     ProjectEntry(["someFolder", "aNestedTest.sql"], File),
     ProjectEntry(["someFolder", "aNestedFolder"], Folder),
     ProjectEntry(["someFolder"], Folder),
     ProjectEntry(["duplicate.sql"], File),
     ProjectEntry(["duplicate.sql"], File),
     ProjectEntry(["duplicateFolder"], Folder),
     ProjectEntry(["duplicateFolder"], Folder)]
  }

  /** The nodes the entries put under a folder are those of a given list when each entry's node is in it and each of its nodes comes from an entry. */
  lemma {:induction false} MembersFromEntries(root: string, dir: seq<string>, entries: seq<ProjectEntry>, expected: seq<TreeNode>)
    requires forall i :: 0 <= i < |entries| ==> ChildOf(root, dir, entries[i]).None? || ChildOf(root, dir, entries[i]).value in expected
    requires forall k :: 0 <= k < |expected| ==> exists i :: 0 <= i < |entries| && ChildOf(root, dir, entries[i]) == Some(expected[k])
    ensures forall n :: n in expected <==> exists e :: e in entries && ChildOf(root, dir, e) == Some(n)
  {
    forall n ensures n in expected <==> exists e :: e in entries && ChildOf(root, dir, e) == Some(n) {
      if n in expected {
        var k :| 0 <= k < |expected| && expected[k] == n;
        var i :| 0 <= i < |entries| && ChildOf(root, dir, entries[i]) == Some(expected[k]);
        assert entries[i] in entries;
      }
      if exists e :: e in entries && ChildOf(root, dir, e) == Some(n) {
        var e :| e in entries && ChildOf(root, dir, e) == Some(n);
        var i :| 0 <= i < |entries| && entries[i] == e;
      }
    }
  }

  /** The nodes the second test's entries put under its folder: the four nested ones. */
  lemma {:induction false} TestFolderCandidates(root: string)
    ensures var dir := ["someFolder"];
      var es := TestEntries();
      forall i :: 0 <= i < |es| ==>
        ChildOf(root, dir, es[i]) ==
          if i == 0 then Some(NodeUnder(root, dir, "bNestedTest.sql", FileItem))
          else if i == 1 then Some(NodeUnder(root, dir, "bNestedFolder", FolderItem))
          else if i == 2 then Some(NodeUnder(root, dir, "aNestedTest.sql", FileItem))
          else if i == 3 then Some(NodeUnder(root, dir, "aNestedFolder", FolderItem))
          else None
  {
  }

  /** The nodes the second test's entries put under the root: the folder, the duplicated file and the duplicated folder. */
  lemma {:induction false} TestRootCandidates(root: string)
    ensures var dir: seq<string> := [];
      var es := TestEntries();
      forall i :: 0 <= i < |es| ==>
        ChildOf(root, dir, es[i]) ==
          if i <= 4 then Some(NodeUnder(root, dir, "someFolder", FolderItem))
          else if i <= 6 then Some(NodeUnder(root, dir, "duplicate.sql", FileItem))
          else Some(NodeUnder(root, dir, "duplicateFolder", FolderItem))
  {
  }

  /** What the second test expects under its folder: the two folders, then the two files, each pair by name. */
  function TestFolderExpected(root: string): seq<TreeNode> {
    var dir := ["someFolder"];
    [NodeUnder(root, dir, "aNestedFolder", FolderItem), NodeUnder(root, dir, "bNestedFolder", FolderItem),
     NodeUnder(root, dir, "aNestedTest.sql", FileItem), NodeUnder(root, dir, "bNestedTest.sql", FileItem)]
  }

  /** What the second test expects under the root after the two fixed nodes. */
  function TestRootExpected(root: string): seq<TreeNode> {
    var dir: seq<string> := [];
    [NodeUnder(root, dir, "duplicateFolder", FolderItem), NodeUnder(root, dir, "someFolder", FolderItem),
     NodeUnder(root, dir, "duplicate.sql", FileItem)]
  }

  /** The expected folder list is sorted. */
  lemma {:induction false} TestFolderExpectedSorted(root: string)
    ensures Sorted(TestFolderExpected(root))
  {
    var dir := ["someFolder"];
    SiblingOrder(root, dir, "aNestedFolder", "bNestedFolder");
    SiblingOrder(root, dir, "aNestedTest.sql", "bNestedTest.sql");
  }

  /** The expected folder list has no repeats. */
  lemma {:induction false} TestFolderExpectedDistinct(root: string)
    ensures var expected := TestFolderExpected(root);
      forall i, j :: 0 <= i < j < |expected| ==> expected[i] != expected[j]
  {
    var expected := TestFolderExpected(root);
    assert expected[0].name[0] == expected[2].name[0] == 'a';
    assert expected[1].name[0] == expected[3].name[0] == 'b';
    assert expected[0].itemType != expected[2].itemType;
  }

  /** The expected folder list holds exactly the nodes the entries put there. */
  lemma {:induction false} TestFolderExpectedMembers(root: string)
    ensures forall n :: n in TestFolderExpected(root) <==> exists e :: e in TestEntries() && ChildOf(root, ["someFolder"], e) == Some(n)
  {
    var dir := ["someFolder"];
    var es := TestEntries();
    var expected := TestFolderExpected(root);
    TestFolderCandidates(root);
    assert ChildOf(root, dir, es[3]) == Some(expected[0]);
    assert ChildOf(root, dir, es[1]) == Some(expected[1]);
    assert ChildOf(root, dir, es[2]) == Some(expected[2]);
    assert ChildOf(root, dir, es[0]) == Some(expected[3]);
    MembersFromEntries(root, dir, es, expected);
  }

  /** The same for the root's entries. */
  lemma {:induction false} TestRootExpectedFacts(root: string)
    ensures var expected := TestRootExpected(root);
      && Sorted(expected)
      && (forall i, j :: 0 <= i < j < |expected| ==> expected[i] != expected[j])
      && (forall n :: n in expected <==> exists e :: e in TestEntries() && ChildOf(root, [], e) == Some(n))
  {
    var dir: seq<string> := [];
    var es := TestEntries();
    var expected := TestRootExpected(root);
    SiblingOrder(root, dir, "duplicateFolder", "someFolder");
    assert Sorted(expected);
    TestRootCandidates(root);
    assert ChildOf(root, dir, es[7]) == Some(expected[0]);
    assert ChildOf(root, dir, es[4]) == Some(expected[1]);
    assert ChildOf(root, dir, es[5]) == Some(expected[2]);
    MembersFromEntries(root, dir, es, expected);
  }

  /**
   * The second test's folder lists its two folders, then its two files,
   * each pair by name, although its nested entries come before its own.
   */
  lemma {:induction false} TestFolderChildren(root: string)
    ensures Children(root, ["someFolder"], TestEntries()) == TestFolderExpected(root)
  {
    TestFolderExpectedSorted(root);
    TestFolderExpectedDistinct(root);
    TestFolderExpectedMembers(root);
    ChildrenAre(root, ["someFolder"], TestEntries(), TestFolderExpected(root));
  }

  /**
   * The second test's root lists data sources, database references, then
   * its two folders and its one file: each duplicate entry once.
   */
  lemma {:induction false} TestRootChildren(root: string)
    ensures RootChildren(root, TestEntries()) ==
            [TreeNode(DataSourceRoot, DataSourcesName, UriOf(root, [DataSourcesName])),
             TreeNode(ReferencesRoot, DatabaseReferencesName, UriOf(root, [DatabaseReferencesName]))]
            + TestRootExpected(root)
  {
    TestRootExpectedFacts(root);
    ChildrenAre(root, [], TestEntries(), TestRootExpected(root));
  }
}
