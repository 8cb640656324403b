/** FileScanner and validate_unique_targets: the lists a scan produces, in an order in which the receiver can
    make them, and when it will accept them. */
module DirectoryOrder {
  import opened Results
  import opened Paths
  import opened Session
  import opened SessionInvariant

  // ---------- sorting ----------

  /** std::string's operator<. */
  predicate Less(a: string, b: string) {
    b != "" && (a == "" || a[0] < b[0] || (a[0] == b[0] && Less(a[1..], b[1..])))
  }

  lemma {:induction false} LessTotal(a: string, b: string)
    ensures a == b || Less(a, b) || Less(b, a)
  {
    if a != "" && b != "" && a[0] == b[0] {
      LessTotal(a[1..], b[1..]);
      assert a == [a[0]] + a[1..] && b == [b[0]] + b[1..];
    }
  }

  lemma {:induction false} LessTransitive(a: string, b: string, c: string)
    requires Less(a, b) && Less(b, c)
    ensures Less(a, c)
  {
    if a != "" && a[0] == b[0] == c[0] {
      LessTransitive(a[1..], b[1..], c[1..]);
    }
  }

  lemma {:induction false} LessIrreflexive(a: string)
    ensures !Less(a, a)
  {
    if a != "" {
      LessIrreflexive(a[1..]);
    }
  }

  lemma {:induction false} PrefixIsLess(a: string, b: string)
    requires a < b
    ensures Less(a, b)
  {
    if a != "" {
      assert a[0] == b[0] && a[1..] < b[1..];
      PrefixIsLess(a[1..], b[1..]);
    }
  }

  /** The first difference decides, by the characters' order. */
  lemma {:induction false} FirstDifference(same: string, c: char, d: char, a: string, b: string)
    requires c != d
    ensures Less(same + [c] + a, same + [d] + b) <==> c < d
  {
    var x, y := same + [c] + a, same + [d] + b;
    if same == "" {
      assert x[0] == c && y[0] == d;
    } else {
      assert x[1..] == same[1..] + [c] + a && y[1..] == same[1..] + [d] + b;
      FirstDifference(same[1..], c, d, a, b);
    }
  }

  predicate Sorted(s: seq<string>) { forall i, j :: 0 <= i < j < |s| ==> !Less(s[j], s[i]) }

  /** Inserts behind everything that is not greater. */
  method InsertSorted(s: seq<string>, path: string) returns (r: seq<string>)
    requires Sorted(s)
    ensures Sorted(r) && multiset(r) == multiset(s) + multiset{path}
  {
    hide Sorted;
    var k := |s|;
    while k > 0 && Less(path, s[k - 1])
      invariant 0 <= k <= |s|
      invariant forall j :: k <= j < |s| ==> Less(path, s[j])
    {
      k := k - 1;
    }
    r := s[..k] + [path] + s[k..];
    forall j | 0 <= j < k
      ensures !Less(path, s[j])
    {
      if Less(path, s[j]) {
        NotGreater(s, j, k - 1, path);
      }
    }
    forall j | k <= j < |s|
      ensures !Less(s[j], path)
    {
      if Less(s[j], path) {
        LessTransitive(path, s[j], path);
        LessIrreflexive(path);
      }
    }
    Inserted(s, k, path);
  }

  lemma Inserted(s: seq<string>, k: nat, path: string)
    requires Sorted(s) && k <= |s|
    requires forall j :: 0 <= j < k ==> !Less(path, s[j])
    requires forall j :: k <= j < |s| ==> !Less(s[j], path)
    ensures Sorted(s[..k] + [path] + s[k..])
    ensures multiset(s[..k] + [path] + s[k..]) == multiset(s) + multiset{path}
  {
    hide Less;
    var r := s[..k] + [path] + s[k..];
    assert s == s[..k] + s[k..];
    forall i, j | 0 <= i < j < |r|
      ensures !Less(r[j], r[i])
    {
      var before := if i < k then i else i - 1;
      var after := if j < k then j else j - 1;
      assert i != k ==> r[i] == s[before];
      assert j != k ==> r[j] == s[after];
    }
  }

  lemma NotGreater(s: seq<string>, j: nat, k: nat, path: string)
    requires Sorted(s) && j <= k < |s| && Less(path, s[j])
    ensures Less(path, s[k])
  {
    if j < k {
      LessTotal(s[j], s[k]);
      if Less(s[j], s[k]) {
        LessTransitive(path, s[j], s[k]);
      }
    }
  }

  /** std::sort by relative path. */
  method SortPaths(paths: seq<string>) returns (r: seq<string>)
    ensures Sorted(r) && multiset(r) == multiset(paths)
  {
    r := [];
    for k := 0 to |paths|
      invariant Sorted(r) && multiset(r) == multiset(paths[..k])
    {
      assert paths[..k + 1] == paths[..k] + [paths[k]];
      r := InsertSorted(r, paths[k]);
    }
    assert paths[..|paths|] == paths;
  }

  /** Sorting puts every directory in front of what is inside it. */
  lemma SortedIsOrdered(s: seq<string>)
    requires Sorted(s)
    ensures Ordered(s)
  {
    hide Less;
    forall i, j | 0 <= i < j < |s|
      ensures s[j] !in Ancestors(s[i])
    {
      if s[j] in Ancestors(s[i]) {
        AncestorIsShorter(s[j], s[i]);
        PrefixIsLess(s[j], s[i]);
      }
    }
  }

  /** No entry is a parent directory of an earlier one. */
  predicate Ordered(s: seq<string>) { forall i, j :: 0 <= i < j < |s| ==> s[j] !in Ancestors(s[i]) }

  predicate Distinct(s: seq<string>) { forall i, j :: 0 <= i < j < |s| ==> s[i] != s[j] }

  // ---------- scanning ----------

  /** One input path: a file, or a directory with the relative paths of what is below it. */
  datatype Root =
    | FileRoot(name: string)
    | DirectoryRoot(name: string, dirs: seq<string>, files: seq<string>)

  function Under(name: string, relative: string): string { name + "/" + relative }

  function AllUnder(name: string, relatives: seq<string>): seq<string> {
    if relatives == [] then [] else AllUnder(name, relatives[..|relatives| - 1]) + [Under(name, relatives[|relatives| - 1])]
  }

  predicate Component(name: string) { name != "" && '/' !in name }

  /** A directory tree: entries are named by the file system, so never "." or "..", and every parent of
      something in the tree is a directory in it.  A directory itself may be given as "." or "..". */
  predicate RootOk(root: Root) {
    && Component(root.name)
    && (root.FileRoot? ==> !Dots(root.name))
    && (root.DirectoryRoot? ==>
          && (forall d <- root.dirs :: Plain(d) && ParentsIn(root.dirs, d))
          && (forall f <- root.files :: Plain(f) && ParentsIn(root.dirs, f)))
  }

  predicate Dots(name: string) { name == "." || name == ".." }

  predicate ParentsIn(dirs: seq<string>, path: string) { forall a <- Ancestors(path) :: a in dirs }

  function FilesIn(root: Root): seq<string> {
    if root.FileRoot? then [root.name] else AllUnder(root.name, root.files)
  }

  function DirectoriesIn(root: Root): seq<string> {
    if root.FileRoot? then [] else [root.name] + AllUnder(root.name, root.dirs)
  }

  lemma SameMembers(a: seq<string>, b: seq<string>, x: string)
    requires multiset(a) == multiset(b)
    ensures x in a <==> x in b
  {
    assert x in a <==> x in multiset(a);
    assert x in b <==> x in multiset(b);
  }

  lemma {:induction false} InAllUnder(name: string, relatives: seq<string>, path: string)
    ensures path in AllUnder(name, relatives) <==> exists r :: r in relatives && path == Under(name, r)
  {
    if relatives != [] {
      var k := |relatives| - 1;
      InAllUnder(name, relatives[..k], path);
      assert relatives == relatives[..k] + [relatives[k]];
    }
  }

  lemma {:induction false} UnderLength(name: string, relatives: seq<string>)
    ensures |AllUnder(name, relatives)| == |relatives|
  {
    if relatives != [] {
      UnderLength(name, relatives[..|relatives| - 1]);
    }
  }

  /** What is in the unsorted lists. */
  lemma EntriesAre(root: Root)
    requires root.DirectoryRoot?
    ensures |AllUnder(root.name, root.files)| == |root.files| && |AllUnder(root.name, root.dirs)| == |root.dirs|
    ensures forall path :: path in AllUnder(root.name, root.files) <==> exists r :: r in root.files && path == root.name + "/" + r
    ensures forall path :: path in AllUnder(root.name, root.dirs) <==> exists r :: r in root.dirs && path == root.name + "/" + r
  {
    UnderLength(root.name, root.files);
    UnderLength(root.name, root.dirs);
    forall path
      ensures path in AllUnder(root.name, root.files) <==> exists r :: r in root.files && path == root.name + "/" + r
      ensures path in AllUnder(root.name, root.dirs) <==> exists r :: r in root.dirs && path == root.name + "/" + r
    {
      InAllUnder(root.name, root.files, path);
      InAllUnder(root.name, root.dirs, path);
    }
  }

  lemma SameEntries(a: seq<string>, b: seq<string>)
    requires multiset(a) == multiset(b)
    ensures |a| == |b| && forall x :: x in a <==> x in b
  {
    assert |a| == |multiset(a)| == |multiset(b)| == |b|;
    forall x
      ensures x in a <==> x in b
    {
      SameMembers(a, b, x);
    }
  }

  /** scan_files. */
  method ScanFiles(root: Root) returns (entries: seq<string>)
    ensures Scanned(root, entries, FilesIn(root))
    ensures root.FileRoot? ==> entries == [root.name]
    ensures root.DirectoryRoot? ==>
              && |entries| == |root.files|
              && forall path :: path in entries <==> exists r :: r in root.files && path == root.name + "/" + r
  {
    if root.FileRoot? {
      return [root.name];
    }
    EntriesAre(root);
    entries := [];
    for k := 0 to |root.files|
      invariant entries == AllUnder(root.name, root.files[..k])
    {
      assert root.files[..k + 1][..k] == root.files[..k];
      entries := entries + [Under(root.name, root.files[k])];
    }
    assert root.files[..|root.files|] == root.files;
    ghost var unsorted := entries;
    entries := SortPaths(entries);
    SameEntries(entries, unsorted);
  }

  /** scan_directories. */
  method ScanDirectories(root: Root) returns (entries: seq<string>)
    ensures Scanned(root, entries, DirectoriesIn(root))
    ensures root.FileRoot? ==> entries == []
    ensures root.DirectoryRoot? ==>
              && |entries| == |root.dirs| + 1
              && forall path :: path in entries <==> path == root.name || exists r :: r in root.dirs && path == root.name + "/" + r
  {
    if root.FileRoot? {
      return [];
    }
    EntriesAre(root);
    entries := [root.name];
    for k := 0 to |root.dirs|
      invariant entries == [root.name] + AllUnder(root.name, root.dirs[..k])
    {
      assert root.dirs[..k + 1][..k] == root.dirs[..k];
      entries := entries + [Under(root.name, root.dirs[k])];
    }
    assert root.dirs[..|root.dirs|] == root.dirs;
    ghost var unsorted := entries;
    entries := SortPaths(entries);
    SameEntries(entries, unsorted);
  }

  predicate Scanned(root: Root, entries: seq<string>, expected: seq<string>) {
    Sorted(entries) && multiset(entries) == multiset(expected)
  }

  lemma AncestorsUnder(name: string, relative: string, a: string)
    requires Component(name)
    ensures a in Ancestors(Under(name, relative)) <==>
            a == name || exists r :: r in Ancestors(relative) && a == Under(name, r)
  {
    var path := Under(name, relative);
    forall k | 0 <= k < |name|
      ensures path[k] != '/'
    {
      assert path[k] == name[k] && name[k] in name;
    }
    if a in Ancestors(path) {
      AncestorIsShorter(a, path);
      if |a| == |name| {
        assert a == path[..|a|] == name;
      } else {
        var k := |a| - |name| - 1;
        assert path[|a|] == relative[k];
        assert a == path[..|a|] == Under(name, relative[..k]);
        assert relative[..k] in Ancestors(relative);
      }
    }
    if a == name {
      assert path[..|name|] == name && path[|name|] == '/';
    }
    if r :| r in Ancestors(relative) && a == Under(name, r) {
      AncestorIsShorter(r, relative);
      assert path[..|a|] == a && path[|a|] == '/';
    }
  }

  /** Every parent of a scanned entry is a scanned directory of the same root. */
  lemma ParentsAreScanned(root: Root, path: string, a: string)
    requires RootOk(root) && (path in DirectoriesIn(root) || path in FilesIn(root)) && a in Ancestors(path)
    ensures a in DirectoriesIn(root)
  {
    NoParents(root.name);
    InAllUnder(root.name, root.dirs, path);
    InAllUnder(root.name, root.files, path);
    var r :| (r in root.dirs || r in root.files) && path == Under(root.name, r);
    AncestorsUnder(root.name, r, a);
    if a != root.name {
      var b :| b in Ancestors(r) && a == Under(root.name, b);
      InAllUnder(root.name, root.dirs, a);
    }
  }

  lemma NoParents(name: string)
    requires Component(name)
    ensures Ancestors(name) == {}
  {
    forall k | 0 <= k < |name|
      ensures name[k] != '/'
    {
      assert name[k] in name;
    }
  }

  /** Scanned paths are made of names, unless the root is "." or "..". */
  lemma ScannedIsPlain(root: Root, path: string)
    requires RootOk(root) && !Dots(root.name) && (path in DirectoriesIn(root) || path in FilesIn(root))
    ensures Plain(path)
  {
    ComponentsUnder(root.name, "");
    if path != root.name {
      InAllUnder(root.name, root.dirs, path);
      InAllUnder(root.name, root.files, path);
      var r :| (r in root.dirs || r in root.files) && path == Under(root.name, r);
      ComponentsUnder(root.name, r);
    }
  }

  /** Where the two roots with dots lead. */
  lemma DotsLead(name: string)
    requires Dots(name)
    ensures name == ".." ==> !SafePath(name)
    ensures name == "." ==> Place(name) == "" && SafePath(name) && LastComponent(name) == "."
  {
    ComponentsUnder(name, "");
    assert name in Components(name);
    if name == "." {
      assert Steps([name]) == [];
    }
  }

  /** The receiver refuses a directory ".." on every disk, and "." exactly where save_dir exists already. */
  lemma DotsAreRefused(r: Receiver, store: Store)
    requires r.pc.RDirectory? && "" !in store.files
    ensures TakeDirectory(r, store, "..").0.RFailed?
    ensures TakeDirectory(r, store, ".").0.RFailed? <==> "" in store.dirs
  {
    DotsLead("..");
    DotsLead(".");
    hide Place;
    hide SafePath;
    hide LastComponent;
  }

  /** Scanned paths below "." lead where they would without it. */
  lemma {:induction false} BelowDot(r: string)
    requires Plain(r)
    ensures Place(Under(".", r)) == r && SafePath(Under(".", r)) && EndsInName(Under(".", r))
    ensures LastComponent(Under(".", r)) != ""
  {
    var path := Under(".", r);
    ComponentsUnder(".", r);
    PlainLeadsToItself(r);
    var cs := Components(r);
    assert Components(path) == ["."] + cs;
    assert (["."] + cs)[1..] == cs;
    assert Steps(["."] + cs) == Steps(cs);
    assert LastComponent(path) == LastComponent(r);
  }

  /** A scanned path leads to itself, to what is behind "./", or to save_dir. */
  predicate Leads(root: Root, path: string) {
    if root.name != "." then Plain(path) && Place(path) == path
    else (path == "." && Place(path) == "")
         || (Plain(Place(path)) && path == Under(".", Place(path)) && EndsInName(path))
  }

  lemma ScannedLeads(root: Root, path: string)
    requires RootOk(root) && root.name != ".." && (path in DirectoriesIn(root) || path in FilesIn(root))
    ensures Leads(root, path) && SafePath(path) && LastComponent(path) != "" && path != ""
    ensures path in FilesIn(root) ==> EndsInName(path) && Place(path) != ""
  {
    if root.name == "." {
      DotsLead(".");
      InAllUnder(root.name, root.dirs, path);
      InAllUnder(root.name, root.files, path);
      if path != "." || path in FilesIn(root) {
        var r :| (r in root.dirs || r in root.files) && path == Under(".", r);
        BelowDot(r);
        PlainLeadsToItself(r);
      }
    } else {
      ScannedIsPlain(root, path);
      PlainLeadsToItself(path);
    }
  }

  /** The part of a path in front of its first slash. */
  function First(path: string): string {
    if path == "" || path[0] == '/' then "" else [path[0]] + First(path[1..])
  }

  lemma {:induction false} FirstOf(name: string, rest: string)
    requires '/' !in name
    ensures First(name) == name && First(name + "/" + rest) == name
  {
    var path := name + "/" + rest;
    if name != "" {
      assert path[1..] == name[1..] + "/" + rest;
      FirstOf(name[1..], rest);
      assert name[0] in name;
    }
  }

  lemma {:induction false} AncestorKeepsFirst(a: string, path: string)
    requires a in Ancestors(path) && path[0] != '/'
    ensures First(a) == First(path)
  {
    AncestorIsShorter(a, path);
    if a == "" {
    } else if path[1..] == "" || path[1] == '/' {
    } else {
      assert a[0] == path[0];
      if |a| > 1 {
        assert a[1..] == path[1..][..|a| - 1] && path[1..][|a| - 1] == '/';
        AncestorKeepsFirst(a[1..], path[1..]);
      }
    }
  }

  lemma ScannedFirst(root: Root, path: string)
    requires RootOk(root) && path in DirectoriesIn(root)
    ensures path != "" && path[0] != '/' && First(path) == root.name
  {
    FirstOf(root.name, "");
    assert root.name[0] in root.name;
    if path != root.name {
      InAllUnder(root.name, root.dirs, path);
      var r :| r in root.dirs && path == Under(root.name, r);
      FirstOf(root.name, r);
    }
  }

  // ---------- several roots ----------

  function Flatten(lists: seq<seq<string>>): seq<string> {
    if lists == [] then [] else Flatten(lists[..|lists| - 1]) + lists[|lists| - 1]
  }

  /** What SendService collects: for each input path its directories and its files, in the order given. */
  predicate Collected(roots: seq<Root>, dirs: seq<seq<string>>, files: seq<seq<string>>) {
    && |dirs| == |files| == |roots|
    && forall k :: 0 <= k < |roots| ==> RootScan(roots[k], dirs[k], files[k])
  }

  predicate RootScan(root: Root, dirs: seq<string>, files: seq<string>) {
    RootOk(root) && Scanned(root, dirs, DirectoriesIn(root)) && Scanned(root, files, FilesIn(root))
  }

  /** What the loop of SendService::send over the input paths collects. */
  method Collect(roots: seq<Root>)
    returns (files: seq<string>, directories: seq<string>, ghost dirs: seq<seq<string>>, ghost scans: seq<seq<string>>)
    requires forall root <- roots :: RootOk(root)
    ensures Collected(roots, dirs, scans) && files == Flatten(scans) && directories == Flatten(dirs)
  {
    hide RootScan;
    hide Flatten;
    files, directories, dirs, scans := [], [], [], [];
    FlattenNone();
    for k := 0 to |roots|
      invariant |dirs| == |scans| == k && forall j :: 0 <= j < k ==> RootScan(roots[j], dirs[j], scans[j])
      invariant files == Flatten(scans) && directories == Flatten(dirs)
    {
      assert roots[k] in roots;
      ghost var scan, scan2;
      files, directories, scan, scan2 := CollectRoot(roots[k], files, directories);
      FlattenSnoc(scans, scan);
      FlattenSnoc(dirs, scan2);
      scans, dirs := scans + [scan], dirs + [scan2];
    }
  }

  /** One round of that loop. */
  method CollectRoot(root: Root, files: seq<string>, directories: seq<string>)
    returns (moreFiles: seq<string>, moreDirectories: seq<string>, ghost scan: seq<string>, ghost dirs: seq<string>)
    requires RootOk(root)
    ensures RootScan(root, dirs, scan) && moreFiles == files + scan && moreDirectories == directories + dirs
  {
    var scanned := ScanFiles(root);
    moreFiles, scan := files + scanned, scanned;
    var scannedDirectories := ScanDirectories(root);
    moreDirectories, dirs := directories + scannedDirectories, scannedDirectories;
  }

  lemma FlattenNone()
    ensures Flatten([]) == []
  {
  }

  lemma FlattenSnoc(lists: seq<seq<string>>, last: seq<string>)
    ensures Flatten(lists + [last]) == Flatten(lists) + last
  {
    assert (lists + [last])[..|lists|] == lists;
  }

  /** Each scan is in the whole list, behind those of earlier inputs and in front of those of later ones. */
  lemma {:induction false} FlattenAt(lists: seq<seq<string>>, k: nat)
    requires k < |lists|
    ensures Flatten(lists) == Flatten(lists[..k]) + lists[k] + Flatten(lists[k + 1..])
  {
    var n := |lists| - 1;
    var init := lists[..n];
    if k == n {
      assert lists[k + 1..] == [];
    } else {
      FlattenAt(init, k);
      assert init[..k] == lists[..k];
      assert lists[k + 1..][..n - k - 1] == init[k + 1..];
    }
  }

  lemma {:induction false} InJoined(lists: seq<seq<string>>, x: string)
    ensures x in Flatten(lists) <==> exists k :: 0 <= k < |lists| && x in lists[k]
  {
    if lists != [] {
      var n := |lists| - 1;
      InJoined(lists[..n], x);
      if x in lists[n] {
        assert 0 <= n < |lists| && x in lists[n];
      }
      if x in Flatten(lists[..n]) {
        var k :| 0 <= k < n && x in lists[..n][k];
        assert x in lists[k];
      }
    }
  }

  lemma AllParentsJoined(roots: seq<Root>, dirs: seq<seq<string>>, files: seq<seq<string>>, path: string, a: string)
    requires Collected(roots, dirs, files) && (path in Flatten(dirs) || path in Flatten(files)) && a in Ancestors(path)
    ensures a in Flatten(dirs)
  {
    InJoined(dirs, path);
    InJoined(files, path);
    var k :| 0 <= k < |roots| && (path in dirs[k] || path in files[k]);
    SameMembers(dirs[k], DirectoriesIn(roots[k]), path);
    SameMembers(files[k], FilesIn(roots[k]), path);
    ParentsAreScanned(roots[k], path, a);
    SameMembers(dirs[k], DirectoriesIn(roots[k]), a);
    InJoined(dirs, a);
  }

  lemma OrderedConcat(a: seq<string>, b: seq<string>)
    requires Ordered(a) && Ordered(b)
    requires forall p, q :: p in a && q in b ==> q !in Ancestors(p)
    ensures Ordered(a + b)
  {
    hide Ancestors;
    var all := a + b;
    forall i, j | 0 <= i < j < |all|
      ensures all[j] !in Ancestors(all[i])
    {
      if j < |a| {
        assert a[j] !in Ancestors(a[i]);
      } else if i < |a| {
        assert a[i] in a && b[j - |a|] in b;
      } else {
        assert b[j - |a|] !in Ancestors(b[i - |a|]);
      }
    }
  }

  /** Distinct targets make the joined list ordered, too: two trees cannot share a root name. */
  lemma {:induction false} JoinedIsOrdered(roots: seq<Root>, dirs: seq<seq<string>>, files: seq<seq<string>>)
    requires Collected(roots, dirs, files) && Distinct(Flatten(dirs))
    ensures Ordered(Flatten(dirs))
    decreases |roots|
  {
    hide Ancestors;
    hide Ordered;
    hide Collected;
    hide Distinct;
    hide Disjoint;
    hide Flatten;
    CollectedParts(roots, dirs, files);
    if roots == [] {
      NothingIsOrdered();
    } else {
      var n := |roots| - 1;
      var front, last := Flatten(dirs[..n]), dirs[n];
      DistinctConcat(front, last);
      JoinedIsOrdered(roots[..n], dirs[..n], files[..n]);
      SortedIsOrdered(last);
      forall p, q | p in front && q in last
        ensures q !in Ancestors(p)
      {
        if q in Ancestors(p) {
          SharedRoot(roots, dirs, files, n, p, q);
          NotDistinct(front, last, roots[n].name);
        }
      }
      OrderedConcat(front, last);
    }
  }

  lemma CollectedParts(roots: seq<Root>, dirs: seq<seq<string>>, files: seq<seq<string>>)
    requires Collected(roots, dirs, files)
    ensures |dirs| == |files| == |roots|
    ensures roots == [] ==> dirs == []
    ensures roots != [] ==>
              var n := |roots| - 1;
              && Collected(roots[..n], dirs[..n], files[..n]) && Sorted(dirs[n])
              && Flatten(dirs) == Flatten(dirs[..n]) + dirs[n]
  {
    hide RootScan;
    hide Flatten;
    hide Sorted;
    if roots != [] {
      var n := |roots| - 1;
      assert forall k :: 0 <= k < n ==> RootScan(roots[..n][k], dirs[..n][k], files[..n][k]) by {
        assert forall k :: 0 <= k < n ==> roots[..n][k] == roots[k] && dirs[..n][k] == dirs[k] && files[..n][k] == files[k];
      }
      ScannedIsSorted(roots[n], dirs[n], files[n]);
      JoinedSplit(dirs);
    }
  }

  lemma ScannedIsSorted(root: Root, dirs: seq<string>, files: seq<string>)
    requires RootScan(root, dirs, files)
    ensures Sorted(dirs)
  {
    hide Sorted;
    hide RootOk;
  }

  lemma JoinedSplit(lists: seq<seq<string>>)
    requires lists != []
    ensures Flatten(lists) == Flatten(lists[..|lists| - 1]) + lists[|lists| - 1]
  {
  }

  lemma NothingIsOrdered()
    ensures Ordered(Flatten([]))
  {
  }

  lemma NotDistinct(a: seq<string>, b: seq<string>, p: string)
    requires p in a && p in b
    ensures !Distinct(a + b)
  {
    var i :| 0 <= i < |a| && a[i] == p;
    var j :| 0 <= j < |b| && b[j] == p;
    assert (a + b)[i] == (a + b)[|a| + j];
  }

  /** A directory that holds something of an earlier root has that root's name. */
  lemma SharedRoot(roots: seq<Root>, dirs: seq<seq<string>>, files: seq<seq<string>>, n: nat, path: string, a: string)
    requires Collected(roots, dirs, files) && n == |roots| - 1
    requires path in Flatten(dirs[..n]) && a in dirs[n] && a in Ancestors(path)
    ensures roots[n].name in Flatten(dirs[..n]) && roots[n].name in dirs[n]
  {
    hide Flatten;
    hide Ancestors;
    InJoined(dirs[..n], path);
    var k :| 0 <= k < n && path in dirs[..n][k];
    RootOfEntry(roots[k], dirs[k], path);
    RootOfEntry(roots[n], dirs[n], a);
    AncestorKeepsFirst(a, path);
    assert roots[n].name in dirs[..n][k];
    InJoined(dirs[..n], roots[n].name);
  }

  lemma RootOfEntry(root: Root, entries: seq<string>, path: string)
    requires RootOk(root) && Scanned(root, entries, DirectoriesIn(root)) && path in entries
    ensures path != "" && path[0] != '/' && First(path) == root.name && root.name in entries
  {
    hide Sorted;
    SameMembers(entries, DirectoriesIn(root), path);
    SameMembers(entries, DirectoriesIn(root), root.name);
    ScannedFirst(root, path);
    assert root.DirectoryRoot?;
    assert DirectoriesIn(root)[0] == root.name;
  }

  // ---------- validation ----------

  predicate Disjoint(a: seq<string>, b: seq<string>) { forall i, j :: 0 <= i < |a| && 0 <= j < |b| ==> a[i] != b[j] }

  lemma DistinctConcat(a: seq<string>, b: seq<string>)
    ensures Distinct(a + b) <==> Distinct(a) && Distinct(b) && Disjoint(a, b)
  {
    var all := a + b;
    if Distinct(all) {
      forall i, j | 0 <= i < j < |a|
        ensures a[i] != a[j]
      {
        assert all[i] != all[j];
      }
      forall i, j | 0 <= i < j < |b|
        ensures b[i] != b[j]
      {
        assert all[|a| + i] != all[|a| + j];
      }
      forall i, j | 0 <= i < |a| && 0 <= j < |b|
        ensures a[i] != b[j]
      {
        assert all[i] != all[|a| + j];
      }
    }
    if Distinct(a) && Distinct(b) && Disjoint(a, b) {
      forall i, j | 0 <= i < j < |all|
        ensures all[i] != all[j]
      {
        if j < |a| {
          assert a[i] != a[j];
        } else if i < |a| {
          assert a[i] != b[j - |a|];
        } else {
          assert b[i - |a|] != b[j - |a|];
        }
      }
    }
  }

  function FilePaths(files: seq<Source>): seq<string> { seq(|files|, k requires 0 <= k < |files| => files[k].path) }

  /** validate_unique_targets: directories first, then files; the first path seen twice, if any. */
  method ValidateUniqueTargets(files: seq<string>, directories: seq<string>) returns (duplicate: Option<string>)
    ensures duplicate.None? <==> Distinct(directories + files)
    ensures duplicate.Some? ==>
              var all := directories + files;
              exists k :: 0 <= k < |all| && all[k] == duplicate.value && all[k] in all[..k] && Distinct(all[..k])
  {
    var paths: set<string> := {};
    var all := directories + files;
    for k := 0 to |directories|
      invariant forall p :: p in paths <==> p in all[..k]
      invariant Distinct(all[..k])
    {
      assert all[..k + 1] == all[..k] + [directories[k]];
      OneMore(all[..k], directories[k]);
      if directories[k] in paths {
        NotDistinctPrefix(all, k + 1);
        assert all[k] == directories[k];
        return Some(directories[k]);
      }
      paths := paths + {directories[k]};
    }
    for k := 0 to |files|
      invariant forall p :: p in paths <==> p in all[..|directories| + k]
      invariant Distinct(all[..|directories| + k])
    {
      var m := |directories| + k;
      assert all[..m + 1] == all[..m] + [files[k]];
      OneMore(all[..m], files[k]);
      if files[k] in paths {
        NotDistinctPrefix(all, m + 1);
        assert all[m] == files[k];
        return Some(files[k]);
      }
      paths := paths + {files[k]};
    }
    assert all[..|directories| + |files|] == all;
    return None;
  }

  lemma OneMore(s: seq<string>, p: string)
    requires Distinct(s)
    ensures Distinct(s + [p]) <==> p !in s
  {
    var all := s + [p];
    if p in s {
      NotDistinct(s, [p], p);
    }
  }

  lemma NotDistinctPrefix(s: seq<string>, n: nat)
    requires n <= |s| && !Distinct(s[..n])
    ensures !Distinct(s)
  {
    var i, j :| 0 <= i < j < n && s[..n][i] == s[..n][j];
    assert s[i] == s[j];
  }

  predicate NoDots(roots: seq<Root>) { forall root <- roots :: !Dots(root.name) }

  predicate NoParent(roots: seq<Root>) { forall root <- roots :: root.name != ".." }

  /** "." is the first directory sent, if it is sent. */
  predicate DotFirst(directories: seq<string>) { forall j :: 0 < j < |directories| ==> directories[j] != "." }

  function Places(paths: seq<string>): (places: seq<string>)
    ensures |places| == |paths| && forall k :: 0 <= k < |paths| ==> places[k] == Place(paths[k])
  {
    seq(|paths|, k requires 0 <= k < |paths| => Place(paths[k]))
  }

  lemma JoinedLeads(roots: seq<Root>, dirs: seq<seq<string>>, files: seq<seq<string>>, path: string) returns (root: Root)
    requires Collected(roots, dirs, files) && NoParent(roots) && (path in Flatten(dirs) || path in Flatten(files))
    ensures root in roots && RootOk(root) && Leads(root, path) && SafePath(path) && LastComponent(path) != "" && path != ""
    ensures path in Flatten(files) ==> EndsInName(path) && Place(path) != ""
  {
    hide Leads;
    hide SafePath;
    hide LastComponent;
    hide Place;
    hide Flatten;
    InJoined(dirs, path);
    InJoined(files, path);
    var k :| 0 <= k < |roots| && (path in dirs[k] || path in files[k])
             && (path in Flatten(files) ==> path in files[k]);
    assert roots[k] in roots;
    assert RootScan(roots[k], dirs[k], files[k]);
    SameMembers(dirs[k], DirectoriesIn(roots[k]), path);
    SameMembers(files[k], FilesIn(roots[k]), path);
    root := roots[k];
    ScannedLeads(root, path);
  }

  /** What is above a scanned entry's place, save_dir apart, is the place of a directory listed for the entry. */
  lemma AboveIsListed(roots: seq<Root>, dirs: seq<seq<string>>, files: seq<seq<string>>, path: string, q: string) returns (e: string)
    requires Collected(roots, dirs, files) && NoParent(roots) && (path in Flatten(dirs) || path in Flatten(files))
    requires q in Above(Place(path)) && q != ""
    ensures e in Flatten(dirs) && e in Ancestors(path) && Place(e) == q
  {
    hide Flatten;
    hide Collected;
    hide SafePath;
    hide LastComponent;
    hide Ancestors;
    var root := JoinedLeads(roots, dirs, files, path);
    e := if root.name == "." then Under(".", q) else q;
    assert e in Ancestors(path) by {
      AncestorsUnder(".", Place(path), e);
    }
    AllParentsJoined(roots, dirs, files, path, e);
    var other := JoinedLeads(roots, dirs, files, e);
    if root.name == "." {
      AncestorIsPlain(q, Place(path));
      BelowDot(q);
    } else {
      AncestorIsPlain(q, path);
      PlainLeadsToItself(q);
    }
  }

  /** A root with dots is a directory, so that it is in the list itself. */
  lemma RootIsListed(roots: seq<Root>, dirs: seq<seq<string>>, files: seq<seq<string>>, root: Root)
    requires Collected(roots, dirs, files) && root in roots && Dots(root.name)
    ensures root.name in Flatten(dirs)
  {
    var k :| 0 <= k < |roots| && roots[k] == root;
    assert RootScan(roots[k], dirs[k], files[k]);
    assert DirectoriesIn(root)[0] == root.name;
    SameMembers(dirs[k], DirectoriesIn(root), root.name);
    InJoined(dirs, root.name);
  }

  /** No entry is above or at the place of an earlier one; save_dir counts. */
  predicate InOrder(places: seq<string>) { forall i, j :: 0 <= i < j < |places| ==> places[j] !in Above(places[i]) }

  /** No two entries share a place, no directory comes after one inside it, no file is where a directory is needed. */
  ghost predicate NothingInTheWay(D: seq<string>, F: seq<string>) {
    && Distinct(D) && InOrder(D) && Distinct(F)
    && Disjoint(D, F)
    && (forall i, j :: 0 <= i < |F| && 0 <= j < |D| ==> F[i] !in Above(D[j]))
    && (forall i, j :: 0 <= i < |F| && 0 <= j < |F| ==> F[i] !in Above(F[j]))
  }

  /** JobOk in terms of the lists. */
  lemma JobOkIs(job: Job)
    requires Sendable(job) && forall f <- job.files :: DigestOk(job.digest(f.content))
    ensures JobOk(job) <==>
            && (forall f <- job.files :: FilePathOk(f.path))
            && (forall d <- job.directories :: !AlwaysRefused(d))
            && NothingInTheWay(Places(job.directories), Places(FilePaths(job.files)))
  {
    hide FilePathOk;
    hide AlwaysRefused;
    hide DigestOk;
    hide Above;
    hide Place;
    var D, F := Places(job.directories), Places(FilePaths(job.files));
    assert forall k :: 0 <= k < |F| ==> F[k] == Spot(job.files[k]);
    if JobOk(job) {
      forall i, j | 0 <= i < j < |D|
        ensures D[i] != D[j] && D[j] !in Above(D[i])
      {
        assert Place(job.directories[j]) !in WithAbove(Place(job.directories[i]));
      }
      forall i, j | 0 <= i < |F| && 0 <= j < |D|
        ensures D[j] != F[i] && F[i] !in Above(D[j])
      {
        assert Spot(job.files[i]) !in WithAbove(Place(job.directories[j]));
      }
    }
  }

  lemma PlacesConcat(a: seq<string>, b: seq<string>)
    ensures Places(a + b) == Places(a) + Places(b)
  {
    hide Place;
  }

  lemma InPlaces(paths: seq<string>, path: string)
    requires path in paths
    ensures Place(path) in Places(paths)
  {
    hide Place;
    var k :| 0 <= k < |paths| && paths[k] == path;
    assert Places(paths)[k] == Place(path);
  }

  lemma DistinctPlaces(paths: seq<string>)
    requires Distinct(Places(paths))
    ensures Distinct(paths)
  {
    hide Place;
    forall i, j | 0 <= i < j < |paths|
      ensures paths[i] != paths[j]
    {
      assert Places(paths)[i] != Places(paths)[j];
    }
  }

  /** A listed directory above entry i comes before it, so that it is no later one. */
  lemma EarlierPlace(D: seq<string>, i: nat, j: nat, e: string)
    requires Ordered(D) && Distinct(Places(D)) && i < j < |D| && e in D && e in Ancestors(D[i])
    ensures Place(e) != Places(D)[j]
  {
    hide Place;
    hide Ancestors;
    var k :| 0 <= k < |D| && D[k] == e;
    assert k <= i;
    assert Places(D)[k] != Places(D)[j];
  }

  /** Nothing scanned leads above something listed earlier. */
  lemma ScannedInOrder(roots: seq<Root>, dirs: seq<seq<string>>, files: seq<seq<string>>)
    requires Collected(roots, dirs, files) && NoParent(roots)
    requires DotFirst(Flatten(dirs)) && Distinct(Places(Flatten(dirs)))
    ensures InOrder(Places(Flatten(dirs)))
  {
    hide Flatten;
    hide Collected;
    hide Place;
    hide Ancestors;
    hide NoParent;
    hide Ordered;
    hide Distinct;
    var D := Flatten(dirs);
    DistinctPlaces(D);
    JoinedIsOrdered(roots, dirs, files);
    var places := Places(D);
    forall i, j | 0 <= i < j < |places|
      ensures places[j] !in Above(places[i])
    {
      if places[j] in Above(places[i]) {
        if places[j] == "" {
          var root := JoinedLeads(roots, dirs, files, D[j]);
          PlainIsSomething(root, D[j]);
        } else {
          var e := AboveIsListed(roots, dirs, files, D[i], places[j]);
          EarlierPlace(D, i, j, e);
        }
      }
    }
  }

  lemma PlainIsSomething(root: Root, path: string)
    requires Leads(root, path) && Place(path) == ""
    ensures path == "."
  {
    hide Place;
    if Plain(path) && Place(path) == path {
      PlainLeadsToItself(path);
    } else if Plain(Place(path)) {
      PlainLeadsToItself(Place(path));
    }
  }

  /** A file's place is not above anything scanned. */
  lemma FileNotAbove(roots: seq<Root>, dirs: seq<seq<string>>, files: seq<seq<string>>, path: string, file: string)
    requires Collected(roots, dirs, files) && NoParent(roots) && (path in Flatten(dirs) || path in Flatten(files))
    requires file in Flatten(files) && Disjoint(Places(Flatten(dirs)), Places(Flatten(files)))
    ensures Place(file) !in Above(Place(path))
  {
    hide Flatten;
    hide Collected;
    hide Place;
    hide Ancestors;
    if Place(file) in Above(Place(path)) {
      var root := JoinedLeads(roots, dirs, files, file);
      var e := AboveIsListed(roots, dirs, files, path, Place(file));
      InPlaces(Flatten(dirs), e);
      InPlaces(Flatten(files), file);
    }
  }

  /** For what a scan produces, the jobs that every result about a session asks for, and that alone can be
      completed, are exactly those without "..", with "." in front if at all, and without two entries for one
      place. */
  lemma ScannedJobIff(job: Job, roots: seq<Root>, dirs: seq<seq<string>>, files: seq<seq<string>>)
    requires Sendable(job) && Collected(roots, dirs, files)
    requires job.directories == Flatten(dirs) && FilePaths(job.files) == Flatten(files)
    requires forall f <- job.files :: DigestOk(job.digest(f.content))
    ensures JobOk(job) <==>
            NoParent(roots) && DotFirst(job.directories) && Distinct(Places(job.directories + FilePaths(job.files)))
  {
    hide DigestOk;
    hide Flatten;
    hide Collected;
    hide JobOk;
    hide Place;
    JobOkIs(job);
    var D, F := job.directories, FilePaths(job.files);
    PlacesConcat(D, F);
    DistinctConcat(Places(D), Places(F));
    if NoParent(roots) && DotFirst(D) && Distinct(Places(D + F)) {
      ScannedFits(job, roots, dirs, files);
    }
    if JobOk(job) {
      FitsScanned(job, roots, dirs, files);
    }
  }

  lemma ScannedFits(job: Job, roots: seq<Root>, dirs: seq<seq<string>>, files: seq<seq<string>>)
    requires Sendable(job) && Collected(roots, dirs, files)
    requires job.directories == Flatten(dirs) && FilePaths(job.files) == Flatten(files)
    requires NoParent(roots) && DotFirst(job.directories)
    requires Distinct(Places(job.directories)) && Distinct(Places(FilePaths(job.files)))
    requires Disjoint(Places(job.directories), Places(FilePaths(job.files)))
    ensures forall f <- job.files :: FilePathOk(f.path)
    ensures forall d <- job.directories :: !AlwaysRefused(d)
    ensures NothingInTheWay(Places(job.directories), Places(FilePaths(job.files)))
  {
    hide Flatten;
    hide Collected;
    hide Place;
    hide Above;
    hide LastComponent;
    hide SafePath;
    hide Leads;
    hide NoParent;
    hide RootOk;
    var D, F := job.directories, FilePaths(job.files);
    ScannedInOrder(roots, dirs, files);
    forall f | f in job.files
      ensures FilePathOk(f.path)
    {
      var k :| 0 <= k < |job.files| && job.files[k] == f;
      assert F[k] == f.path;
      var root := JoinedLeads(roots, dirs, files, f.path);
    }
    forall d | d in D
      ensures !AlwaysRefused(d)
    {
      var root := JoinedLeads(roots, dirs, files, d);
    }
    forall i, j | 0 <= i < |F| && 0 <= j < |D|
      ensures Places(F)[i] !in Above(Places(D)[j])
    {
      FileNotAbove(roots, dirs, files, D[j], F[i]);
    }
    forall i, j | 0 <= i < |F| && 0 <= j < |F|
      ensures Places(F)[i] !in Above(Places(F)[j])
    {
      FileNotAbove(roots, dirs, files, F[j], F[i]);
    }
  }

  lemma LaterIsBelow(places: seq<string>, j: nat)
    requires Distinct(places) && InOrder(places) && 0 < j < |places|
    ensures places[j] != ""
  {
    hide Ancestors;
    assert places[0] != places[j] && places[j] !in Above(places[0]);
  }

  lemma FitsScanned(job: Job, roots: seq<Root>, dirs: seq<seq<string>>, files: seq<seq<string>>)
    requires Sendable(job) && Collected(roots, dirs, files)
    requires job.directories == Flatten(dirs)
    requires (forall d <- job.directories :: !AlwaysRefused(d)) && Distinct(Places(job.directories)) && InOrder(Places(job.directories))
    ensures NoParent(roots) && DotFirst(job.directories)
  {
    hide Flatten;
    hide Collected;
    hide Place;
    var places := Places(job.directories);
    forall root | root in roots
      ensures root.name != ".."
    {
      if root.name == ".." {
        RootIsListed(roots, dirs, files, root);
        DotsLead("..");
      }
    }
    forall j | 0 < j < |job.directories|
      ensures job.directories[j] != "."
    {
      LaterIsBelow(places, j);
      DotsLead(".");
    }
  }

  /** Into a save_dir that exists: exactly the validated jobs without "." and "..". */
  lemma ScannedIntoExisting(job: Job, roots: seq<Root>, dirs: seq<seq<string>>, files: seq<seq<string>>)
    requires Sendable(job) && Collected(roots, dirs, files)
    requires job.directories == Flatten(dirs) && FilePaths(job.files) == Flatten(files)
    requires forall f <- job.files :: DigestOk(job.digest(f.content))
    ensures JobOk(job) && (forall d <- job.directories :: Place(d) != "") <==>
            NoDots(roots) && Distinct(job.directories + FilePaths(job.files))
  {
    hide DigestOk;
    hide Flatten;
    hide Collected;
    hide JobOk;
    hide Place;
    ScannedJobIff(job, roots, dirs, files);
    var all := job.directories + FilePaths(job.files);
    if JobOk(job) && forall d <- job.directories :: Place(d) != "" {
      DistinctPlaces(all);
      forall root | root in roots
        ensures !Dots(root.name)
      {
        if root.name == "." {
          RootIsListed(roots, dirs, files, root);
          DotsLead(".");
        }
      }
    }
    if NoDots(roots) && Distinct(all) {
      forall p | p in job.directories || p in FilePaths(job.files)
        ensures Place(p) == p && p != "." && p != ""
      {
        NamesOnly(roots, dirs, files, p);
      }
      assert Places(all) == all;
      assert forall j :: 0 <= j < |job.directories| ==> job.directories[j] in job.directories;
    }
  }

  lemma NamesOnly(roots: seq<Root>, dirs: seq<seq<string>>, files: seq<seq<string>>, path: string)
    requires Collected(roots, dirs, files) && NoDots(roots) && (path in Flatten(dirs) || path in Flatten(files))
    ensures Place(path) == path && path != "." && path != ""
  {
    hide Flatten;
    hide Collected;
    hide Place;
    hide RootOk;
    hide SafePath;
    hide LastComponent;
    hide Plain;
    assert NoParent(roots);
    var root := JoinedLeads(roots, dirs, files, path);
    DotsLead(".");
  }

  // ---------- replay ----------

  /** receive_one_directory for each path in turn; None as soon as one is refused. */
  function Replay(store: Store, paths: seq<string>): Option<Store>
    decreases |paths|
  {
    if paths == [] then Some(store)
    else match Replay(store, paths[..|paths| - 1])
      case None => None
      case Some(s) =>
        var (pc, made) := TakeDirectory(Receiver(RDirectory(0), 0, 1), s, paths[|paths| - 1]);
        if pc.RFailed? then None else Some(made)
  }

  function Covered(places: seq<string>): set<string> {
    set k, p | 0 <= k < |places| && p in WithAbove(places[k]) :: p
  }

  /** Where there is nothing, or nothing but save_dir, the whole list is accepted if and only if no path is
      refused on every disk or leads to a save_dir that exists, none leads where an earlier one led, and none
      above it. */
  lemma {:induction false} ReplayIff(store: Store, paths: seq<string>)
    requires store.files == map[] && store.dirs <= {""}
    ensures Replay(store, paths).Some? <==>
            && (forall p <- paths :: !Barred(p, store)) && Distinct(Places(paths)) && InOrder(Places(paths))
    ensures Replay(store, paths).Some? ==> Replay(store, paths).value == store.(dirs := store.dirs + Covered(Places(paths)))
    decreases |paths|
  {
    hide Barred;
    hide Place;
    hide Ancestors;
    hide Distinct;
    hide InOrder;
    hide Covered;
    hide TakeDirectory;
    if paths == [] {
      NoPlaces();
    } else {
      var n := |paths| - 1;
      var front, last := paths[..n], paths[n];
      var earlier := Places(front);
      ReplayIff(store, front);
      assert paths == front + [last];
      PlacesConcat(front, [last]);
      assert Places([last]) == [Place(last)];
      AcceptedSnoc(store, front, last);
      PlacesSnoc(earlier, Place(last));
      if Replay(store, front).Some? {
        OneDirectory(Replay(store, front).value, last);
        CoveredMember(earlier, Place(last));
        CoveredMore(earlier, Place(last));
        BarredLater(store, earlier, last);
      }
    }
  }

  lemma BarredLater(store: Store, earlier: seq<string>, path: string)
    ensures Barred(path, store.(dirs := store.dirs + Covered(earlier))) <==> Barred(path, store) || Place(path) in Covered(earlier)
  {
    hide Place;
    hide Covered;
  }

  lemma NoPlaces()
    ensures Places([]) == [] && Covered([]) == {} && Distinct([]) && InOrder([])
  {
  }

  lemma AcceptedSnoc(store: Store, front: seq<string>, last: string)
    ensures (forall p <- front + [last] :: !Barred(p, store)) <==> (forall p <- front :: !Barred(p, store)) && !Barred(last, store)
  {
    hide Barred;
    assert forall p :: p in front + [last] <==> p in front || p == last;
  }

  lemma PlacesSnoc(earlier: seq<string>, place: string)
    ensures Distinct(earlier + [place]) <==> Distinct(earlier) && place !in earlier
    ensures InOrder(earlier + [place]) <==> InOrder(earlier) && forall p <- earlier :: place !in Above(p)
  {
    hide Above;
    var all := earlier + [place];
    assert forall i :: 0 <= i < |earlier| ==> all[i] == earlier[i];
    assert all[|earlier|] == place;
    if Distinct(all) {
      assert forall i :: 0 <= i < |earlier| ==> all[i] != all[|earlier|];
    }
    if InOrder(all) {
      assert forall i :: 0 <= i < |earlier| ==> all[|earlier|] !in Above(all[i]);
    }
  }

  lemma OneDirectory(s: Store, path: string)
    requires s.files == map[]
    ensures var (pc, made) := TakeDirectory(Receiver(RDirectory(0), 0, 1), s, path);
            && (!pc.RFailed? <==> !Barred(path, s))
            && (!pc.RFailed? ==> made == s.(dirs := s.dirs + WithAbove(Place(path))))
  {
    hide SafePath;
    hide Above;
    hide Place;
    hide LastComponent;
  }

  lemma CoveredMember(paths: seq<string>, path: string)
    ensures path in Covered(paths) <==> path in paths || exists p <- paths :: path in Above(p)
  {
    hide Above;
    if path in paths || exists p <- paths :: path in Above(p) {
      var k :| 0 <= k < |paths| && (paths[k] == path || path in Above(paths[k]));
      assert path in WithAbove(paths[k]);
    }
  }

  lemma CoveredMore(paths: seq<string>, path: string)
    ensures Covered(paths + [path]) == Covered(paths) + WithAbove(path)
  {
    hide WithAbove;
    var all := paths + [path];
    forall p
      ensures p in Covered(all) <==> p in Covered(paths) + WithAbove(path)
    {
      if p in WithAbove(path) {
        assert all[|paths|] == path;
      }
      if p in Covered(paths) {
        var k :| 0 <= k < |paths| && p in WithAbove(paths[k]);
        assert all[k] == paths[k];
      }
      if p in Covered(all) {
        var k :| 0 <= k < |all| && p in WithAbove(all[k]);
        assert k == |paths| || all[k] == paths[k];
      }
    }
  }
}
