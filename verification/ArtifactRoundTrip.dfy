/** Writing a manifest's files back out reproduces the exported tree. */
module ArtifactRoundTrip {
  import opened Options
  import opened Utf8
  import opened Ordering
  import opened Artifacts
  import opened Strings

  // ----- materialise -----

  /** A destination directory: its file system's name limit, its files, its subdirectories. */
  datatype Dest = Dest(limit: NameLimit, files: map<Path, seq<byte>>, dirs: set<Path>)

  function EmptyDest(limit: NameLimit): (d: Dest) { Dest(limit, map[], {}) }

  datatype Artifact = Artifact(name: string, sha256: Digest)

  function Parents(path: Path): (ps: set<Path>)
  {
    set n | 0 < n < |path| :: path[..n]
  }

  /** The staging name `_copy_exact` writes before renaming. */
  function Staging(path: Path): (t: Path)
    requires path != []
    ensures |t| == |path|
  {
    path[..|path| - 1] + [path[|path| - 1] + ".tmp"]
  }

  predicate Exists(d: Dest, path: Path) { path == [] || path in d.files || path in d.dirs }

  /** Create the parents, stage exclusively, rename into place. The staging name has to fit
      the file system's limit too. */
  function Put(d: Dest, path: Path, bytes: seq<byte>): (r: Option<Dest>)
  {
    if Exists(d, path) || exists p | p in Parents(path) :: p in d.files then None
    else
      var dirs := d.dirs + Parents(path);
      if !PathFits(d.limit, Staging(path)) || Staging(path) in d.files || Staging(path) in dirs then None
      else Some(d.(files := d.files[path := bytes], dirs := dirs))
  }

  function NonTrivial(parts: seq<string>): (r: seq<string>)
  {
    if parts == [] then []
    else (if parts[0] == "" || parts[0] == "." then [] else [parts[0]]) + NonTrivial(parts[1..])
  }

  /** `PurePosixPath(name).parts` of a relative name. */
  function Parts(name: string): (path: Path)
  {
    NonTrivial(Split(name, '/'))
  }

  predicate SafeName(name: string)
  {
    && name != "" && name[0] != '/' && '\0' !in name
    && ".." !in Parts(name)
    && (forall i | 0 <= i < |Parts(name)| :: Strip(Parts(name)[i]) == Parts(name)[i] && Parts(name)[i] != "")
  }

  predicate IsHex(c: char) { '0' <= c <= '9' || 'a' <= c <= 'f' }

  predicate ValidDigest(d: Digest) { |d| == 64 && forall i | 0 <= i < |d| :: IsHex(d[i]) }

  function MaterializeOne(c: Config, s: Store, d: Dest, a: Artifact): (r: Option<Dest>)
  {
    if !SafeName(a.name) || !ValidDigest(a.sha256) || a.sha256 !in s.objects
        || c.hash(s.objects[a.sha256]) != a.sha256 then None
    else Put(d, Parts(a.name), s.objects[a.sha256])
  }

  /** `materialize`: artifacts in order, stopping at the first refusal. */
  function Materialize(c: Config, s: Store, d: Dest, artifacts: seq<Artifact>): (r: Option<Dest>)
  {
    if artifacts == [] then Some(d)
    else
      match Materialize(c, s, d, artifacts[..|artifacts| - 1])
      case None => None
      case Some(mid) => MaterializeOne(c, s, mid, artifacts[|artifacts| - 1])
  }

  // ----- the order of a walk -----

  /** No path lies on or above another, and no file's staging name lies on or above
      an earlier file. */
  ghost predicate Placeable(items: seq<Item>)
  {
    && (forall i, j | 0 <= i < |items| && 0 <= j < |items| && i != j :: !(items[i].path <= items[j].path))
    && (forall i, j | 0 <= i < j < |items| :: items[j].path != [] ==> !(Staging(items[j].path) <= items[i].path))
  }

  ghost predicate Under(items: seq<Item>, base: Path)
  {
    forall i | 0 <= i < |items| :: base <= items[i].path
  }

  /** Every item's path passes through one of the listed names below `base`. */
  ghost predicate Through(items: seq<Item>, base: Path, names: seq<string>)
  {
    forall i | 0 <= i < |items| :: base < items[i].path && items[i].path[|base|] in names
  }

  lemma {:induction false} WalkIsPlaceable(n: Node, base: Path)
    ensures Placeable(Walk(n, base)) && Under(Walk(n, base), base)
    decreases n, 1
  {
    if n.Folder? {
      var names := SortedNames(n.entries.Keys);
      EntriesArePlaceable(n, names, base);
      forall i | 0 <= i < |Walk(n, base)| ensures base <= Walk(n, base)[i].path {
        assert base < WalkEntries(n, names, base)[i].path;
      }
    }
  }

  lemma {:induction false} EntriesArePlaceable(n: Node, names: seq<string>, base: Path)
    requires n.Folder? && (forall x :: x in names ==> x in n.entries) && Ascending(names, NameKey)
    ensures Placeable(WalkEntries(n, names, base)) && Through(WalkEntries(n, names, base), base, names)
    decreases n, 0, |names|
  {
    if names != [] {
      var x := names[0];
      var first, rest := Walk(n.entries[x], base + [x]), WalkEntries(n, names[1..], base);
      WalkIsPlaceable(n.entries[x], base + [x]);
      forall i, j | 0 <= i < j < |names[1..]| ensures LexLess(NameKey(names[1..][i]), NameKey(names[1..][j])) {
        assert names[1..][i] == names[i + 1] && names[1..][j] == names[j + 1];
      }
      EntriesArePlaceable(n, names[1..], base);
      forall y | y in names[1..] ensures LexLess(NameKey(x), NameKey(y)) {
        var k :| 0 <= k < |names[1..]| && names[1..][k] == y;
        assert names[k + 1] == y;
      }
      JoinPlaceable(first, rest, base, x, names[1..]);
    }
  }

  /** Items below `x` come before items below larger names. */
  lemma JoinPlaceable(first: seq<Item>, rest: seq<Item>, base: Path, x: string, names: seq<string>)
    requires Placeable(first) && Under(first, base + [x]) && Placeable(rest) && Through(rest, base, names)
    requires forall y | y in names :: LexLess(NameKey(x), NameKey(y))
    ensures Placeable(first + rest) && Through(first + rest, base, [x] + names)
  {
    var all := first + rest;
    forall i | 0 <= i < |all| ensures base < all[i].path && all[i].path[|base|] in [x] + names {
      if i < |first| {
        assert base + [x] <= first[i].path;
      }
    }
    forall i, j | 0 <= i < |first| && 0 <= j < |rest|
      ensures !(first[i].path <= rest[j].path) && !(rest[j].path <= first[i].path)
          && !(Staging(rest[j].path) <= first[i].path)
    {
      ApartBelow(first[i].path, rest[j].path, base, x);
    }
  }

  lemma ApartBelow(p: Path, q: Path, base: Path, x: string)
    requires base + [x] <= p && base < q && LexLess(NameKey(x), NameKey(q[|base|]))
    ensures !(p <= q) && !(q <= p) && !(Staging(q) <= p)
  {
    var n := |base|;
    assert p[n] == (base + [x])[n] == x;
    LexTrichotomy(NameKey(x), NameKey(q[n]));
    assert p[n] != q[n];
    StagingSortsAfter(q[n]);
    LexTrichotomy(NameKey(x), NameKey(q[n] + ".tmp"));
    LexTransitive(NameKey(x), NameKey(q[n]), NameKey(q[n] + ".tmp"));
    assert Staging(q)[n] == if n == |q| - 1 then q[n] + ".tmp" else q[n];
    assert Staging(q)[n] != p[n];
  }

  lemma StagingSortsAfter(name: string)
    ensures LexLess(NameKey(name), NameKey(name + ".tmp"))
  {
    var a, b := NameKey(name), NameKey(name + ".tmp");
    assert a == b[..|a|];
    LexPrefix(a, b);
  }

  // ----- what a tree contains -----

  /** The bytes of the file at `path` below `n`. */
  function Contents(n: Node, path: Path): (r: Option<seq<byte>>)
    decreases |path|
  {
    if path == [] then if n.File? then Some(n.bytes) else None
    else if n.Folder? && path[0] in n.entries then Contents(n.entries[path[0]], path[1..])
    else None
  }

  predicate AllRegular(items: seq<Item>) { forall i | 0 <= i < |items| :: items[i].Regular? }

  /** The walk lists each file of the tree, and nothing else. */
  lemma {:induction false} WalkLists(n: Node, base: Path, path: Path, bytes: seq<byte>)
    ensures Regular(base + path, bytes) in Walk(n, base) <==> Contents(n, path) == Some(bytes)
    decreases n, 1
  {
    match n
    case File(b) =>
      assert path == [] <==> base + path == base;
    case Irregular =>
    case Folder(m) =>
      var names := SortedNames(m.Keys);
      EntriesList(n, names, base, path, bytes);
  }

  lemma {:induction false} EntriesList(n: Node, names: seq<string>, base: Path, path: Path, bytes: seq<byte>)
    requires n.Folder? && forall x :: x in names ==> x in n.entries
    ensures Regular(base + path, bytes) in WalkEntries(n, names, base)
            <==> path != [] && path[0] in names && Contents(n, path) == Some(bytes)
    decreases n, 0, |names|
  {
    if names != [] {
      var x := names[0];
      EntriesList(n, names[1..], base, path, bytes);
      FirstEntryLists(n, x, base, path, bytes);
      InEither(Walk(n.entries[x], base + [x]), WalkEntries(n, names[1..], base), Regular(base + path, bytes));
      assert names == [x] + names[1..];
    }
  }

  lemma InEither(a: seq<Item>, b: seq<Item>, item: Item)
    ensures item in a + b <==> item in a || item in b
  {
  }

  lemma {:induction false} FirstEntryLists(n: Node, x: string, base: Path, path: Path, bytes: seq<byte>)
    requires n.Folder? && x in n.entries
    ensures Regular(base + path, bytes) in Walk(n.entries[x], base + [x])
            <==> path != [] && path[0] == x && Contents(n, path) == Some(bytes)
    decreases n, 0, 0
  {
    if path != [] && path[0] == x {
      WalkLists(n.entries[x], base + [x], path[1..], bytes);
      Regrouped(base, x, path);
    } else {
      NotBelow(n.entries[x], base, x, path, bytes);
    }
  }

  lemma Regrouped(base: Path, x: string, path: Path)
    requires path != [] && path[0] == x
    ensures base + [x] + path[1..] == base + path
  {
    assert path == [x] + path[1..];
  }

  lemma {:induction false} NotBelow(n: Node, base: Path, x: string, path: Path, bytes: seq<byte>)
    requires path == [] || path[0] != x
    ensures Regular(base + path, bytes) !in Walk(n, base + [x])
  {
    WalkIsPlaceable(n, base + [x]);
    var items := Walk(n, base + [x]);
    forall i | 0 <= i < |items| ensures items[i].path != base + path {
      assert base + [x] <= items[i].path;
      assert items[i].path[|base|] == (base + [x])[|base|];
    }
  }

  // ----- names -----

  /** What a file system allows as an entry name. */
  predicate EntryName(x: string) { x != "" && x != "." && x != ".." && '/' !in x && '\0' !in x }

  predicate EntryPath(p: Path) { p != [] && forall i | 0 <= i < |p| :: EntryName(p[i]) }

  /** No component starts or ends with white space. */
  predicate Trimmed(p: Path) { forall i | 0 <= i < |p| :: Strip(p[i]) == p[i] }

  ghost predicate AllTrimmed(items: seq<Item>) { forall i | 0 <= i < |items| :: Trimmed(items[i].path) }

  ghost predicate AllEntryPaths(items: seq<Item>) { forall i | 0 <= i < |items| :: EntryPath(items[i].path) }

  ghost predicate AllFit(c: Config, items: seq<Item>)
  {
    forall i | 0 <= i < |items| :: PathFits(c.nameLimit, items[i].path)
  }

  ghost predicate AllRoomy(limit: NameLimit, items: seq<Item>)
  {
    forall i | 0 <= i < |items| :: items[i].path != [] && Roomy(limit, items[i].path)
  }

  lemma {:induction false} JoinsAlike(p: Path)
    ensures Join(p) == JoinWith(p, '/')
  {
    if |p| > 1 {
      JoinsAlike(p[1..]);
    }
  }

  lemma SplitJoin(p: Path)
    requires EntryPath(p)
    ensures Split(Join(p), '/') == p
  {
    JoinsAlike(p);
    OnlySplit(p, '/');
  }

  lemma {:induction false} NonTrivialOfEntry(p: Path)
    requires forall i | 0 <= i < |p| :: EntryName(p[i])
    ensures NonTrivial(p) == p
  {
    if p != [] {
      NonTrivialOfEntry(p[1..]);
    }
  }

  lemma {:induction false} JoinIsSafe(p: Path)
    requires EntryPath(p)
    ensures Join(p) != "" && Join(p)[0] != '/' && '\0' !in Join(p)
  {
    if |p| > 1 {
      JoinIsSafe(p[1..]);
    }
  }

  /** A joined path splits back into itself, and is a safe name when its parts are trimmed. */
  lemma {:induction false} JoinedName(p: Path)
    requires EntryPath(p)
    ensures Parts(Join(p)) == p && (SafeName(Join(p)) <==> Trimmed(p))
  {
    SplitJoin(p);
    NonTrivialOfEntry(p);
    JoinIsSafe(p);
  }

  // ----- exporting a clean tree -----

  /** The hash separates these byte strings, and its digests are well formed. */
  ghost predicate CollisionFree(c: Config, known: set<seq<byte>>)
  {
    && (forall a, b | a in known && b in known :: c.hash(a) == c.hash(b) ==> a == b)
    && DigestsAreValid(c)
  }

  ghost predicate DigestsAreValid(c: Config) { forall a :: ValidDigest(c.hash(a)) }

  /** What the scanner leaves of a file. */
  function Scanned(q: Request, item: Item): (r: (bool, seq<byte>))
    requires item.Regular?
  {
    q.scan(Join(item.path), item.bytes)
  }

  /** What is in the store, what is about to be, and what the scanner leaves of it. */
  ghost function Involved(s: Store, q: Request, items: seq<Item>): (known: set<seq<byte>>)
  {
    s.objects.Values
    + (set i | 0 <= i < |items| && items[i].Regular? :: items[i].bytes)
    + (set i | 0 <= i < |items| && items[i].Regular? :: Scanned(q, items[i]).1)
  }

  /** The scanner accepts each of these files and leaves it as it was. */
  ghost predicate Accepting(q: Request, items: seq<Item>)
    requires AllRegular(items)
  {
    forall i | 0 <= i < |items| :: Scanned(q, items[i]) == (true, items[i].bytes)
  }

  /** Regular files with legal names, within the limits, that the scanner accepts. */
  ghost predicate Clean(c: Config, q: Request, items: seq<Item>)
  {
    AllRegular(items) && AllFit(c, items) && Fits(c, items) && Accepting(q, items)
  }

  function Size(items: seq<Item>): (n: nat)
    requires AllRegular(items)
  {
    if items == [] then 0 else Size(items[..|items| - 1]) + |items[|items| - 1].bytes|
  }

  predicate Fits(c: Config, items: seq<Item>)
    requires AllRegular(items)
  {
    (c.maxFiles.Some? ==> |items| <= c.maxFiles.value) && (c.maxBytes.Some? ==> Size(items) <= c.maxBytes.value)
  }

  /** The export so far holds exactly these items. */
  ghost predicate Exported(c: Config, p: Progress, items: seq<Item>)
    requires AllRegular(items)
  {
    && !p.failed && |p.files| == |items| && p.total == Size(items)
    && forall i | 0 <= i < |items| ::
         && p.files[i] == Entry(Join(items[i].path), |items[i].bytes|, c.hash(items[i].bytes))
         && c.hash(items[i].bytes) in p.store.objects && p.store.objects[c.hash(items[i].bytes)] == items[i].bytes
  }

  lemma {:induction false} CleanExportSucceeds(c: Config, q: Request, p: Progress, items: seq<Item>,
      known: set<seq<byte>>)
    requires CollisionFree(c, known) && Clean(c, q, items)
    requires ProgressOk(c, q, p) && !p.failed && p.files == [] && p.total == 0
    requires p.store.objects.Values <= known && forall i | 0 <= i < |items| :: items[i].bytes in known
    ensures var r := ExportItems(c, q, p, items); Exported(c, r, items) && r.store.objects.Values <= known
  {
    if items != [] {
      var n := |items| - 1;
      var init, last := items[..n], items[n];
      assert init + [last] == items;
      FitsInit(c, init, last);
      CleanExportSucceeds(c, q, p, init, known);
      ExportItemsKeeps(c, q, p, init);
      CleanStep(c, q, ExportItems(c, q, p, init), init, last, known);
    }
  }

  lemma {:induction false} FitsInit(c: Config, init: seq<Item>, last: Item)
    requires AllRegular(init + [last]) && Fits(c, init + [last])
    ensures AllRegular(init) && last.Regular? && Size(init + [last]) == Size(init) + |last.bytes| && Fits(c, init)
  {
    var items := init + [last];
    assert items[..|init|] == init && items[|init|] == last;
    forall i | 0 <= i < |init| ensures init[i].Regular? {
      assert items[i] == init[i];
    }
  }

  lemma CleanStep(c: Config, q: Request, mid: Progress, init: seq<Item>, last: Item, known: set<seq<byte>>)
    requires CollisionFree(c, known) && StoreOk(c, mid.store) && mid.store.objects.Values <= known
    requires AllRegular(init) && Exported(c, mid, init) && last.Regular? && last.bytes in known
    requires PathFits(c.nameLimit, last.path) && Scanned(q, last) == (true, last.bytes)
    requires AllRegular(init + [last]) && Fits(c, init + [last])
    ensures var r := ExportItem(c, q, mid, last); Exported(c, r, init + [last]) && r.store.objects.Values <= known
  {
    FitsInit(c, init, last);
    CleanOne(c, q, mid, last, known);
    ExportedGrows(c, mid, ExportItem(c, q, mid, last), init, last);
  }

  lemma ExportedGrows(c: Config, p: Progress, r: Progress, init: seq<Item>, last: Item)
    requires AllRegular(init) && last.Regular? && AllRegular(init + [last]) && Exported(c, p, init)
    requires Size(init + [last]) == Size(init) + |last.bytes|
    requires var d := c.hash(last.bytes);
             && !r.failed && r.files == p.files + [Entry(Join(last.path), |last.bytes|, d)]
             && r.total == p.total + |last.bytes| && r.store.objects == p.store.objects[d := last.bytes]
             && (d in p.store.objects ==> p.store.objects[d] == last.bytes)
    ensures Exported(c, r, init + [last])
  {
  }

  /** An accepted file joins the list and its bytes are in the store. */
  lemma CleanOne(c: Config, q: Request, mid: Progress, last: Item, known: set<seq<byte>>)
    requires CollisionFree(c, known) && StoreOk(c, mid.store) && mid.store.objects.Values <= known
    requires !mid.failed && last.Regular? && last.bytes in known && Scanned(q, last) == (true, last.bytes)
    requires WithinLimits(c, mid, |last.bytes|) && PathFits(c.nameLimit, last.path)
    ensures var r, d := ExportItem(c, q, mid, last), c.hash(last.bytes);
            && !r.failed && r.files == mid.files + [Entry(Join(last.path), |last.bytes|, d)]
            && r.total == mid.total + |last.bytes|
            && r.store.objects == mid.store.objects[d := last.bytes]
            && (d in mid.store.objects ==> mid.store.objects[d] == last.bytes)
  {
    var d := c.hash(last.bytes);
    if d in mid.store.objects {
      assert ObjectOk(c, mid.store, d);
      assert mid.store.objects == mid.store.objects[d := last.bytes];
    }
  }

  /** An export that did not fail met only files it had to accept. */
  lemma {:induction false} FinishedIsClean(c: Config, q: Request, p: Progress, items: seq<Item>, known: set<seq<byte>>)
    requires CollisionFree(c, known) && Involved(p.store, q, items) <= known
    requires !p.failed && p.files == [] && p.total == 0 && !ExportItems(c, q, p, items).failed
    ensures Clean(c, q, items)
    ensures var r := ExportItems(c, q, p, items); |r.files| == |items| && r.total == Size(items)
  {
    if items != [] {
      var n := |items| - 1;
      var init, last := items[..n], items[n];
      assert init + [last] == items;
      InvolvedInit(p.store, q, init, last);
      FinishedIsClean(c, q, p, init, known);
      LastIsClean(c, q, ExportItems(c, q, p, init), init, last, known);
    }
  }

  lemma InvolvedInit(s: Store, q: Request, init: seq<Item>, last: Item)
    ensures Involved(s, q, init) <= Involved(s, q, init + [last])
    ensures last.Regular? ==>
              last.bytes in Involved(s, q, init + [last]) && Scanned(q, last).1 in Involved(s, q, init + [last])
  {
    var items := init + [last];
    assert items[|init|] == last && forall i | 0 <= i < |init| :: items[i] == init[i];
  }

  lemma LastIsClean(c: Config, q: Request, mid: Progress, init: seq<Item>, last: Item, known: set<seq<byte>>)
    requires CollisionFree(c, known) && Clean(c, q, init) && |mid.files| == |init| && mid.total == Size(init)
    requires last.Regular? ==> last.bytes in known && Scanned(q, last).1 in known
    requires !mid.failed && !ExportItem(c, q, mid, last).failed
    ensures Clean(c, q, init + [last])
    ensures var r := ExportItem(c, q, mid, last); |r.files| == |init| + 1 && r.total == Size(init + [last])
  {
    var items := init + [last];
    assert items[..|init|] == init;
    assert Scanned(q, last) == (true, last.bytes);
  }

  // ----- writing it back -----

  function ArtifactsOf(files: seq<Entry>): (r: seq<Artifact>)
    ensures |r| == |files|
  {
    seq(|files|, i requires 0 <= i < |files| => Artifact(files[i].path, files[i].sha256))
  }

  /** The destination holds exactly these items, and directories only above them. */
  ghost predicate Written(d: Dest, items: seq<Item>)
    requires AllRegular(items)
  {
    && (forall p :: p in d.files ==> Regular(p, d.files[p]) in items)
    && (forall i | 0 <= i < |items| :: items[i].path in d.files && d.files[items[i].path] == items[i].bytes)
    && (forall p | p in d.dirs :: p != [] && exists i | 0 <= i < |items| :: p <= items[i].path)
  }

  /** Every name fits, and the file's own leaves room for the staging suffix. */
  predicate Roomy(limit: NameLimit, path: Path)
    requires path != []
  {
    PathFits(limit, path) && NameSize(path[|path| - 1]) + 4 <= limit
  }

  lemma RoomForStaging(limit: NameLimit, path: Path)
    requires path != []
    ensures PathFits(limit, Staging(path)) <==> Roomy(limit, path)
  {
    var n, t := |path| - 1, Staging(path);
    SuffixSize(path[n]);
    assert t[n] == path[n] + ".tmp" && forall i | 0 <= i < n :: t[i] == path[i];
  }

  lemma SuffixSize(x: string)
    ensures NameSize(x + ".tmp") == NameSize(x) + 4
  {
    EncodeAppend(x, ".tmp");
    LettersSize(".tmp");
  }

  /** A name of plain letters takes as many bytes as it has letters. */
  lemma {:induction false} LettersSize(x: string)
    requires forall i | 0 <= i < |x| :: (x[i] as int) < 0x80
    ensures NameSize(x) == |x|
  {
    if x != "" {
      LettersSize(x[1..]);
    }
  }

  /** A path that is neither a written file nor above one is free. */
  lemma Free(d: Dest, done: seq<Item>, p: Path)
    requires AllRegular(done) && Written(d, done)
    ensures (forall k | 0 <= k < |done| :: done[k].path != p) ==> p !in d.files
    ensures (forall k | 0 <= k < |done| :: !(p <= done[k].path)) ==> p !in d.files && p !in d.dirs
  {
    if p in d.files {
      assert Regular(p, d.files[p]) in done;
    }
  }

  /** With the earlier files in place, the next one can be put. */
  lemma PutNext(d: Dest, items: seq<Item>, n: nat)
    requires n < |items| && AllRegular(items) && Placeable(items) && items[n].path != [] && Written(d, items[..n])
    requires Roomy(d.limit, items[n].path)
    ensures var r := Put(d, items[n].path, items[n].bytes);
            r.Some? && r.value.limit == d.limit && Written(r.value, items[..n + 1])
  {
    var path, done := items[n].path, items[..n];
    Free(d, done, path);
    forall p | p in Parents(path) ensures p !in d.files {
      Free(d, done, p);
    }
    Free(d, done, Staging(path));
    RoomForStaging(d.limit, path);
    WrittenGrows(d, items, n);
  }

  lemma WrittenGrows(d: Dest, items: seq<Item>, n: nat)
    requires n < |items| && AllRegular(items) && items[n].path != [] && Written(d, items[..n])
    requires items[n].path !in d.files
    ensures Written(d.(files := d.files[items[n].path := items[n].bytes], dirs := d.dirs + Parents(items[n].path)),
                    items[..n + 1])
  {
    var r := d.(files := d.files[items[n].path := items[n].bytes], dirs := d.dirs + Parents(items[n].path));
    var done, next := items[..n], items[..n + 1];
    assert next == done + [items[n]];
    forall i | 0 <= i < |next| ensures next[i].path in r.files && r.files[next[i].path] == next[i].bytes {
      assert i < n ==> next[i] == done[i] && done[i].path in d.files;
    }
    forall p | p in r.dirs ensures p != [] && exists i | 0 <= i < |next| :: p <= next[i].path {
      if p in d.dirs {
        var k :| 0 <= k < |done| && p <= done[k].path;
        assert p <= next[k].path;
      } else {
        assert p <= next[n].path;
      }
    }
  }

  /** The manifest lists exactly these items, and the store holds their bytes. */
  ghost predicate Recorded(c: Config, t: Store, files: seq<Entry>, items: seq<Item>)
    requires AllRegular(items)
  {
    && |files| == |items|
    && forall i | 0 <= i < |items| ::
         && files[i] == Entry(Join(items[i].path), |items[i].bytes|, c.hash(items[i].bytes))
         && c.hash(items[i].bytes) in t.objects && t.objects[c.hash(items[i].bytes)] == items[i].bytes
  }

  /** Every file of the manifest can be written, in order. */
  lemma {:induction false} MaterializeInOrder(
      c: Config, s: Store, files: seq<Entry>, items: seq<Item>, limit: NameLimit, n: nat)
    requires DigestsAreValid(c) && AllRegular(items) && Placeable(items) && n <= |items| && Recorded(c, s, files, items)
    requires AllEntryPaths(items) && AllTrimmed(items) && AllRoomy(limit, items)
    ensures var r := Materialize(c, s, EmptyDest(limit), ArtifactsOf(files)[..n]);
            r.Some? && r.value.limit == limit && Written(r.value, items[..n])
  {
    if n > 0 {
      var k := n - 1;
      MaterializeInOrder(c, s, files, items, limit, k);
      assert ArtifactsOf(files)[..n][..k] == ArtifactsOf(files)[..k];
      var d := Materialize(c, s, EmptyDest(limit), ArtifactsOf(files)[..k]).value;
      MaterializeRecorded(c, s, d, items[k].path, items[k].bytes);
      PutNext(d, items, k);
    }
  }

  lemma {:induction false} MaterializeRecorded(c: Config, s: Store, d: Dest, path: Path, bytes: seq<byte>)
    requires EntryPath(path) && Trimmed(path) && DigestsAreValid(c)
    requires c.hash(bytes) in s.objects && s.objects[c.hash(bytes)] == bytes
    ensures MaterializeOne(c, s, d, Artifact(Join(path), c.hash(bytes))) == Put(d, path, bytes)
  {
    JoinedName(path);
  }

  /** The files of the tree have names that its file system allows. */
  ghost predicate WellNamed(c: Config, n: Node)
  {
    forall p :: Contents(n, p).Some? ==> EntryPath(p) && PathFits(c.nameLimit, p)
  }

  ghost predicate RoomyTree(limit: NameLimit, n: Node)
  {
    forall p :: Contents(n, p).Some? ==> p != [] && Roomy(limit, p)
  }

  ghost predicate TrimmedTree(n: Node)
  {
    forall p :: Contents(n, p).Some? ==> Trimmed(p)
  }

  lemma ItemIsFile(n: Node, items: seq<Item>, i: nat)
    requires items == Walk(n, []) && AllRegular(items) && i < |items|
    ensures Contents(n, items[i].path).Some?
  {
    AtRoot(n, items[i].path, items[i].bytes);
  }

  lemma FileIsItem(n: Node, items: seq<Item>, p: Path) returns (i: nat)
    requires items == Walk(n, []) && AllRegular(items) && Contents(n, p).Some?
    ensures i < |items| && items[i].path == p
  {
    AtRoot(n, p, Contents(n, p).value);
    i :| 0 <= i < |items| && items[i] == Regular(p, Contents(n, p).value);
  }

  /** Names of the walk are names of the tree. */
  lemma ItemNames(c: Config, n: Node, items: seq<Item>)
    requires items == Walk(n, []) && WellNamed(c, n) && AllRegular(items)
    ensures AllEntryPaths(items) && AllFit(c, items)
  {
    forall i | 0 <= i < |items| ensures EntryPath(items[i].path) && PathFits(c.nameLimit, items[i].path) {
      ItemIsFile(n, items, i);
    }
  }

  lemma ItemsAreTrimmed(n: Node, items: seq<Item>)
    requires items == Walk(n, []) && AllRegular(items)
    ensures AllTrimmed(items) <==> TrimmedTree(n)
  {
    forall i | 0 <= i < |items| && TrimmedTree(n) ensures Trimmed(items[i].path) {
      ItemIsFile(n, items, i);
    }
    forall p | Contents(n, p).Some? && AllTrimmed(items) ensures Trimmed(p) {
      var i := FileIsItem(n, items, p);
    }
  }

  lemma ItemsAreRoomy(n: Node, items: seq<Item>, limit: NameLimit)
    requires items == Walk(n, []) && AllRegular(items)
    ensures AllRoomy(limit, items) <==> RoomyTree(limit, n)
  {
    forall i | 0 <= i < |items| && RoomyTree(limit, n)
      ensures items[i].path != [] && Roomy(limit, items[i].path)
    {
      ItemIsFile(n, items, i);
    }
    forall p | Contents(n, p).Some? && AllRoomy(limit, items) ensures p != [] && Roomy(limit, p) {
      var i := FileIsItem(n, items, p);
    }
  }

  lemma {:induction false} AtRoot(n: Node, p: Path, b: seq<byte>)
    ensures Regular(p, b) in Walk(n, []) <==> Contents(n, p) == Some(b)
  {
    assert [] + p == p;
    WalkLists(n, [], p, b);
  }

  /** A manifest is written exactly when the request is acceptable and what the walk listed is
      clean; it and the store then hold exactly these files. */
  lemma {:induction false} CleanExport(c: Config, s: Store, q: Request, items: seq<Item>)
    requires StoreOk(c, s) && CollisionFree(c, Involved(s, q, items))
    ensures var (t, m) := ExportListed(c, s, q, items);
            && (m.Some? <==> Acceptable(c, s, q) && Clean(c, q, items))
            && (m.Some? ==> Recorded(c, t, m.value.files, items) && m.value.totalBytes == Size(items))
  {
    if Acceptable(c, s, q) {
      var p0, known := Begin(s, q), Involved(s, q, items);
      StoreGrows(c, s, p0.store);
      if Clean(c, q, items) {
        CleanExportSucceeds(c, q, p0, items, known);
        ManifestIsNew(c, s, q, items);
      } else if !ExportItems(c, q, p0, items).failed {
        FinishedIsClean(c, q, p0, items, known);
      }
    }
  }

  /** Writing recorded files out in order reproduces them. */
  lemma {:induction false} RecordedMaterializes(
      c: Config, t: Store, files: seq<Entry>, items: seq<Item>, limit: NameLimit)
    requires DigestsAreValid(c) && AllRegular(items) && Placeable(items) && Recorded(c, t, files, items)
    requires AllEntryPaths(items) && AllTrimmed(items) && AllRoomy(limit, items)
    ensures var r := Materialize(c, t, EmptyDest(limit), ArtifactsOf(files));
            r.Some? && Written(r.value, items)
  {
    MaterializeInOrder(c, t, files, items, limit, |items|);
    assert ArtifactsOf(files)[..|items|] == ArtifactsOf(files) && items[..|items|] == items;
  }

  /** One artifact that cannot be written anywhere refuses the whole list. */
  lemma {:induction false} OneRefusesAll(c: Config, t: Store, d: Dest, artifacts: seq<Artifact>, k: nat)
    requires k < |artifacts|
    requires !SafeName(artifacts[k].name) || Parts(artifacts[k].name) == []
        || !PathFits(d.limit, Staging(Parts(artifacts[k].name)))
    ensures Materialize(c, t, d, artifacts).None?
  {
    if k < |artifacts| - 1 {
      OneRefusesAll(c, t, d, artifacts[..|artifacts| - 1], k);
    } else {
      LimitStays(c, t, d, artifacts[..k]);
    }
  }

  lemma {:induction false} LimitStays(c: Config, t: Store, d: Dest, artifacts: seq<Artifact>)
    ensures var r := Materialize(c, t, d, artifacts); r.Some? ==> r.value.limit == d.limit
  {
    if artifacts != [] {
      LimitStays(c, t, d, artifacts[..|artifacts| - 1]);
    }
  }

  lemma UnwritableRefuses(c: Config, t: Store, files: seq<Entry>, items: seq<Item>, limit: NameLimit)
    requires AllRegular(items) && Recorded(c, t, files, items) && AllEntryPaths(items)
    requires !AllTrimmed(items) || !AllRoomy(limit, items)
    ensures Materialize(c, t, EmptyDest(limit), ArtifactsOf(files)).None?
  {
    var k :| 0 <= k < |items| && !(Trimmed(items[k].path) && items[k].path != [] && Roomy(limit, items[k].path));
    JoinedName(items[k].path);
    RoomForStaging(limit, items[k].path);
    OneRefusesAll(c, t, EmptyDest(limit), ArtifactsOf(files), k);
  }

  // ----- what is written -----

  /** A relative path of names a destination can hold below itself. */
  predicate Contained(p: Path)
  {
    && p != []
    && forall i | 0 <= i < |p| ::
         p[i] !in {"", ".", ".."} && '/' !in p[i] && '\0' !in p[i] && Strip(p[i]) == p[i]
  }

  lemma {:induction false} NonTrivialMeans(parts: seq<string>)
    ensures forall x :: x in NonTrivial(parts) <==> x in parts && x != "" && x != "."
  {
    if parts != [] {
      NonTrivialMeans(parts[1..]);
      assert parts == [parts[0]] + parts[1..];
    }
  }

  /** A safe name leads nowhere outside. */
  lemma SafeIsContained(name: string)
    requires SafeName(name) && Parts(name) != []
    ensures Contained(Parts(name)) && name[0] != '/'
  {
    var p, parts := Parts(name), Split(name, '/');
    SplitMeans(name, '/');
    PartsHoldNothingElse(name, '/', '\0');
    NonTrivialMeans(parts);
    forall i | 0 <= i < |p|
      ensures p[i] !in {"", ".", ".."} && '/' !in p[i] && '\0' !in p[i] && Strip(p[i]) == p[i]
    {
      assert p[i] in p;
      var k :| 0 <= k < |parts| && parts[k] == p[i];
    }
  }

  /** What was there before is there as it was. */
  ghost predicate Preserves(d: Dest, r: Dest)
  {
    forall p | p in d.files :: p in r.files && r.files[p] == d.files[p]
  }

  /** The artifact was written where nothing was, with bytes that have its digest. */
  ghost predicate PlacedAs(c: Config, d: Dest, r: Dest, a: Artifact)
  {
    var p := Parts(a.name);
    && a.name != "" && a.name[0] != '/' && Contained(p) && p !in d.files
    && p in r.files && c.hash(r.files[p]) == a.sha256
    && |a.sha256| == 64 && forall i | 0 <= i < 64 :: 48 <= a.sha256[i] as int <= 57 || 97 <= a.sha256[i] as int <= 102
  }

  lemma PlacesOne(c: Config, s: Store, d: Dest, a: Artifact)
    requires MaterializeOne(c, s, d, a).Some?
    ensures var r := MaterializeOne(c, s, d, a).value; PlacedAs(c, d, r, a) && Preserves(d, r)
    ensures var r := MaterializeOne(c, s, d, a).value; r.files.Keys == d.files.Keys + {Parts(a.name)}
  {
    SafeIsContained(a.name);
  }

  ghost predicate AllPlaced(c: Config, d: Dest, r: Dest, artifacts: seq<Artifact>)
  {
    forall k | 0 <= k < |artifacts| :: PlacedAs(c, d, r, artifacts[k])
  }

  predicate AllApart(artifacts: seq<Artifact>)
  {
    forall i, k | 0 <= i < k < |artifacts| :: Parts(artifacts[i].name) != Parts(artifacts[k].name)
  }

  ghost predicate NothingElse(d: Dest, r: Dest, artifacts: seq<Artifact>)
  {
    forall p | p in r.files && p !in d.files :: exists k | 0 <= k < |artifacts| :: Parts(artifacts[k].name) == p
  }

  lemma OneMorePlaced(c: Config, d: Dest, mid: Dest, r: Dest, init: seq<Artifact>, a: Artifact)
    requires Preserves(d, mid) && AllPlaced(c, d, mid, init) && PlacedAs(c, mid, r, a) && Preserves(mid, r)
    ensures Preserves(d, r) && AllPlaced(c, d, r, init + [a])
  {
    forall k | 0 <= k < |init| + 1 ensures PlacedAs(c, d, r, (init + [a])[k]) {
      if k < |init| {
        assert PlacedAs(c, d, mid, init[k]);
      }
    }
  }

  lemma OneMoreApart(c: Config, d: Dest, mid: Dest, r: Dest, init: seq<Artifact>, a: Artifact)
    requires AllPlaced(c, d, mid, init) && AllApart(init) && NothingElse(d, mid, init) && PlacedAs(c, mid, r, a)
    requires r.files.Keys == mid.files.Keys + {Parts(a.name)}
    ensures AllApart(init + [a]) && NothingElse(d, r, init + [a])
  {
    var all := init + [a];
    forall i, k | 0 <= i < k < |all| ensures Parts(all[i].name) != Parts(all[k].name) {
      if k == |init| {
        assert PlacedAs(c, d, mid, init[i]);
      }
    }
    forall p | p in r.files && p !in d.files ensures exists k | 0 <= k < |all| :: Parts(all[k].name) == p {
      if p in mid.files {
        var k :| 0 <= k < |init| && Parts(init[k].name) == p;
        assert all[k] == init[k];
      } else {
        assert all[|init|] == a;
      }
    }
  }

  /** Whatever the artifacts are called: when all are written, each is below the destination with
      its own digest where nothing was before, no two at one place, and nothing else changed. */
  lemma {:induction false} MaterializedMeans(c: Config, s: Store, d: Dest, artifacts: seq<Artifact>)
    requires Materialize(c, s, d, artifacts).Some?
    ensures var r := Materialize(c, s, d, artifacts).value;
            && Preserves(d, r) && AllPlaced(c, d, r, artifacts) && AllApart(artifacts)
            && NothingElse(d, r, artifacts)
  {
    if artifacts != [] {
      var n := |artifacts| - 1;
      var init, last := artifacts[..n], artifacts[n];
      MaterializedMeans(c, s, d, init);
      OneMoreWritten(c, s, d, Materialize(c, s, d, init).value, init, last);
      assert init + [last] == artifacts;
    }
  }

  lemma OneMoreWritten(c: Config, s: Store, d: Dest, mid: Dest, init: seq<Artifact>, a: Artifact)
    requires Preserves(d, mid) && AllPlaced(c, d, mid, init) && AllApart(init) && NothingElse(d, mid, init)
    requires MaterializeOne(c, s, mid, a).Some?
    ensures var r := MaterializeOne(c, s, mid, a).value;
            && Preserves(d, r) && AllPlaced(c, d, r, init + [a]) && AllApart(init + [a])
            && NothingElse(d, r, init + [a])
  {
    var r := MaterializeOne(c, s, mid, a).value;
    PlacesOne(c, s, mid, a);
    OneMorePlaced(c, d, mid, r, init, a);
    OneMoreApart(c, d, mid, r, init, a);
  }

  ghost predicate SameFiles(d: Dest, n: Node)
  {
    forall p, b :: p in d.files && d.files[p] == b <==> Contents(n, p) == Some(b)
  }

  lemma {:induction false} WrittenIsSame(d: Dest, n: Node)
    requires AllRegular(Walk(n, [])) && Written(d, Walk(n, []))
    ensures SameFiles(d, n)
  {
    forall p, b ensures p in d.files && d.files[p] == b <==> Contents(n, p) == Some(b) {
      AtRoot(n, p, b);
    }
  }

  /** Round trip: a tree is exported exactly when it holds only regular files, within the
      limits, each accepted by the scanner; materialising the manifest in order into an empty
      directory then succeeds exactly when no path component has outer white space and every
      file name leaves room for the staging suffix there, and reproduces exactly the tree's
      files. */
  lemma {:induction false} RoundTrip(c: Config, s: Store, q: Request, limit: NameLimit)
    requires StoreOk(c, s) && WellNamed(c, q.root) && CollisionFree(c, Involved(s, q, Walk(q.root, [])))
    ensures var (t, m) := Export(c, s, q);
            && (m.Some? <==> Acceptable(c, s, q) && Clean(c, q, Walk(q.root, [])))
            && (m.Some? ==>
                  var r := Materialize(c, t, EmptyDest(limit), ArtifactsOf(m.value.files));
                  && (r.Some? <==> TrimmedTree(q.root) && RoomyTree(limit, q.root))
                  && (r.Some? ==> SameFiles(r.value, q.root)))
  {
    var items := Walk(q.root, []);
    CleanExport(c, s, q, items);
    var (t, m) := Export(c, s, q);
    if m.Some? {
      RecordedRoundTrip(c, t, q.root, m.value.files, items, limit);
    }
  }

  lemma RecordedRoundTrip(c: Config, t: Store, n: Node, files: seq<Entry>, items: seq<Item>, limit: NameLimit)
    requires WellNamed(c, n) && items == Walk(n, []) && AllRegular(items)
    requires DigestsAreValid(c) && Recorded(c, t, files, items)
    ensures var r := Materialize(c, t, EmptyDest(limit), ArtifactsOf(files));
            && (r.Some? <==> TrimmedTree(n) && RoomyTree(limit, n))
            && (r.Some? ==> SameFiles(r.value, n))
  {
    ItemNames(c, n, items);
    ItemsAreTrimmed(n, items);
    ItemsAreRoomy(n, items, limit);
    if AllTrimmed(items) && AllRoomy(limit, items) {
      WalkIsPlaceable(n, []);
      RecordedMaterializes(c, t, files, items, limit);
      WrittenIsSame(Materialize(c, t, EmptyDest(limit), ArtifactsOf(files)).value, n);
    } else {
      UnwritableRefuses(c, t, files, items, limit);
    }
  }

  function Letters(n: nat): (x: string)
    ensures |x| == n && forall i | 0 <= i < n :: x[i] == 'a'
  {
    seq(n, _ => 'a')
  }

  /** A name as long as the limit allows is a legal, trimmed name that leaves no room. */
  lemma ALongNameLeavesNoRoom(limit: NameLimit)
    ensures var p := [Letters(limit)];
            EntryPath(p) && Trimmed(p) && PathFits(limit, p) && !Roomy(limit, p)
  {
    var x := Letters(limit);
    LettersSize(x);
    assert x[0] == 'a' && x[|x| - 1] == 'a' && !IsSpace('a');
    assert Strip(x) == x;
  }

  /** A run id that was never quarantined has no manifest, before or after its walk. */
  lemma {:induction false} ManifestIsNew(c: Config, s: Store, q: Request, items: seq<Item>)
    requires StoreOk(c, s) && q.runId !in s.quarantined
    ensures ExportItems(c, q, Begin(s, q), items).store.manifests == s.manifests && q.runId !in s.manifests
  {
    if items != [] {
      ManifestIsNew(c, s, q, items[..|items| - 1]);
    }
  }
}
