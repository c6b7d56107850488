/** The content-addressed artifact store: walking an export tree, promoting its files
    through quarantine and scan, and writing a manifest's files back out. */
module Artifacts {
  import opened Options
  import opened Utf8
  import opened Ordering

  type Path = seq<string>
  type Digest = string

  // ----- the export tree -----

  datatype Node =
    | File(bytes: seq<byte>)
    | Folder(entries: map<string, Node>)
    | Irregular                          // a symlink or special file

  /** What the walk meets, in order; it stops at the first irregular entry. */
  datatype Item = Regular(path: Path, bytes: seq<byte>) | Refused(path: Path)

  function NameKey(name: string): (key: seq<int>)
    ensures |key| == |name|
  {
    seq(|name|, i requires 0 <= i < |name| => name[i] as int)
  }

  lemma NamesInjective(names: set<string>)
    ensures InjectiveOn(names, NameKey)
  {
    forall x, y | x in names && y in names && NameKey(x) == NameKey(y) ensures x == y {
      forall i | 0 <= i < |x| ensures x[i] == y[i] {
        assert NameKey(x)[i] == NameKey(y)[i];
      }
    }
  }

  function SortedNames(names: set<string>): (r: seq<string>)
    ensures |r| == |names| && (forall x :: x in r <==> x in names)
    ensures Ascending(r, NameKey)
  {
    NamesInjective(names);
    SortBy(names, NameKey)
  }

  /** `_walk_regular_files`: depth first, entries of each folder by name. */
  function Walk(n: Node, path: Path): (items: seq<Item>)
    decreases n, 1
  {
    match n
    case File(bytes) => [Regular(path, bytes)]
    case Irregular => [Refused(path)]
    case Folder(entries) => WalkEntries(n, SortedNames(entries.Keys), path)
  }

  function WalkEntries(n: Node, names: seq<string>, path: Path): (items: seq<Item>)
    requires n.Folder? && forall x :: x in names ==> x in n.entries
    decreases n, 0, |names|
  {
    if names == [] then []
    else Walk(n.entries[names[0]], path + [names[0]]) + WalkEntries(n, names[1..], path)
  }

  // ----- the store -----

  datatype Entry = Entry(path: string, size: nat, sha256: Digest)

  datatype Manifest = Manifest(runId: string, scannerId: string, policyHash: string, files: seq<Entry>, totalBytes: nat)

  /** One scanner call: what it read, what it left in quarantine, whether it raised. */
  datatype Scan = Scan(runId: string, path: string, before: seq<byte>, after: seq<byte>, accepted: bool)

  /** `scans` is the history of scanner calls. */
  datatype Store = Store(
    objects: map<Digest, seq<byte>>,
    quarantined: set<string>,
    manifests: map<string, Manifest>,
    scans: seq<Scan>)

  /** A scanner may raise, and may change the quarantined bytes. */
  type Scanner = (string, seq<byte>) -> (bool, seq<byte>)

  /** The most bytes a file name may take; digests and the store's own names fit. */
  type NameLimit = n: nat | 64 <= n witness 255

  /** `nameLimit` is that of the source's and the store's file systems. */
  datatype Config = Config(
    hash: seq<byte> -> Digest, maxFiles: Option<nat>, maxBytes: Option<nat>, nameLimit: NameLimit)

  /** The bytes a name takes in a directory. */
  function NameSize(x: string): (n: nat) { |EncodeString(x)| }

  predicate PathFits(limit: NameLimit, path: Path)
  {
    forall i | 0 <= i < |path| :: NameSize(path[i]) <= limit
  }

  datatype Request = Request(runId: string, scannerId: string, policyHash: string, root: Node, scan: Scanner)

  /** A run id that names a new directory: the code refuses the first three outright, and
      creating the directory fails for the others. */
  predicate Component(s: string)
  {
    s != "" && '/' !in s && '\\' !in s && s != "." && s != ".." && '\0' !in s
  }

  function Join(path: Path): (s: string)
  {
    if path == [] then "" else if |path| == 1 then path[0] else path[0] + "/" + Join(path[1..])
  }

  /** Export progress: the store, and the files accepted so far unless the export failed. */
  datatype Progress = Progress(store: Store, files: seq<Entry>, total: nat, failed: bool)

  predicate WithinLimits(c: Config, p: Progress, size: nat)
  {
    && (c.maxFiles.Some? ==> |p.files| < c.maxFiles.value)
    && (c.maxBytes.Some? ==> p.total + size <= c.maxBytes.value)
  }

  /** `_export_one` after the limit checks. */
  function ExportOne(c: Config, q: Request, p: Progress, path: Path, bytes: seq<byte>): (r: Progress)
  {
    var name := Join(path);
    var (accepted, after) := q.scan(name, bytes);
    var s := p.store.(scans := p.store.scans + [Scan(q.runId, name, bytes, after, accepted)]);
    var digest := c.hash(bytes);
    if !accepted || c.hash(after) != digest || |after| != |bytes| then p.(store := s, failed := true)
    else if digest in s.objects && (c.hash(s.objects[digest]) != digest || |s.objects[digest]| != |after|) then
      p.(store := s, failed := true)
    else
      var objects := if digest in s.objects then s.objects else s.objects[digest := after];
      Progress(s.(objects := objects), p.files + [Entry(name, |after|, digest)], p.total + |after|, false)
  }

  function ExportItem(c: Config, q: Request, p: Progress, item: Item): (r: Progress)
  {
    if p.failed then p
    else if item.Refused? || !WithinLimits(c, p, |item.bytes|) || !PathFits(c.nameLimit, item.path) then
      p.(failed := true)
    else ExportOne(c, q, p, item.path, item.bytes)
  }

  function ExportItems(c: Config, q: Request, p: Progress, items: seq<Item>): (r: Progress)
  {
    if items == [] then p
    else ExportItem(c, q, ExportItems(c, q, p, items[..|items| - 1]), items[|items| - 1])
  }

  predicate Acceptable(c: Config, s: Store, q: Request)
  {
    && Component(q.runId) && NameSize(q.runId) <= c.nameLimit && q.scannerId != "" && q.policyHash != ""
    && q.root.Folder? && q.runId !in s.quarantined
  }

  function Begin(s: Store, q: Request): (p: Progress)
  {
    Progress(s.(quarantined := s.quarantined + {q.runId}), [], 0, false)
  }

  /** `export_tree`: the store afterwards, and the manifest unless it raised. */
  function Export(c: Config, s: Store, q: Request): (r: (Store, Option<Manifest>))
  {
    ExportListed(c, s, q, Walk(q.root, []))
  }

  /** The same for what the walk lists. */
  function ExportListed(c: Config, s: Store, q: Request, items: seq<Item>): (r: (Store, Option<Manifest>))
  {
    if !Acceptable(c, s, q) then (s, None)
    else
      var p := ExportItems(c, q, Begin(s, q), items);
      if p.failed || q.runId in p.store.manifests then (p.store, None)
      else
        var m := Manifest(q.runId, q.scannerId, q.policyHash, p.files, p.total);
        (p.store.(manifests := p.store.manifests[q.runId := m]), Some(m))
  }

  // ----- the store invariant -----

  ghost predicate WasAccepted(s: Store, runId: string, after: seq<byte>)
  {
    exists i | 0 <= i < |s.scans| :: s.scans[i].accepted && s.scans[i].runId == runId && s.scans[i].after == after
  }

  ghost predicate ObjectOk(c: Config, s: Store, d: Digest)
  {
    d in s.objects && c.hash(s.objects[d]) == d && exists r :: WasAccepted(s, r, s.objects[d])
  }

  function Sum(files: seq<Entry>): (n: nat)
  {
    if files == [] then 0 else Sum(files[..|files| - 1]) + files[|files| - 1].size
  }

  /** The file was accepted by this run's scanner with the recorded digest and size. */
  ghost predicate EntryOk(c: Config, s: Store, runId: string, e: Entry)
  {
    && e.sha256 in s.objects && |s.objects[e.sha256]| == e.size
    && exists i | 0 <= i < |s.scans| ::
         && s.scans[i].accepted && s.scans[i].runId == runId && s.scans[i].path == e.path
         && c.hash(s.scans[i].after) == e.sha256 && |s.scans[i].after| == e.size
  }

  ghost predicate FilesOk(c: Config, s: Store, runId: string, files: seq<Entry>, total: nat)
  {
    && (forall i | 0 <= i < |files| :: EntryOk(c, s, runId, files[i]))
    && total == Sum(files)
    && (c.maxFiles.Some? ==> |files| <= c.maxFiles.value)
    && (c.maxBytes.Some? ==> total <= c.maxBytes.value)
  }

  ghost predicate StoreOk(c: Config, s: Store)
  {
    && (forall d | d in s.objects :: ObjectOk(c, s, d))
    && (forall r | r in s.manifests ::
          && r in s.quarantined && s.manifests[r].runId == r
          && FilesOk(c, s, r, s.manifests[r].files, s.manifests[r].totalBytes))
  }

  /** Nothing in the store changes or disappears. */
  ghost predicate Grows(s: Store, t: Store)
  {
    && (forall d | d in s.objects :: d in t.objects && t.objects[d] == s.objects[d])
    && (forall r | r in s.manifests :: r in t.manifests && t.manifests[r] == s.manifests[r])
    && s.scans <= t.scans
    && s.quarantined <= t.quarantined
  }

  ghost predicate ProgressOk(c: Config, q: Request, p: Progress)
  {
    StoreOk(c, p.store) && q.runId in p.store.quarantined
        && (!p.failed ==> FilesOk(c, p.store, q.runId, p.files, p.total))
  }

  lemma AcceptedGrows(s: Store, t: Store, r: string, after: seq<byte>)
    requires Grows(s, t) && WasAccepted(s, r, after)
    ensures WasAccepted(t, r, after)
  {
    var i :| 0 <= i < |s.scans| && s.scans[i].accepted && s.scans[i].runId == r && s.scans[i].after == after;
    assert t.scans[i] == s.scans[i];
  }

  lemma FilesGrow(c: Config, s: Store, t: Store, r: string, files: seq<Entry>, total: nat)
    requires Grows(s, t) && FilesOk(c, s, r, files, total)
    ensures FilesOk(c, t, r, files, total)
  {
    forall k | 0 <= k < |files| ensures EntryOk(c, t, r, files[k]) {
      assert EntryOk(c, s, r, files[k]);
      var i :| 0 <= i < |s.scans| && s.scans[i].accepted && s.scans[i].runId == r && s.scans[i].path == files[k].path
               && c.hash(s.scans[i].after) == files[k].sha256 && |s.scans[i].after| == files[k].size;
      assert t.scans[i] == s.scans[i];
    }
  }

  /** Growing by accepted objects keeps the invariant. */
  lemma StoreGrows(c: Config, s: Store, t: Store)
    requires StoreOk(c, s) && Grows(s, t) && t.manifests == s.manifests
    requires forall d | d in t.objects :: d in s.objects || ObjectOk(c, t, d)
    ensures StoreOk(c, t)
  {
    forall d | d in t.objects ensures ObjectOk(c, t, d) {
      if d in s.objects {
        assert ObjectOk(c, s, d);
        var r :| WasAccepted(s, r, s.objects[d]);
        AcceptedGrows(s, t, r, s.objects[d]);
      }
    }
    forall r | r in t.manifests ensures FilesOk(c, t, r, t.manifests[r].files, t.manifests[r].totalBytes) {
      FilesGrow(c, s, t, r, s.manifests[r].files, s.manifests[r].totalBytes);
    }
  }

  lemma ExportOneKeeps(c: Config, q: Request, p: Progress, path: Path, bytes: seq<byte>)
    requires ProgressOk(c, q, p) && !p.failed && WithinLimits(c, p, |bytes|)
    ensures var r := ExportOne(c, q, p, path, bytes);
            ProgressOk(c, q, r) && Grows(p.store, r.store)
  {
    var name := Join(path);
    var (accepted, after) := q.scan(name, bytes);
    var r := ExportOne(c, q, p, path, bytes);
    var n := |p.store.scans|;
    assert r.store.scans[n] == Scan(q.runId, name, bytes, after, accepted);
    assert Grows(p.store, r.store);
    if accepted {
      assert WasAccepted(r.store, q.runId, after);
    }
    StoreGrows(c, p.store, r.store);
    if !r.failed {
      FilesGrow(c, p.store, r.store, q.runId, p.files, p.total);
      assert EntryOk(c, r.store, q.runId, r.files[|p.files|]);
      assert r.files[..|p.files|] == p.files;
    }
  }

  lemma {:induction false} ExportItemsKeeps(c: Config, q: Request, p: Progress, items: seq<Item>)
    requires ProgressOk(c, q, p)
    ensures var r := ExportItems(c, q, p, items);
            ProgressOk(c, q, r) && Grows(p.store, r.store)
  {
    if items != [] {
      var n := |items| - 1;
      ExportItemsKeeps(c, q, p, items[..n]);
      var mid := ExportItems(c, q, p, items[..n]);
      if !mid.failed && items[n].Regular? && WithinLimits(c, mid, |items[n].bytes|)
         && PathFits(c.nameLimit, items[n].path) {
        ExportOneKeeps(c, q, mid, items[n].path, items[n].bytes);
      }
    }
  }

  lemma ExportKeeps(c: Config, s: Store, q: Request)
    requires StoreOk(c, s)
    ensures var (t, m) := Export(c, s, q);
            && StoreOk(c, t) && Grows(s, t)
            && (m.Some? ==> q.runId in t.manifests && t.manifests[q.runId] == m.value)
  {
    if Acceptable(c, s, q) {
      var p0 := Begin(s, q);
      StoreGrows(c, s, p0.store);
      ExportItemsKeeps(c, q, p0, Walk(q.root, []));
      var p := ExportItems(c, q, p0, Walk(q.root, []));
      var (t, m) := Export(c, s, q);
      if m.Some? {
        assert Grows(p.store, t);
        ManifestKeeps(c, p.store, t, q.runId, m.value);
      }
    }
  }

  lemma ManifestKeeps(c: Config, s: Store, t: Store, r: string, m: Manifest)
    requires StoreOk(c, s) && t == s.(manifests := s.manifests[r := m]) && r !in s.manifests
    requires r in s.quarantined && m.runId == r && FilesOk(c, s, r, m.files, m.totalBytes)
    ensures StoreOk(c, t)
  {
    assert Grows(s, t);
    forall d | d in t.objects ensures ObjectOk(c, t, d) {
      assert ObjectOk(c, s, d);
      var x :| WasAccepted(s, x, s.objects[d]);
      AcceptedGrows(s, t, x, s.objects[d]);
    }
    forall x | x in t.manifests ensures FilesOk(c, t, x, t.manifests[x].files, t.manifests[x].totalBytes) {
      FilesGrow(c, s, t, x, t.manifests[x].files, t.manifests[x].totalBytes);
    }
  }

  function EmptyStore(): (s: Store) { Store(map[], {}, map[], []) }

  function ExportAll(c: Config, s: Store, qs: seq<Request>): (t: Store)
    decreases |qs|
  {
    if qs == [] then s else ExportAll(c, Export(c, s, qs[0]).0, qs[1..])
  }

  /** Over every sequence of exports, completed or rejected midway, the store keeps its
      invariant and never loses or changes anything. */
  lemma {:induction false} EveryExportSequenceIsSafe(c: Config, s: Store, qs: seq<Request>)
    requires StoreOk(c, s)
    ensures StoreOk(c, ExportAll(c, s, qs)) && Grows(s, ExportAll(c, s, qs))
    decreases |qs|
  {
    if qs != [] {
      ExportKeeps(c, s, qs[0]);
      EveryExportSequenceIsSafe(c, Export(c, s, qs[0]).0, qs[1..]);
    }
  }

  // ----- run ids -----

  /** What an export asks of its request before anything is written. */
  predicate WellFormed(c: Config, q: Request)
  {
    && q.runId != "" && q.runId != "." && q.runId != ".."
    && (forall i | 0 <= i < |q.runId| :: q.runId[i] !in {'/', '\\', '\0'}) && |EncodeString(q.runId)| <= c.nameLimit
    && q.scannerId != "" && q.policyHash != "" && q.root.Folder?
  }

  lemma AcceptableMeans(c: Config, s: Store, q: Request)
    ensures Acceptable(c, s, q) <==> WellFormed(c, q) && q.runId !in s.quarantined
  {
  }

  lemma {:induction false} ItemsTakeNoId(c: Config, q: Request, p: Progress, items: seq<Item>)
    ensures ExportItems(c, q, p, items).store.quarantined == p.store.quarantined
  {
    if items != [] {
      ItemsTakeNoId(c, q, p, items[..|items| - 1]);
    }
  }

  lemma ExportTakesItsId(c: Config, s: Store, q: Request)
    ensures Export(c, s, q).0.quarantined == s.quarantined + if WellFormed(c, q) then {q.runId} else {}
  {
    ItemsTakeNoId(c, q, Begin(s, q), Walk(q.root, []));
  }

  /** After any exports the ids taken are those of the well-formed requests, whatever became of
      them: a run id is used once, even by an export that was rejected. */
  lemma {:induction false} IdsTaken(c: Config, s: Store, qs: seq<Request>, id: string)
    ensures id in ExportAll(c, s, qs).quarantined
            <==> id in s.quarantined || exists i | 0 <= i < |qs| :: WellFormed(c, qs[i]) && qs[i].runId == id
    decreases |qs|
  {
    if qs != [] {
      ExportTakesItsId(c, s, qs[0]);
      IdsTaken(c, Export(c, s, qs[0]).0, qs[1..], id);
      assert forall i | 0 < i < |qs| :: qs[i] == qs[1..][i - 1];
    }
  }
}
