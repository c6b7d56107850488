/** The store object and its two operations, as loops over files. */
module ArtifactStore {
  import opened Options
  import opened Utf8
  import opened Artifacts
  import opened ArtifactRoundTrip

  /** A directory being written into. */
  class Destination {
    const limit: NameLimit
    var files: map<Path, seq<byte>>
    var dirs: set<Path>

    constructor (limit: NameLimit)
      ensures State() == EmptyDest(limit)
    {
      this.limit := limit;
      files, dirs := map[], {};
    }

    function State(): (d: Dest)
      reads this
    {
      Dest(limit, files, dirs)
    }

    /** `_copy_exact` after creating the parents. A refusal may leave directories behind,
        and never a file. */
    method CopyExact(path: Path, bytes: seq<byte>) returns (ok: bool)
      modifies this
      ensures ok == Put(old(State()), path, bytes).Some?
      ensures ok ==> State() == Put(old(State()), path, bytes).value
      ensures !ok ==> files == old(files) && old(dirs) <= dirs
    {
      if path == [] || path in files || path in dirs {
        return false;
      }
      if exists p | p in Parents(path) :: p in files {
        return false;
      }
      var staging := Staging(path);
      if !PathFits(limit, staging) {
        return false;
      }
      dirs := dirs + Parents(path);
      if staging in files || staging in dirs {
        return false;
      }
      files := files[staging := bytes];
      StagingIsDistinct(path);
      assert (files - {staging})[path := bytes] == old(files)[path := bytes];
      files := (files - {staging})[path := bytes];
      ok := true;
    }
  }

  lemma StagingIsDistinct(path: Path)
    requires path != []
    ensures Staging(path) != path
  {
    var n := |path| - 1;
    assert Staging(path)[n] == path[n] + ".tmp";
    assert |path[n] + ".tmp"| != |path[n]|;
  }

  class ArtifactStore {
    const config: Config
    var objects: map<Digest, seq<byte>>
    var quarantined: set<string>
    var manifests: map<string, Manifest>
    ghost var scans: seq<Scan>

    constructor (config: Config)
      ensures this.config == config && State() == EmptyStore() && StoreOk(config, State())
    {
      this.config := config;
      objects, quarantined, manifests, scans := map[], {}, map[], [];
    }

    ghost function State(): (s: Store)
      reads this
    {
      Store(objects, quarantined, manifests, scans)
    }

    method ExportOne(q: Request, path: Path, bytes: seq<byte>, ghost p: Progress) returns (entry: Option<Entry>)
      requires State() == p.store && !p.failed
      modifies this
      ensures var r := Artifacts.ExportOne(config, q, p, path, bytes);
              && State() == r.store && manifests == old(manifests)
              && (entry.None? <==> r.failed)
              && (entry.Some? ==> r.files == p.files + [entry.value] && r.total == p.total + entry.value.size)
    {
      var name := Join(path);
      var digest := config.hash(bytes);
      var (accepted, after) := q.scan(name, bytes);
      scans := scans + [Scan(q.runId, name, bytes, after, accepted)];
      if !accepted {
        return None;
      }
      if config.hash(after) != digest || |after| != |bytes| {
        return None;
      }
      if digest in objects {
        if config.hash(objects[digest]) != digest || |objects[digest]| != |after| {
          return None;
        }
      } else {
        objects := objects[digest := after];
      }
      entry := Some(Entry(name, |after|, digest));
    }

    /** `export_tree`. */
    method ExportTree(q: Request) returns (manifest: Option<Manifest>)
      modifies this
      ensures (State(), manifest) == Export(config, old(State()), q)
    {
      if !Component(q.runId) || NameSize(q.runId) > config.nameLimit || q.scannerId == "" || q.policyHash == ""
         || !q.root.Folder? || q.runId in quarantined {
        return None;
      }
      quarantined := quarantined + {q.runId};
      var ok, exported, total := PromoteAll(q, Walk(q.root, []));
      if !ok || q.runId in manifests {
        return None;
      }
      var m := Manifest(q.runId, q.scannerId, q.policyHash, exported, total);
      manifests := manifests[q.runId := m];
      manifest := Some(m);
    }

    /** The loop over the walked files. */
    method PromoteAll(q: Request, items: seq<Item>) returns (ok: bool, exported: seq<Entry>, total: nat)
      modifies this
      ensures var r := ExportItems(config, q, Progress(old(State()), [], 0, false), items);
              State() == r.store && (if ok then r == Progress(State(), exported, total, false) else r.failed)
    {
      ghost var start := Progress(State(), [], 0, false);
      ok, exported, total := true, [], 0;
      var i := 0;
      while i < |items|
        invariant 0 <= i <= |items|
        invariant ExportItems(config, q, start, items[..i]) == Progress(State(), exported, total, false)
      {
        ghost var p := Progress(State(), exported, total, false);
        NextItem(config, q, start, items, i);
        if items[i].Refused? || (config.maxFiles.Some? && |exported| >= config.maxFiles.value)
           || (config.maxBytes.Some? && total + |items[i].bytes| > config.maxBytes.value)
           || !PathFits(config.nameLimit, items[i].path) {
          FailedStays(config, q, start, items, i + 1);
          ok := false;
          return;
        }
        var entry := ExportOne(q, items[i].path, items[i].bytes, p);
        if entry.None? {
          FailedStays(config, q, start, items, i + 1);
          ok := false;
          return;
        }
        exported, total := exported + [entry.value], total + entry.value.size;
        i := i + 1;
      }
      assert items[..i] == items;
    }

    /** Writes artifacts in order. On a refusal at index `n`, the destination's files are
        those of the first `n` artifacts. */
    method Materialize(artifacts: seq<Artifact>, destination: Destination) returns (ok: bool, ghost n: nat)
      modifies destination
      ensures var start := old(destination.State());
              && ok == ArtifactRoundTrip.Materialize(config, State(), start, artifacts).Some?
              && n <= |artifacts| && (ok <==> n == |artifacts|)
              && (var r := ArtifactRoundTrip.Materialize(config, State(), start, artifacts[..n]);
                  r.Some? && destination.files == r.value.files && (ok ==> destination.State() == r.value))
    {
      ghost var start := destination.State();
      var i := 0;
      while i < |artifacts|
        invariant 0 <= i <= |artifacts|
        invariant ArtifactRoundTrip.Materialize(config, State(), start, artifacts[..i]) == Some(destination.State())
        invariant artifacts[..|artifacts|] == artifacts
      {
        var a := artifacts[i];
        n := i;
        NextArtifact(config, State(), start, artifacts, i);
        if !SafeName(a.name) || !ValidDigest(a.sha256) || a.sha256 !in objects
            || config.hash(objects[a.sha256]) != a.sha256 {
          RefusedStays(config, State(), start, artifacts, i + 1);
          return false, n;
        }
        var put := destination.CopyExact(Parts(a.name), objects[a.sha256]);
        if !put {
          RefusedStays(config, State(), start, artifacts, i + 1);
          return false, n;
        }
        i := i + 1;
      }
      return true, |artifacts|;
    }
  }

  lemma {:induction false} NextItem(c: Config, q: Request, p: Progress, items: seq<Item>, i: nat)
    requires i < |items|
    ensures ExportItems(c, q, p, items[..i + 1]) == ExportItem(c, q, ExportItems(c, q, p, items[..i]), items[i])
  {
    assert items[..i + 1][..i] == items[..i];
  }

  lemma {:induction false} FailedStays(c: Config, q: Request, p: Progress, items: seq<Item>, i: nat)
    requires i <= |items| && ExportItems(c, q, p, items[..i]).failed
    ensures ExportItems(c, q, p, items) == ExportItems(c, q, p, items[..i])
    decreases |items| - i
  {
    if i == |items| {
      assert items[..i] == items;
    } else {
      NextItem(c, q, p, items, i);
      FailedStays(c, q, p, items, i + 1);
    }
  }

  lemma {:induction false} NextArtifact(c: Config, s: Store, d: Dest, artifacts: seq<Artifact>, i: nat)
    requires i < |artifacts|
    ensures var r := ArtifactRoundTrip.Materialize(c, s, d, artifacts[..i]);
            ArtifactRoundTrip.Materialize(c, s, d, artifacts[..i + 1])
            == if r.None? then None else MaterializeOne(c, s, r.value, artifacts[i])
  {
    assert artifacts[..i + 1][..i] == artifacts[..i];
  }

  lemma {:induction false} RefusedStays(c: Config, s: Store, d: Dest, artifacts: seq<Artifact>, i: nat)
    requires i <= |artifacts| && ArtifactRoundTrip.Materialize(c, s, d, artifacts[..i]).None?
    ensures ArtifactRoundTrip.Materialize(c, s, d, artifacts).None?
    decreases |artifacts| - i
  {
    if i == |artifacts| {
      assert artifacts[..i] == artifacts;
    } else {
      NextArtifact(c, s, d, artifacts, i);
      RefusedStays(c, s, d, artifacts, i + 1);
    }
  }
}
