/** The document side of the language server, updated in place. */
module DocumentServer {
  import opened Wrappers
  import opened Documents

  /** Diagnostics collected per URI while a run is published. */
  type ByUri = map<Uri, seq<Diagnostic>>

  ghost predicate Collected(found: ByUri, docs: map<Uri, Doc>, diagnostics: seq<Diagnostic>) {
    forall u :: CollectedAt(found, docs, diagnostics, u)
  }

  ghost predicate CollectedAt(found: ByUri, docs: map<Uri, Doc>, diagnostics: seq<Diagnostic>, u: Uri) {
    && (u in found <==> Findings(docs, diagnostics, u) != [])
    && (u in found ==> found[u] == Findings(docs, diagnostics, u))
  }

  class LspServer {
    var docs: map<Uri, Doc>
    var overlay: map<Path, Entry>
    var published: map<Uri, Path>
    var workspaces: seq<AbsolutePath>
    var inlay: bool

    function View(): Editor
      reads this
    {
      Editor(docs, overlay, published, workspaces, inlay)
    }

    constructor ()
      ensures View() == Editor(map[], map[], map[], [], true)
    {
      docs, overlay, published, workspaces, inlay := map[], map[], map[], [], true;
    }

    /** A copy that shares nothing that can change. */
    method Clone() returns (copy: LspServer)
      ensures fresh(copy) && copy.View() == View()
    {
      copy := new LspServer();
      copy.inlay := inlay;
      copy.workspaces := workspaces;
      copy.docs, copy.overlay, copy.published := docs, overlay, published;
    }

    /** The URIs open on a path, sorted. */
    method DocumentUris(path: Path) returns (uris: seq<Uri>)
      ensures Ascending(uris) && forall u :: u in uris <==> u in Holders(docs, path)
    {
      uris := [];
      var left := docs.Keys;
      while left != {}
        invariant left <= docs.Keys && Ascending(uris)
        invariant forall u :: u in uris <==> u in Holders(docs, path) && u !in left
        decreases |left|
      {
        var uri :| uri in left;
        left := left - {uri};
        if docs[uri].path == path {
          uris := Insert(uris, uri);
        }
      }
    }

    method SyncOverlay(path: Path)
      modifies this`overlay
      ensures overlay == Sync(docs, old(overlay), path)
    {
      if path == "" {
        return;
      }
      var uris := DocumentUris(path);
      overlay := overlay - {path};
      if |uris| > 0 {
        FirstIsLeast(uris, Holders(docs, path));
        var doc := docs[uris[0]];
        if Covered(path) {
          overlay := overlay[path := Entry(doc.version, doc.text)];
        }
      } else {
        assert Holders(docs, path) == {};
      }
    }

    method Open(uri: Uri, text: string, version: int, path: Path)
      modifies this`docs, this`overlay
      ensures View() == Opened(old(View()), uri, text, version, path)
    {
      var previous := if uri in docs then docs[uri].path else path;
      docs := docs[uri := Doc(path, text, version)];
      if previous != path {
        SyncOverlay(previous);
      }
      SyncOverlay(path);
    }

    method Change(uri: Uri, text: string, version: int)
      modifies this`docs, this`overlay
      ensures View() == Changed(old(View()), uri, text, version)
    {
      if uri !in docs || version <= docs[uri].version {
        return;
      }
      docs := docs[uri := docs[uri].(text := text, version := version)];
      SyncOverlay(docs[uri].path);
    }

    /** Forgets a document and its findings, and clears what the client shows for it. */
    method Close(uri: Uri) returns (frames: seq<Frame>)
      modifies this`docs, this`overlay, this`published
      ensures View() == Closed(old(View()), uri)
      ensures frames == [Publish(uri, None, [])]
    {
      if uri in docs {
        var path := docs[uri].path;
        docs := docs - {uri};
        SyncOverlay(path);
      }
      published := published - {uri};
      frames := [Publish(uri, None, [])];
    }

    /** The URIs a file's diagnostics are reported on. */
    method TargetUris(file: Path) returns (targets: seq<Uri>)
      requires file != ""
      ensures Ascending(targets) && forall u :: u in targets <==> u in Targets(docs, file)
    {
      targets := DocumentUris(file);
      if |targets| == 0 {
        assert Holders(docs, file) == {} by {
          forall u ensures u !in Holders(docs, file) {
            assert u !in targets;
          }
        }
        targets := [FileUri(file)];
      } else {
        assert targets[0] in Holders(docs, file);
      }
    }

    /** Groups a run's diagnostics by the URIs they are reported on. */
    method Collect(diagnostics: seq<Diagnostic>) returns (found: ByUri)
      ensures Collected(found, docs, diagnostics)
    {
      found := map[];
      assert diagnostics[..0] == [];
      for i := 0 to |diagnostics|
        invariant Collected(found, docs, diagnostics[..i])
      {
        ghost var before := found;
        var d := diagnostics[i];
        assert diagnostics[..i + 1][..i] == diagnostics[..i];
        if d.file != "" {
          var targets := TargetUris(d.file);
          found := AppendTo(found, targets, d);
        }
        CollectNext(before, found, docs, diagnostics[..i + 1]);
      }
      assert diagnostics[..|diagnostics|] == diagnostics;
    }

    /** Open documents of the root or of its graph are reported on even without findings. */
    method AddOpen(root: Path, fs: Files, graph: set<Path>, collected: ByUri) returns (found: ByUri)
      ensures forall u :: u in found <==> u in collected || Belongs(docs, fs, graph, root, u)
      ensures forall u | u in found :: found[u] == if u in collected then collected[u] else []
    {
      found := collected;
      var left := docs.Keys;
      while left != {}
        invariant left <= docs.Keys
        invariant forall u :: u in found <==> u in collected || (Belongs(docs, fs, graph, root, u) && u !in left)
        invariant forall u | u in found :: found[u] == if u in collected then collected[u] else []
        decreases |left|
      {
        var uri :| uri in left;
        left := left - {uri};
        var belongs := RootOf(docs, fs, uri) == root || docs[uri].path in graph;
        if belongs && uri !in found {
          found := found[uri := []];
        }
      }
    }

    /** Publishes one run of a root over everything the root owned before. */
    method DiagnoseRoot(root: Path, fs: Files, a: Analysis) returns (frames: seq<Frame>)
      modifies this`published
      ensures Diagnosed(old(View()), fs, root, a, frames, published)
    {
      ghost var e := View();
      var collected := Collect(a.diagnostics);
      var found := AddOpen(root, fs, a.graph, collected);
      Reported(e, fs, root, a, collected, found);
      frames := PublishFound(root, found);
      frames := ClearStale(e.published, root, found, frames);
      ghost var sent := frames;
      frames := frames + [Notice];
      LatestNotice(sent);
      RunDiagnosed(e, fs, root, a, found, sent, published);
    }

    method PublishFound(root: Path, found: ByUri) returns (frames: seq<Frame>)
      modifies this`published
      ensures Owning(published, old(published), found, root)
      ensures Sent(frames, found) && Versioned(frames, docs, found)
    {
      hide Sent, Versioned, VersionOf;
      frames := [];
      var left := found.Keys;
      ghost var done: ByUri := map[];
      NothingSent(docs, found);
      while left != {}
        invariant left <= found.Keys && done.Keys == found.Keys - left && forall u | u in done :: done[u] == found[u]
        invariant Owning(published, old(published), done, root)
        invariant Sent(frames, done) && Versioned(frames, docs, found)
        decreases |left|
      {
        var target :| target in left;
        left := left - {target};
        SendNext(frames, docs, found, done, target);
        done := done[target := found[target]];
        frames := frames + [Publish(target, VersionOf(docs, target), found[target])];
        published := published[target := root];
      }
      assert done == found;
    }

    /** Clears what the root owned and no longer reports. */
    method ClearStale(ghost before: map<Uri, Path>, root: Path, found: ByUri, sent: seq<Frame>) returns (frames: seq<Frame>)
      requires Owning(published, before, found, root)
      requires Sent(sent, found) && Versioned(sent, docs, found)
      modifies this`published
      ensures Cleared(before, root, found, frames, published) && Versioned(frames, docs, found) && Answered(frames) == multiset{}
    {
      assert Sweeping(sent, found, {});
      ghost var cleared: set<Uri>;
      frames, published, cleared := Sweep(root, docs, found, sent, published);
      SweepDone(before, root, found, frames, old(published), cleared);
    }
  }

  /** The clearing loop over the publications of all roots. */
  method Sweep(root: Path, ghost docs: map<Uri, Doc>, found: ByUri, sent: seq<Frame>, owned: map<Uri, Path>)
    returns (frames: seq<Frame>, kept: map<Uri, Path>, ghost cleared: set<Uri>)
    requires Sweeping(sent, found, {}) && Versioned(sent, docs, found)
    ensures Sweeping(frames, found, cleared) && Versioned(frames, docs, found)
    ensures cleared == Orphaned(owned, found, root, owned.Keys) && kept == owned - cleared
  {
    hide Versioned, Sweeping, Orphaned;
    frames, kept, cleared := sent, owned, {};
    var left := owned.Keys;
    StaleNow(owned, found, root);
    while left != {}
      invariant left <= owned.Keys && Versioned(frames, docs, found) && Sweeping(frames, found, cleared)
      invariant cleared == Orphaned(owned, found, root, owned.Keys - left) && kept == owned - cleared
      decreases |left|
    {
      var target :| target in left;
      StaleNext(owned, found, root, left, target, cleared);
      left := left - {target};
      if owned[target] == root && target !in found {
        SweepNext(frames, docs, found, cleared, target);
        cleared := cleared + {target};
        frames := frames + [Publish(target, None, [])];
        kept := kept - {target};
      }
    }
    assert owned.Keys - left == owned.Keys;
  }

  /** Of the URIs looked at, those the root owns but does not report. */
  ghost function Orphaned(owned: map<Uri, Path>, found: ByUri, root: Path, seen: set<Uri>): set<Uri> {
    set u | u in seen && u in owned && owned[u] == root && u !in found
  }

  lemma {:induction false} StaleNow(owned: map<Uri, Path>, found: ByUri, root: Path)
    ensures Orphaned(owned, found, root, owned.Keys - owned.Keys) == {} && owned - {} == owned
  {
  }

  lemma {:induction false} StaleNext(owned: map<Uri, Path>, found: ByUri, root: Path, left: set<Uri>, target: Uri, cleared: set<Uri>)
    requires target in left && left <= owned.Keys
    ensures Orphaned(owned, found, root, owned.Keys - (left - {target}))
         == Orphaned(owned, found, root, owned.Keys - left) + if owned[target] == root && target !in found then {target} else {}
    ensures owned - cleared - {target} == owned - (cleared + {target})
  {
  }

  ghost predicate Owning(published: map<Uri, Path>, before: map<Uri, Path>, found: ByUri, root: Path) {
    && (forall u :: u in published <==> u in before || u in found)
    && (forall u | u in published :: published[u] == if u in found then root else before[u])
  }

  /** Everything found was published, and the cleared URIs show nothing. */
  ghost predicate Sweeping(frames: seq<Frame>, found: ByUri, cleared: set<Uri>) {
    && (forall u :: Latest(frames, u) == if u in found then Some(found[u]) else if u in cleared then Some([]) else None)
    && Answered(frames) == multiset{}
  }

  lemma {:induction false} SweepNext(frames: seq<Frame>, docs: map<Uri, Doc>, found: ByUri, cleared: set<Uri>, target: Uri)
    requires Sweeping(frames, found, cleared) && Versioned(frames, docs, found) && target !in found
    ensures var sent := frames + [Publish(target, None, [])];
            Sweeping(sent, found, cleared + {target}) && Versioned(sent, docs, found)
  {
    PublishOne(frames, docs, found, target, None, []);
  }

  lemma {:induction false} SweepDone(before: map<Uri, Path>, root: Path, found: ByUri, frames: seq<Frame>, owned: map<Uri, Path>, cleared: set<Uri>)
    requires Sweeping(frames, found, cleared) && Owning(owned, before, found, root)
    requires cleared == Orphaned(owned, found, root, owned.Keys)
    ensures Cleared(before, root, found, frames, owned - cleared) && Answered(frames) == multiset{}
  {
    hide Latest, Answered;
  }

  lemma {:induction false} NothingSent(docs: map<Uri, Doc>, found: ByUri)
    ensures Sent([], map[]) && Versioned([], docs, found)
  {
  }

  /** One diagnostic goes to the end of every target's list. */
  method AppendTo(before: ByUri, targets: seq<Uri>, d: Diagnostic) returns (found: ByUri)
    requires Ascending(targets)
    ensures forall u :: u in found <==> u in before || u in targets
    ensures forall u | u in found :: found[u] == (if u in before then before[u] else []) + (if u in targets then [d] else [])
  {
    found := before;
    Distinct(targets);
    for k := 0 to |targets|
      invariant forall u :: u in found <==> u in before || u in targets[..k]
      invariant forall u | u in found ::
        found[u] == (if u in before then before[u] else []) + (if u in targets[..k] then [d] else [])
    {
      var target := targets[k];
      assert target !in targets[..k] && targets[..k + 1] == targets[..k] + [target];
      found := found[target := (if target in found then found[target] else []) + [d]];
    }
    assert targets[..|targets|] == targets;
  }

  /** The frames publish exactly the lists found, and answer nothing. */
  ghost predicate Sent(frames: seq<Frame>, found: ByUri) {
    && (forall u :: Latest(frames, u) == if u in found then Some(found[u]) else None)
    && Answered(frames) == multiset{}
  }

  /** Reported documents are stamped with the version they were analysed at. */
  ghost predicate Versioned(frames: seq<Frame>, docs: map<Uri, Doc>, found: ByUri) {
    forall i | 0 <= i < |frames| && frames[i].Publish? ::
      frames[i].version == if frames[i].uri in found then VersionOf(docs, frames[i].uri) else None
  }

  lemma {:induction false} SendNext(frames: seq<Frame>, docs: map<Uri, Doc>, found: ByUri, done: ByUri, target: Uri)
    requires target in found && Sent(frames, done) && Versioned(frames, docs, found)
    ensures var sent := frames + [Publish(target, VersionOf(docs, target), found[target])];
            Sent(sent, done[target := found[target]]) && Versioned(sent, docs, found)
  {
    PublishOne(frames, docs, found, target, VersionOf(docs, target), found[target]);
  }

  lemma {:induction false} RunDiagnosed(e: Editor, fs: Files, root: Path, a: Analysis, found: ByUri, sent: seq<Frame>, published: map<Uri, Path>)
    requires Cleared(e.published, root, found, sent, published) && Versioned(sent, e.docs, found) && Answered(sent) == multiset{}
    requires forall u :: u in found <==> Reports(e, fs, root, a, u)
    requires forall u | u in found :: found[u] == Findings(e.docs, a.diagnostics, u)
    ensures Diagnosed(e, fs, root, a, sent + [Notice], published)
  {
    hide Reports, Findings;
    LatestNotice(sent);
    forall u ensures DiagnosedAt(e, fs, root, a, sent + [Notice], published, u) {
      assert ClearedAt(e.published, root, found, sent, published, u);
    }
  }

  ghost predicate Cleared(before: map<Uri, Path>, root: Path, found: ByUri, frames: seq<Frame>, published: map<Uri, Path>) {
    forall u :: ClearedAt(before, root, found, frames, published, u)
  }

  ghost predicate ClearedAt(before: map<Uri, Path>, root: Path, found: ByUri, frames: seq<Frame>, published: map<Uri, Path>, u: Uri) {
    if u in found then Latest(frames, u) == Some(found[u]) && u in published && published[u] == root
    else if u in before && before[u] == root then Latest(frames, u) == Some([]) && u !in published
    else Latest(frames, u) == None && (u in published <==> u in before) && (u in published ==> published[u] == before[u])
  }

  lemma {:induction false} FirstIsLeast(uris: seq<Uri>, s: set<Uri>)
    requires Ascending(uris) && uris != [] && forall u :: u in uris <==> u in s
    ensures s != {} && Least(s) == uris[0]
  {
    assert uris[0] in s;
    forall v | v in s ensures LexLe(uris[0], v) {
      var k :| 0 <= k < |uris| && uris[k] == v;
      LexTotal(v, v);
    }
    LeastUnique(s, uris[0]);
  }

  lemma {:induction false} Distinct(s: seq<Uri>)
    requires Ascending(s)
    ensures forall k | 0 <= k < |s| :: s[k] !in s[..k]
  {
  }

  lemma {:induction false} CollectNext(before: ByUri, found: ByUri, docs: map<Uri, Doc>, diagnostics: seq<Diagnostic>)
    requires diagnostics != [] && Collected(before, docs, diagnostics[..|diagnostics| - 1])
    requires var d := diagnostics[|diagnostics| - 1];
             && (forall u :: u in found <==> u in before || u in Targets(docs, d.file))
             && forall u | u in found ::
                  found[u] == (if u in before then before[u] else []) + (if u in Targets(docs, d.file) then [d] else [])
    ensures Collected(found, docs, diagnostics)
  {
    forall u ensures CollectedAt(found, docs, diagnostics, u) {
      assert CollectedAt(before, docs, diagnostics[..|diagnostics| - 1], u);
    }
  }

  /** What is collected is what the run reports. */
  lemma {:induction false} Reported(e: Editor, fs: Files, root: Path, a: Analysis, collected: ByUri, found: ByUri)
    requires Collected(collected, e.docs, a.diagnostics)
    requires forall u :: u in found <==> u in collected || Belongs(e.docs, fs, a.graph, root, u)
    requires forall u | u in found :: found[u] == if u in collected then collected[u] else []
    ensures forall u :: u in found <==> Reports(e, fs, root, a, u)
    ensures forall u | u in found :: found[u] == Findings(e.docs, a.diagnostics, u)
  {
    forall u ensures (u in found <==> Reports(e, fs, root, a, u)) && (u in found ==> found[u] == Findings(e.docs, a.diagnostics, u)) {
      assert CollectedAt(collected, e.docs, a.diagnostics, u);
    }
  }

  lemma {:induction false} PublishOne(frames: seq<Frame>, docs: map<Uri, Doc>, found: ByUri, target: Uri, version: Option<int>,
                                      items: seq<Diagnostic>)
    requires Versioned(frames, docs, found) && version == if target in found then VersionOf(docs, target) else None
    ensures var sent := frames + [Publish(target, version, items)];
            && (forall u :: Latest(sent, u) == if u == target then Some(items) else Latest(frames, u))
            && Answered(sent) == Answered(frames) && Versioned(sent, docs, found)
  {
    var sent := frames + [Publish(target, version, items)];
    assert sent[..|sent| - 1] == frames;
  }

  lemma {:induction false} LatestNotice(frames: seq<Frame>)
    ensures forall u :: Latest(frames + [Notice], u) == Latest(frames, u)
    ensures Answered(frames + [Notice]) == Answered(frames)
  {
    assert (frames + [Notice])[..|frames|] == frames;
  }
}
