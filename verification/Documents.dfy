/** Open documents, the overlay of unsaved text, and the ownership of published diagnostics. */
module Documents {
  import opened Wrappers

  type Uri = string
  type Path = string

  /** A path from the root of the file system. */
  type AbsolutePath = p: Path | "/" <= p witness "/"

  /** What the URI of a workspace folder names: an absolute path, or nothing local. */
  type Folder = p: Path | p == "" || "/" <= p

  type Id = string

  datatype Doc = Doc(path: Path, text: string, version: int)

  datatype Entry = Entry(version: int, text: string)

  datatype Diagnostic = Diagnostic(file: Path, message: string)

  /** What an analysis of one root found: its diagnostics and the sources of its graph. */
  datatype Analysis = Analysis(diagnostics: seq<Diagnostic>, graph: set<Path>)

  /** The file system as far as roots go: the enclosing project of a file, and the root of a
      workspace folder that holds a manifest. */
  datatype Files = Files(discover: Path -> Path, manifest: AbsolutePath -> Option<AbsolutePath>)

  /** A response without a code carries a result. */
  datatype Frame =
    | Response(id: Option<Id>, code: Option<int>)
    | Publish(uri: Uri, version: Option<int>, diagnostics: seq<Diagnostic>)
    | Notice

  datatype Editor = Editor(docs: map<Uri, Doc>, overlay: map<Path, Entry>, published: map<Uri, Path>,
                           workspaces: seq<AbsolutePath>, inlay: bool)

  // ------------------------------------------------------------------------ order ---

  /** Byte order on strings. */
  predicate LexLe(a: string, b: string) {
    a == [] || (b != [] && (a[0] < b[0] || (a[0] == b[0] && LexLe(a[1..], b[1..]))))
  }

  lemma {:induction false} LexTotal(a: string, b: string)
    ensures LexLe(a, b) || LexLe(b, a)
    decreases |a|
  {
    if a != [] && b != [] {
      LexTotal(a[1..], b[1..]);
    }
  }

  lemma {:induction false} LexTrans(a: string, b: string, c: string)
    requires LexLe(a, b) && LexLe(b, c)
    ensures LexLe(a, c)
    decreases |a|
  {
    if a != [] && a[0] == b[0] == c[0] {
      LexTrans(a[1..], b[1..], c[1..]);
    }
  }

  lemma {:induction false} LexAntisymmetric(a: string, b: string)
    requires LexLe(a, b) && LexLe(b, a)
    ensures a == b
    decreases |a|
  {
    if a != [] {
      LexAntisymmetric(a[1..], b[1..]);
      assert a == [a[0]] + a[1..] && b == [b[0]] + b[1..];
    }
  }

  ghost predicate IsLeast(s: set<string>, u: string) {
    u in s && forall v | v in s :: LexLe(u, v)
  }

  lemma {:induction false} LeastExists(s: set<string>) returns (u: string)
    requires s != {}
    ensures IsLeast(s, u)
    decreases |s|
  {
    u :| u in s;
    LexTotal(u, u);
    if s != {u} {
      var w := LeastExists(s - {u});
      LexTotal(u, w);
      if LexLe(u, w) {
        forall v | v in s ensures LexLe(u, v) {
          if v != u { LexTrans(u, w, v); }
        }
      } else {
        u := w;
      }
    }
  }

  ghost function Least(s: set<string>): (u: string)
    requires s != {}
    ensures IsLeast(s, u)
  {
    assert exists u :: IsLeast(s, u) by {
      var u := LeastExists(s);
    }
    var u :| IsLeast(s, u);
    u
  }

  lemma {:induction false} LeastUnique(s: set<string>, u: string)
    requires IsLeast(s, u)
    ensures Least(s) == u
  {
    LexAntisymmetric(Least(s), u);
  }

  /** Strictly increasing. */
  ghost predicate Ascending(s: seq<string>) {
    forall i, j | 0 <= i < j < |s| :: LexLe(s[i], s[j]) && s[i] != s[j]
  }

  method Insert(s: seq<string>, u: string) returns (r: seq<string>)
    requires Ascending(s) && u !in s
    ensures Ascending(r) && forall v :: v in r <==> v in s || v == u
  {
    var k := 0;
    while k < |s| && LexLe(s[k], u)
      invariant 0 <= k <= |s|
      invariant forall i | 0 <= i < k :: LexLe(s[i], u)
    {
      k := k + 1;
    }
    r := s[..k] + [u] + s[k..];
    InsertAscending(s, u, k);
  }

  lemma {:induction false} InsertAscending(s: seq<string>, u: string, k: nat)
    requires Ascending(s) && u !in s && k <= |s|
    requires forall i | 0 <= i < k :: LexLe(s[i], u)
    requires k < |s| ==> !LexLe(s[k], u)
    ensures Ascending(s[..k] + [u] + s[k..])
    ensures forall v :: v in s[..k] + [u] + s[k..] <==> v in s || v == u
  {
    var r := s[..k] + [u] + s[k..];
    assert s == s[..k] + s[k..];
    forall i | k <= i < |s| ensures LexLe(u, s[i]) {
      LexTotal(u, s[k]);
      if i > k { LexTrans(u, s[k], s[i]); }
    }
    forall i, j | 0 <= i < j < |r| ensures LexLe(r[i], r[j]) && r[i] != r[j] {
      assert r[i] == if i < k then s[i] else if i == k then u else s[i - 1];
      assert r[j] == if j < k then s[j] else if j == k then u else s[j - 1];
    }
  }

  // ---------------------------------------------------------------------- overlay ---

  predicate EndsWith(s: string, suffix: string) {
    |suffix| <= |s| && s[|s| - |suffix|..] == suffix
  }

  /** The overlay takes source and data files only, and refuses the rest. */
  predicate Covered(path: Path) {
    EndsWith(path, ".can") || EndsWith(path, ".json")
  }

  /** The open documents of a path. */
  function Holders(docs: map<Uri, Doc>, path: Path): set<Uri> {
    set u | u in docs && docs[u].path == path
  }

  ghost function Sync(docs: map<Uri, Doc>, overlay: map<Path, Entry>, path: Path): map<Path, Entry> {
    if path == "" then overlay
    else if Holders(docs, path) == {} || !Covered(path) then overlay - {path}
    else
      var doc := docs[Least(Holders(docs, path))];
      overlay[path := Entry(doc.version, doc.text)]
  }

  /** The overlay holds, for every covered path with an open document, the text and version
      of the least URI open on that path, and nothing else. */
  ghost predicate OverlayOk(docs: map<Uri, Doc>, overlay: map<Path, Entry>) {
    forall p :: OverlayAt(docs, overlay, p)
  }

  ghost predicate OverlayAt(docs: map<Uri, Doc>, overlay: map<Path, Entry>, p: Path) {
    && (p in overlay <==> Covered(p) && Holders(docs, p) != {})
    && (p in overlay ==> var doc := docs[Least(Holders(docs, p))]; overlay[p] == Entry(doc.version, doc.text))
  }

  ghost function Opened(e: Editor, uri: Uri, text: string, version: int, path: Path): Editor {
    var docs := e.docs[uri := Doc(path, text, version)];
    var overlay := if uri in e.docs && e.docs[uri].path != path then Sync(docs, e.overlay, e.docs[uri].path) else e.overlay;
    e.(docs := docs, overlay := Sync(docs, overlay, path))
  }

  ghost function Changed(e: Editor, uri: Uri, text: string, version: int): Editor {
    if uri !in e.docs || version <= e.docs[uri].version then e else
    var docs := e.docs[uri := e.docs[uri].(text := text, version := version)];
    e.(docs := docs, overlay := Sync(docs, e.overlay, e.docs[uri].path))
  }

  ghost function Closed(e: Editor, uri: Uri): Editor {
    if uri !in e.docs then e.(published := e.published - {uri}) else
    var docs := e.docs - {uri};
    e.(docs := docs, overlay := Sync(docs, e.overlay, e.docs[uri].path), published := e.published - {uri})
  }

  lemma {:induction false} SyncAt(docs: map<Uri, Doc>, overlay: map<Path, Entry>, path: Path, p: Path)
    requires p == path || OverlayAt(docs, overlay, p)
    requires p == "" ==> "" !in overlay
    ensures OverlayAt(docs, Sync(docs, overlay, path), p)
  {
  }

  /** Only the documents of one path differ. */
  ghost predicate SameElsewhere(docs: map<Uri, Doc>, docs': map<Uri, Doc>, paths: set<Path>) {
    forall p | p !in paths :: Holders(docs', p) == Holders(docs, p) && forall u | u in Holders(docs, p) :: docs'[u] == docs[u]
  }

  lemma {:induction false} OpenedKeeps(e: Editor, uri: Uri, text: string, version: int, path: Path)
    requires OverlayOk(e.docs, e.overlay)
    ensures OverlayOk(Opened(e, uri, text, version, path).docs, Opened(e, uri, text, version, path).overlay)
  {
    var e' := Opened(e, uri, text, version, path);
    var previous := if uri in e.docs then e.docs[uri].path else path;
    assert SameElsewhere(e.docs, e'.docs, {path, previous});
    assert OverlayAt(e.docs, e.overlay, "");
    forall p ensures OverlayAt(e'.docs, e'.overlay, p) {
      assert OverlayAt(e.docs, e.overlay, p);
      if previous != path {
        var overlay := Sync(e'.docs, e.overlay, previous);
        if p != path {
          SyncAt(e'.docs, e.overlay, previous, p);
        }
        SyncAt(e'.docs, overlay, path, p);
      } else {
        SyncAt(e'.docs, e.overlay, path, p);
      }
    }
  }

  lemma {:induction false} ChangedKeeps(e: Editor, uri: Uri, text: string, version: int)
    requires OverlayOk(e.docs, e.overlay)
    ensures OverlayOk(Changed(e, uri, text, version).docs, Changed(e, uri, text, version).overlay)
  {
    var e' := Changed(e, uri, text, version);
    if e' != e {
      assert SameElsewhere(e.docs, e'.docs, {e.docs[uri].path});
      assert OverlayAt(e.docs, e.overlay, "");
      forall p ensures OverlayAt(e'.docs, e'.overlay, p) {
        assert OverlayAt(e.docs, e.overlay, p);
        SyncAt(e'.docs, e.overlay, e.docs[uri].path, p);
      }
    }
  }

  lemma {:induction false} ClosedKeeps(e: Editor, uri: Uri)
    requires OverlayOk(e.docs, e.overlay)
    ensures OverlayOk(Closed(e, uri).docs, Closed(e, uri).overlay)
  {
    var e' := Closed(e, uri);
    if uri in e.docs {
      assert SameElsewhere(e.docs, e'.docs, {e.docs[uri].path});
      assert OverlayAt(e.docs, e.overlay, "");
      forall p ensures OverlayAt(e'.docs, e'.overlay, p) {
        assert OverlayAt(e.docs, e.overlay, p);
        SyncAt(e'.docs, e.overlay, e.docs[uri].path, p);
      }
    }
  }

  // -------------------------------------------------------------------- publishing ---

  /** The last diagnostics sent for a URI, if any were. */
  function Latest(frames: seq<Frame>, u: Uri): Option<seq<Diagnostic>> {
    if frames == [] then None
    else
      var last := frames[|frames| - 1];
      if last.Publish? && last.uri == u then Some(last.diagnostics) else Latest(frames[..|frames| - 1], u)
  }

  /** What the client shows for a URI. */
  function Shown(frames: seq<Frame>, u: Uri): seq<Diagnostic> {
    Latest(frames, u).GetOr([])
  }

  lemma {:induction false} LatestAppend(a: seq<Frame>, b: seq<Frame>, u: Uri)
    ensures Latest(a + b, u) == if Latest(b, u).Some? then Latest(b, u) else Latest(a, u)
    decreases |b|
  {
    if b == [] {
      assert a + b == a;
    } else {
      assert (a + b)[..|a + b| - 1] == a + b[..|b| - 1];
      LatestAppend(a, b[..|b| - 1], u);
    }
  }

  /** Ids answered, in a list of frames. */
  function Answered(frames: seq<Frame>): multiset<Id> {
    if frames == [] then multiset{}
    else
      var last := frames[|frames| - 1];
      Answered(frames[..|frames| - 1]) + if last.Response? && last.id.Some? then multiset{last.id.value} else multiset{}
  }

  lemma {:induction false} AnsweredAppend(a: seq<Frame>, b: seq<Frame>)
    ensures Answered(a + b) == Answered(a) + Answered(b)
    decreases |b|
  {
    if b == [] {
      assert a + b == a;
    } else {
      assert (a + b)[..|a + b| - 1] == a + b[..|b| - 1];
      AnsweredAppend(a, b[..|b| - 1]);
    }
  }

  function FileUri(path: Path): Uri {
    "file://" + path
  }

  /** A file's diagnostics go to every URI open on it, or else to the file's own URI. */
  function Targets(docs: map<Uri, Doc>, file: Path): set<Uri> {
    if file == "" then {} else if Holders(docs, file) == {} then {FileUri(file)} else Holders(docs, file)
  }

  /** The diagnostics of a run that belong to a URI, in the order the run found them. */
  function Findings(docs: map<Uri, Doc>, diagnostics: seq<Diagnostic>, u: Uri): seq<Diagnostic> {
    if diagnostics == [] then []
    else
      var last := diagnostics[|diagnostics| - 1];
      Findings(docs, diagnostics[..|diagnostics| - 1], u) + if u in Targets(docs, last.file) then [last] else []
  }

  function RootOf(docs: map<Uri, Doc>, fs: Files, u: Uri): Path {
    if u !in docs || docs[u].path == "" then "" else if "untitled:" <= u then docs[u].path else fs.discover(docs[u].path)
  }

  /** An open document the run speaks for even when it found nothing there. */
  predicate Belongs(docs: map<Uri, Doc>, fs: Files, graph: set<Path>, root: Path, u: Uri) {
    u in docs && (RootOf(docs, fs, u) == root || docs[u].path in graph)
  }

  /** The URIs a run reports on. */
  ghost predicate Reports(e: Editor, fs: Files, root: Path, a: Analysis, u: Uri) {
    Findings(e.docs, a.diagnostics, u) != [] || Belongs(e.docs, fs, a.graph, root, u)
  }

  function VersionOf(docs: map<Uri, Doc>, u: Uri): Option<int> {
    if u in docs then Some(docs[u].version) else None
  }

  /** What a successful run of `root` sends, in some order, and how ownership moves: reported
      URIs show exactly the run's findings and belong to the root; URIs it owned before and no
      longer reports are cleared; all others are left alone. */
  ghost predicate Diagnosed(e: Editor, fs: Files, root: Path, a: Analysis, frames: seq<Frame>, published: map<Uri, Path>) {
    && (forall u :: DiagnosedAt(e, fs, root, a, frames, published, u))
    && Answered(frames) == multiset{}
    && (forall i | 0 <= i < |frames| && frames[i].Publish? ::
          frames[i].version == if Reports(e, fs, root, a, frames[i].uri) then VersionOf(e.docs, frames[i].uri) else None)
  }

  ghost predicate DiagnosedAt(e: Editor, fs: Files, root: Path, a: Analysis, frames: seq<Frame>, published: map<Uri, Path>, u: Uri) {
    if Reports(e, fs, root, a, u) then
      Latest(frames, u) == Some(Findings(e.docs, a.diagnostics, u)) && u in published && published[u] == root
    else if u in e.published && e.published[u] == root then
      Latest(frames, u) == Some([]) && u !in published
    else
      Latest(frames, u) == None && (u in published <==> u in e.published) && (u in published ==> published[u] == e.published[u])
  }
}
