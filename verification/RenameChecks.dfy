/** The checks around a rename: finding the occurrence under the cursor, deciding that a
    candidate resolves the same way, and that it brings no new errors. */
module RenameChecks {
  import opened Wrappers
  import opened Rename

  type File = string

  datatype Occurrence = Occurrence(span: Span, id: string, decl: bool)

  function Width(o: Occurrence): int {
    o.span.end - o.span.start
  }

  predicate Covers(o: Occurrence, offset: int) {
    o.span.start <= offset < o.span.end
  }

  ghost predicate Sorted(occurrences: seq<Occurrence>) {
    forall i, j | 0 <= i < j < |occurrences| :: occurrences[i].span.start <= occurrences[j].span.start
  }

  /** The first of the narrowest occurrences covering the offset, over the whole list. */
  function FullScan(occurrences: seq<Occurrence>, offset: int): (best: Option<nat>)
    ensures best.None? <==> forall i | 0 <= i < |occurrences| :: !Covers(occurrences[i], offset)
    ensures best.Some? ==>
      && best.value < |occurrences| && Covers(occurrences[best.value], offset)
      && (forall i | 0 <= i < |occurrences| && Covers(occurrences[i], offset) :: Width(occurrences[best.value]) <= Width(occurrences[i]))
      && (forall i | 0 <= i < best.value && Covers(occurrences[i], offset) :: Width(occurrences[best.value]) < Width(occurrences[i]))
  {
    if occurrences == [] then None else
    var n := |occurrences| - 1;
    var before := FullScan(occurrences[..n], offset);
    assert forall i | 0 <= i < n :: occurrences[..n][i] == occurrences[i];
    if Covers(occurrences[n], offset) && (before.None? || Width(occurrences[n]) < Width(occurrences[before.value])) then Some(n) else before
  }

  /** The scan stops at the first occurrence that starts after the offset; on a sorted list
      it finds what a scan of everything would. */
  method OccurrenceAt(occurrences: seq<Occurrence>, offset: int) returns (best: Option<nat>)
    requires Sorted(occurrences)
    ensures best == FullScan(occurrences, offset)
  {
    hide FullScan, Sorted;
    best := None;
    var i := 0;
    ScanNothing(occurrences, offset);
    while i < |occurrences|
      invariant 0 <= i <= |occurrences| && best == FullScan(occurrences[..i], offset)
      invariant best.Some? ==> best.value < i
    {
      if occurrences[i].span.start > offset {
        break;
      }
      ScanNext(occurrences, offset, i);
      if offset < occurrences[i].span.end {
        if best.None? || Width(occurrences[i]) < Width(occurrences[best.value]) {
          best := Some(i);
        }
      }
      i := i + 1;
    }
    RestIsLater(occurrences, offset, i, |occurrences|);
    assert occurrences[..|occurrences|] == occurrences;
  }

  lemma {:induction false} ScanNothing(occurrences: seq<Occurrence>, offset: int)
    ensures FullScan(occurrences[..0], offset) == None
  {
  }

  lemma {:induction false} ScanNext(occurrences: seq<Occurrence>, offset: int, i: nat)
    requires i < |occurrences|
    ensures var before := FullScan(occurrences[..i], offset);
            && (before.Some? ==> before.value < i)
            && FullScan(occurrences[..i + 1], offset)
            == if Covers(occurrences[i], offset) && (before.None? || Width(occurrences[i]) < Width(occurrences[before.value])) then Some(i) else before
  {
    assert occurrences[..i + 1][..i] == occurrences[..i];
  }

  lemma {:induction false} RestIsLater(occurrences: seq<Occurrence>, offset: int, i: nat, n: nat)
    requires Sorted(occurrences) && i <= n <= |occurrences| && (i < |occurrences| ==> occurrences[i].span.start > offset)
    ensures FullScan(occurrences[..n], offset) == FullScan(occurrences[..i], offset)
    decreases n
  {
    if i < n {
      RestIsLater(occurrences, offset, i, n - 1);
      assert occurrences[..n][..n - 1] == occurrences[..n - 1];
      assert occurrences[i].span.start <= occurrences[n - 1].span.start;
    }
  }

  // ---------------------------------------------------------------------- stability ---

  type Index = map<File, seq<Occurrence>>

  ghost predicate Indexed(index: Index) {
    forall file | file in index :: Sorted(index[file])
  }

  /** Every occurrence of one identity, by file and place. */
  function Group(index: Index, id: string): set<(File, nat)> {
    set file, k | file in index.Keys && 0 <= k < |index[file]| && index[file][k].id == id :: (file, k)
  }

  type Targets = map<File, seq<Target>>

  function Places(targets: Targets): set<(File, nat)> {
    set file, i | file in targets.Keys && 0 <= i < |targets[file]| :: (file, i)
  }

  /** The occurrence a renamed token is found to be in the candidate. */
  function FoundAt(index: Index, file: File, t: Target): Option<nat> {
    if file in index then FullScan(index[file], t.renamed.start) else None
  }

  predicate Hits(bodies: map<File, string>, index: Index, file: File, t: Target, name: string, id: string) {
    && file in bodies && Within(bodies[file], t.renamed) && Slice(bodies[file], t.renamed) == name
    && FoundAt(index, file, t).Some? && index[file][FoundAt(index, file, t).value].id == id
  }

  ghost predicate AllHit(bodies: map<File, string>, index: Index, targets: Targets, name: string, id: string) {
    forall file, i | file in targets && 0 <= i < |targets[file]| :: Hits(bodies, index, file, targets[file][i], name, id)
  }

  /** Every renamed token spells the new name, all belong to one identity, and that identity
      has exactly as many occurrences as were renamed. */
  ghost predicate Stable(bodies: map<File, string>, index: Index, targets: Targets, name: string) {
    exists id: string :: id != "" && AllHit(bodies, index, targets, name, id) && Places(targets) != {}
                         && |Group(index, id)| == |Places(targets)|
  }

  /** The occurrence each renamed place resolves to. */
  function Image(index: Index, targets: Targets, place: (File, nat)): (File, nat)
    requires place in Places(targets) && FoundAt(index, place.0, targets[place.0][place.1]).Some?
  {
    (place.0, FoundAt(index, place.0, targets[place.0][place.1]).value)
  }

  ghost predicate AllFound(index: Index, targets: Targets) {
    forall place | place in Places(targets) :: FoundAt(index, place.0, targets[place.0][place.1]).Some?
  }

  /** No occurrence is the innermost one at two renamed starts. */
  ghost predicate Apart(index: Index, targets: Targets)
    requires AllFound(index, targets)
  {
    forall p, q | p in Places(targets) && q in Places(targets) && Image(index, targets, p) == Image(index, targets, q) :: p == q
  }

  /** Every occurrence of the identity is one of the renamed places. */
  ghost predicate Onto(index: Index, targets: Targets, id: string)
    requires AllFound(index, targets)
  {
    forall o | o in Group(index, id) :: exists p | p in Places(targets) :: Image(index, targets, p) == o
  }

  /** The renamed places are, one to one, all the occurrences of the identity. */
  ghost predicate Bijective(index: Index, targets: Targets, id: string)
    requires AllFound(index, targets)
  {
    && Apart(index, targets)
    && (forall p | p in Places(targets) :: Image(index, targets, p) in Group(index, id))
    && Onto(index, targets, id)
  }

  function ImageOf(index: Index, targets: Targets, places: set<(File, nat)>): set<(File, nat)>
    requires AllFound(index, targets) && places <= Places(targets)
  {
    set p | p in places :: Image(index, targets, p)
  }

  lemma {:induction false} ImageSize(index: Index, targets: Targets, places: set<(File, nat)>)
    requires AllFound(index, targets) && places <= Places(targets) && Apart(index, targets)
    ensures |ImageOf(index, targets, places)| == |places|
    decreases |places|
  {
    if places != {} {
      var p :| p in places;
      ImageSize(index, targets, places - {p});
      hide Image, Places, FullScan, FoundAt;
      assert ImageOf(index, targets, places) == ImageOf(index, targets, places - {p}) + {Image(index, targets, p)};
      assert Image(index, targets, p) !in ImageOf(index, targets, places - {p});
    }
  }

  lemma {:induction false} ImageAtMost(index: Index, targets: Targets, places: set<(File, nat)>)
    requires AllFound(index, targets) && places <= Places(targets)
    ensures |ImageOf(index, targets, places)| <= |places|
    decreases |places|
  {
    if places != {} {
      var p :| p in places;
      ImageAtMost(index, targets, places - {p});
      hide Image, Places, FullScan, FoundAt;
      assert ImageOf(index, targets, places) == ImageOf(index, targets, places - {p}) + {Image(index, targets, p)};
    }
  }

  lemma {:induction false} SameSize<T>(a: set<T>, b: set<T>)
    requires a <= b && |a| == |b|
    ensures a == b
  {
    assert b == a + (b - a);
    assert |b - a| == 0;
  }

  lemma {:induction false} HitsAreFound(bodies: map<File, string>, index: Index, targets: Targets, name: string, id: string)
    requires AllHit(bodies, index, targets, name, id)
    ensures AllFound(index, targets)
    ensures ImageOf(index, targets, Places(targets)) <= Group(index, id)
  {
    forall place | place in Places(targets) ensures FoundAt(index, place.0, targets[place.0][place.1]).Some? {
      assert Hits(bodies, index, place.0, targets[place.0][place.1], name, id);
    }
    forall place | place in Places(targets) ensures Image(index, targets, place) in Group(index, id) {
      assert Hits(bodies, index, place.0, targets[place.0][place.1], name, id);
    }
  }

  /** When as many tokens were renamed as the identity has occurrences, all of its occurrences
      were renamed exactly if no occurrence is innermost at two renamed starts. */
  lemma {:induction false} StableExactly(bodies: map<File, string>, index: Index, targets: Targets, name: string, id: string)
    requires AllHit(bodies, index, targets, name, id) && |Group(index, id)| == |Places(targets)|
    ensures AllFound(index, targets)
    ensures Onto(index, targets, id) <==> Apart(index, targets)
    ensures Bijective(index, targets, id) <==> Apart(index, targets)
  {
    HitsAreFound(bodies, index, targets, name, id);
    hide AllHit, FoundAt, Group, Places, Image;
    if Apart(index, targets) {
      ImageSize(index, targets, Places(targets));
      SameSize(ImageOf(index, targets, Places(targets)), Group(index, id));
    }
    if Onto(index, targets, id) {
      OntoApart(index, targets, id);
    }
  }

  /** As many places as occurrences, and every occurrence hit: so none is hit twice. */
  lemma {:induction false} OntoApart(index: Index, targets: Targets, id: string)
    requires AllFound(index, targets) && Onto(index, targets, id) && |Group(index, id)| == |Places(targets)|
    ensures Apart(index, targets)
  {
    hide FoundAt, Group, Places, Image, Onto;
    forall p, q | p in Places(targets) && q in Places(targets) && Image(index, targets, p) == Image(index, targets, q) ensures p == q {
      OntoWithout(index, targets, id, p, q);
    }
  }

  /** A place that another one doubles can be left out without missing an occurrence. */
  lemma {:induction false} OntoWithout(index: Index, targets: Targets, id: string, p: (File, nat), q: (File, nat))
    requires AllFound(index, targets) && Onto(index, targets, id) && |Group(index, id)| == |Places(targets)|
    requires p in Places(targets) && q in Places(targets) && Image(index, targets, p) == Image(index, targets, q)
    ensures p == q
  {
    hide FoundAt, Group, Places, Image, FullScan;
    var rest := if p == q then Places(targets) else Places(targets) - {q};
    forall o | o in Group(index, id) ensures o in ImageOf(index, targets, rest) {
      var r :| r in Places(targets) && Image(index, targets, r) == o;
      assert Image(index, targets, if r in rest then r else p) == o;
    }
    ImageAtMost(index, targets, rest);
    AtMost(Group(index, id), ImageOf(index, targets, rest));
  }

  lemma {:induction false} AtMost<T>(a: set<T>, b: set<T>)
    requires a <= b
    ensures |a| <= |b|
  {
    assert b == a + (b - a);
  }

  /** A bijection is stable, if every renamed token spells the name. */
  lemma {:induction false} BijectionIsStable(bodies: map<File, string>, index: Index, targets: Targets, name: string, id: string)
    requires AllFound(index, targets) && Bijective(index, targets, id) && id != "" && Places(targets) != {}
    requires forall p | p in Places(targets) ::
               p.0 in bodies && Within(bodies[p.0], targets[p.0][p.1].renamed) && Slice(bodies[p.0], targets[p.0][p.1].renamed) == name
    ensures Stable(bodies, index, targets, name)
  {
    forall file, i | file in targets && 0 <= i < |targets[file]| ensures Hits(bodies, index, file, targets[file][i], name, id) {
      var p: (File, nat) := (file, i);
      assert p in Places(targets) && Image(index, targets, p) in Group(index, id);
    }
    hide FoundAt, Group, Places, Image, Hits;
    ImageSize(index, targets, Places(targets));
    assert ImageOf(index, targets, Places(targets)) == Group(index, id);
  }

  /** No occurrence covers two renamed starts. */
  ghost predicate CoverOnce(index: Index, targets: Targets) {
    forall file, k, i, j | file in index && file in targets && 0 <= k < |index[file]| && 0 <= i < j < |targets[file]| ::
      !(Covers(index[file][k], targets[file][i].renamed.start) && Covers(index[file][k], targets[file][j].renamed.start))
  }

  lemma {:induction false} CoverOnceApart(index: Index, targets: Targets)
    requires AllFound(index, targets) && CoverOnce(index, targets)
    ensures Apart(index, targets)
  {
    forall p, q | p in Places(targets) && q in Places(targets) && Image(index, targets, p) == Image(index, targets, q) ensures p == q {
      var k := Image(index, targets, p).1;
      assert Covers(index[p.0][k], targets[p.0][p.1].renamed.start) && Covers(index[p.0][k], targets[p.0][q.1].renamed.start);
    }
  }

  /** At every renamed start the innermost occurrence ends where the renamed token ends. */
  ghost predicate EndTogether(index: Index, targets: Targets)
    requires AllFound(index, targets)
  {
    forall p | p in Places(targets) :: index[p.0][Image(index, targets, p).1].span.end == targets[p.0][p.1].renamed.end
  }

  /** Renamed tokens ascend, and each ends before the next begins. */
  ghost predicate InTurn(list: seq<Target>) {
    forall i, j | 0 <= i < j < |list| :: list[i].renamed.end <= list[j].renamed.start < list[j].renamed.end
  }

  lemma {:induction false} EndTogetherApart(index: Index, targets: Targets)
    requires AllFound(index, targets) && EndTogether(index, targets)
    requires forall file | file in targets :: InTurn(targets[file])
    ensures Apart(index, targets)
  {
    forall p, q | p in Places(targets) && q in Places(targets) && Image(index, targets, p) == Image(index, targets, q) ensures p == q {
      assert InTurn(targets[p.0]);
    }
  }

  /** Two tokens of one file, both inside the first of its two occurrences. */
  function OverlappedTargets(): Targets {
    map["f" := [Target(Span(0, 1), Span(0, 1)), Target(Span(1, 2), Span(1, 2))]]
  }

  function OverlappedIndex(): Index {
    map["f" := [Occurrence(Span(0, 2), "x", false), Occurrence(Span(2, 3), "x", false)]]
  }

  lemma {:induction false} OverlappedFound()
    ensures forall t | t in OverlappedTargets()["f"] :: FoundAt(OverlappedIndex(), "f", t) == Some(0)
  {
    var list := OverlappedIndex()["f"];
    assert list[..1] == [list[0]];
    assert FullScan(list[..1], 0) == Some(0) && FullScan(list[..1], 1) == Some(0);
    assert FullScan(list, 0) == Some(0) && FullScan(list, 1) == Some(0);
  }

  lemma {:induction false} OverlappedSets()
    ensures Group(OverlappedIndex(), "x") == {("f", 0), ("f", 1)} && Places(OverlappedTargets()) == {("f", 0), ("f", 1)}
    ensures |Group(OverlappedIndex(), "x")| == |Places(OverlappedTargets())|
  {
  }

  /** The count alone does not decide it: of an index that no reading of names gives, it can be
      met while one occurrence is renamed twice over and another not at all. */
  lemma {:induction false} StableWithoutBijection()
    ensures Indexed(OverlappedIndex()) && Stable(map["f" := "aab"], OverlappedIndex(), OverlappedTargets(), "a")
    ensures AllFound(OverlappedIndex(), OverlappedTargets()) && !Bijective(OverlappedIndex(), OverlappedTargets(), "x")
  {
    OverlappedFound();
    OverlappedSets();
    var index, targets, bodies := OverlappedIndex(), OverlappedTargets(), map["f" := "aab"];
    hide FullScan, FoundAt, Group, Places;
    forall file, i | file in targets && 0 <= i < |targets[file]| ensures Hits(bodies, index, file, targets[file][i], "a", "x") {
    }
    assert AllHit(bodies, index, targets, "a", "x");
    HitsAreFound(bodies, index, targets, "a", "x");
    assert Image(index, targets, ("f", 0)) == Image(index, targets, ("f", 1));
  }

  // ----------------------------------------------------------------------- counting ---

  function FilePlaces(file: File, n: nat): set<(File, nat)> {
    set i | 0 <= i < n :: (file, i)
  }

  lemma {:induction false} FilePlacesSize(file: File, n: nat)
    ensures |FilePlaces(file, n)| == n
  {
    if n > 0 {
      FilePlacesSize(file, n - 1);
      assert FilePlaces(file, n) == FilePlaces(file, n - 1) + {(file, n - 1)};
    }
  }

  lemma {:induction false} PlacesNext(seen: Targets, file: File, list: seq<Target>)
    requires file !in seen
    ensures |Places(seen[file := list])| == |Places(seen)| + |list|
  {
    FilePlacesSize(file, |list|);
    assert Places(seen[file := list]) == Places(seen) + FilePlaces(file, |list|);
    assert Places(seen) !! FilePlaces(file, |list|);
  }

  // -------------------------------------------------------------------- re-resolving ---

  ghost predicate ListHits(bodies: map<File, string>, index: Index, file: File, list: seq<Target>, name: string, id: string) {
    forall i | 0 <= i < |list| :: Hits(bodies, index, file, list[i], name, id)
  }

  /** Re-resolves one file's tokens; the identity they share with those before, if they do. */
  method TargetsHit(bodies: map<File, string>, index: Index, file: File, list: seq<Target>, name: string, before: string) returns (want: Option<string>)
    requires Indexed(index) && forall f, k | f in index && 0 <= k < |index[f]| :: index[f][k].id != ""
    ensures want.Some? ==> ListHits(bodies, index, file, list, name, want.value)
    ensures want.Some? ==> (before != "" || list == [] ==> want.value == before) && (list != [] ==> want.value != "")
    ensures want.None? ==> list != [] && forall id: string | before == "" || id == before :: !ListHits(bodies, index, file, list, name, id)
  {
    var shared := before;
    for i := 0 to |list|
      invariant forall j | 0 <= j < i :: Hits(bodies, index, file, list[j], name, shared)
      invariant (before != "" || i == 0 ==> shared == before) && (i > 0 ==> shared != "")
    {
      var t := list[i];
      if file !in bodies || t.renamed.start < 0 || t.renamed.end > |bodies[file]| || t.renamed.start > t.renamed.end
         || bodies[file][t.renamed.start..t.renamed.end] != name || file !in index
      {
        assert forall id: string :: !Hits(bodies, index, file, list[i], name, id);
        return None;
      }
      var found := OccurrenceAt(index[file], t.renamed.start);
      hide FullScan;
      if found.None? {
        assert forall id: string :: !Hits(bodies, index, file, list[i], name, id);
        return None;
      }
      var id := index[file][found.value].id;
      if shared != "" && id != shared {
        assert forall other: string | before == "" || other == before :: !ListHits(bodies, index, file, list, name, other) by {
          forall other: string | before == "" || other == before ensures !ListHits(bodies, index, file, list, name, other) {
            if i > 0 && ListHits(bodies, index, file, list, name, other) {
              assert Hits(bodies, index, file, list[0], name, other) && Hits(bodies, index, file, list[0], name, shared);
            }
            assert !Hits(bodies, index, file, list[i], name, shared);
          }
        }
        return None;
      }
      shared := id;
    }
    want := Some(shared);
  }

  lemma {:induction false} AddFile(bodies: map<File, string>, index: Index, seen: Targets, file: File, list: seq<Target>, name: string, before: string, want: string)
    requires AllHit(bodies, index, seen, name, before) && file !in seen && ListHits(bodies, index, file, list, name, want)
    requires want == before || Places(seen) == {}
    ensures AllHit(bodies, index, seen[file := list], name, want)
  {
    hide Hits;
    var next := seen[file := list];
    forall f, i | f in next && 0 <= i < |next[f]| ensures Hits(bodies, index, f, next[f][i], name, want) {
      assert f in seen ==> (f, i) in Places(seen);
    }
  }

  /** A token has one identity. */
  lemma {:induction false} SeenIdentity(bodies: map<File, string>, index: Index, targets: Targets, seen: Targets, name: string, id: string, want: string)
    requires seen.Keys <= targets.Keys && forall f | f in seen :: seen[f] == targets[f]
    requires AllHit(bodies, index, targets, name, id) && AllHit(bodies, index, seen, name, want) && Places(seen) != {}
    ensures id == want
  {
    var place :| place in Places(seen);
    assert Hits(bodies, index, place.0, seen[place.0][place.1], name, want);
    assert Hits(bodies, index, place.0, targets[place.0][place.1], name, id);
  }

  lemma {:induction false} NotStable(bodies: map<File, string>, index: Index, targets: Targets, seen: Targets, file: File, name: string, want: string)
    requires seen.Keys <= targets.Keys && forall f | f in seen :: seen[f] == targets[f]
    requires AllHit(bodies, index, seen, name, want) && (want == "" <==> Places(seen) == {}) && file in targets
    requires forall id: string | want == "" || id == want :: !ListHits(bodies, index, file, targets[file], name, id)
    ensures !Stable(bodies, index, targets, name)
  {
    hide Group, Hits, Places;
    forall id: string | AllHit(bodies, index, targets, name, id)
      ensures ListHits(bodies, index, file, targets[file], name, id) && (want != "" ==> id == want)
    {
      if want != "" { SeenIdentity(bodies, index, targets, seen, name, id, want); }
    }
  }

  lemma {:induction false} OneIdentity(bodies: map<File, string>, index: Index, targets: Targets, name: string, want: string)
    requires AllHit(bodies, index, targets, name, want) && (want == "" <==> Places(targets) == {})
    ensures Stable(bodies, index, targets, name) <==> want != "" && |Group(index, want)| == |Places(targets)|
  {
    hide Group;
    forall id: string | AllHit(bodies, index, targets, name, id) && Places(targets) != {} ensures id == want {
      var place :| place in Places(targets);
      assert Hits(bodies, index, place.0, targets[place.0][place.1], name, want);
      assert Hits(bodies, index, place.0, targets[place.0][place.1], name, id);
    }
  }

  /** Re-resolves every renamed token. `counts` is the number of occurrences per identity. */
  method RenameStable(bodies: map<File, string>, index: Index, counts: map<string, nat>, targets: Targets, name: string) returns (ok: bool)
    requires Indexed(index)
    requires forall file, k | file in index && 0 <= k < |index[file]| :: index[file][k].id != ""
    requires forall id: string :: (if id in counts then counts[id] else 0) == |Group(index, id)|
    ensures ok <==> Stable(bodies, index, targets, name)
  {
    hide Hits, Group, FullScan, AllHit, ListHits, Places, Stable, Indexed;
    var want := "";
    var total := 0;
    var files := targets.Keys;
    ghost var seen: Targets := map[];
    NothingSeen(bodies, index, name);
    while files != {}
      invariant files <= targets.Keys && seen.Keys == targets.Keys - files && forall f | f in seen :: seen[f] == targets[f]
      invariant total == |Places(seen)| && (want == "" <==> total == 0)
      invariant AllHit(bodies, index, seen, name, want)
      decreases |files|
    {
      var file :| file in files;
      files := files - {file};
      var found := TargetsHit(bodies, index, file, targets[file], name, want);
      if found.None? {
        NotStable(bodies, index, targets, seen, file, name, want);
        return false;
      }
      AddFile(bodies, index, seen, file, targets[file], name, want, found.value);
      PlacesNext(seen, file, targets[file]);
      seen := seen[file := targets[file]];
      want, total := found.value, total + |targets[file]|;
    }
    assert seen == targets;
    ok := want != "" && (if want in counts then counts[want] else 0) == total;
    OneIdentity(bodies, index, targets, name, want);
  }

  lemma {:induction false} NothingSeen(bodies: map<File, string>, index: Index, name: string)
    ensures AllHit(bodies, index, map[], name, "") && |Places(map[])| == 0
  {
    assert Places(map[]) == {};
  }
}
