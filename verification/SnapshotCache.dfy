/** The analysis cache: what a call reads of a changing disk, when its result may be kept, and
    what a later hit is worth. */
module SnapshotCache {
  import opened Wrappers
  import opened Documents

  const MAX_CACHED := 8

  /** An input as a fingerprint records it: an open buffer, a file's bytes, or a file that
      could not be read. Hashes are taken to be injective. */
  datatype Content = Buffer(version: int, text: string) | Bytes(text: string) | Unavailable

  type Fingerprint = map<Path, Content>

  /** An analysis and the inputs it loaded; no data marks a failed read. */
  datatype Snapshot = Snapshot(id: nat, inputs: map<Path, Option<string>>)

  datatype Cached = Cached(fingerprint: Fingerprint, snapshot: Snapshot)

  // -------------------------------------------------------------------- coherence ---

  predicate Agrees(c: Content, loaded: Option<string>) {
    match c
    case Buffer(_, text) => loaded == Some(text)
    case Bytes(text) => loaded == Some(text)
    case Unavailable => loaded == None
  }

  /** Every loaded input is what the stored fingerprint says. */
  predicate Coherent(e: Cached) {
    forall p | p in e.snapshot.inputs :: p in e.fingerprint && Agrees(e.fingerprint[p], e.snapshot.inputs[p])
  }

  /** Every input that was really loaded is what the stored fingerprint says. */
  predicate LoadedCoherent(e: Cached) {
    forall p | p in e.snapshot.inputs && e.snapshot.inputs[p].Some? ::
      p in e.fingerprint && Agrees(e.fingerprint[p], e.snapshot.inputs[p])
  }

  /** No input recorded before the analysis differs after it; more may be recorded. */
  predicate Compatible(before: Fingerprint, after: Fingerprint) {
    forall p | p in before :: p in after && after[p] == before[p]
  }

  predicate MatchesAt(overlay: map<Path, Entry>, inputs: map<Path, Option<string>>, check: map<Path, Option<string>>, p: Path)
    requires p in inputs
  {
    if p in overlay then overlay[p].text == inputs[p].GetOr("")
    else inputs[p].None? || (p in check && check[p] == inputs[p])
  }

  /** Loaded bytes are still the ones to be read; failed reads are not looked at again. */
  predicate Matches(overlay: map<Path, Entry>, inputs: map<Path, Option<string>>, check: map<Path, Option<string>>) {
    forall p | p in inputs :: MatchesAt(overlay, inputs, check, p)
  }

  method FingerprintCompatible(before: Fingerprint, after: Fingerprint) returns (ok: bool)
    ensures ok <==> Compatible(before, after)
  {
    var left := before.Keys;
    while left != {}
      invariant left <= before.Keys
      invariant forall p | p in before && p !in left :: p in after && after[p] == before[p]
      decreases |left|
    {
      var input :| input in left;
      left := left - {input};
      if input !in after || after[input] != before[input] {
        return false;
      }
    }
    ok := true;
  }

  method LoadedInputsMatch(overlay: map<Path, Entry>, inputs: map<Path, Option<string>>, check: map<Path, Option<string>>) returns (ok: bool)
    ensures ok <==> Matches(overlay, inputs, check)
  {
    var left := inputs.Keys;
    while left != {}
      invariant left <= inputs.Keys
      invariant forall p | p in inputs && p !in left :: MatchesAt(overlay, inputs, check, p)
      decreases |left|
    {
      var path :| path in left;
      left := left - {path};
      if path in overlay {
        if overlay[path].text != inputs[path].GetOr("") {
          return false;
        }
      } else if inputs[path].Some? {
        if path !in check || check[path] != inputs[path] {
          return false;
        }
      }
    }
    ok := true;
  }

  // ---------------------------------------------------------------------- history ---

  /** The readable text of every file at every moment. */
  type Disk = (Path, nat) -> Option<string>

  /** When a call begins and ends, and when each of its phases reads each path. */
  datatype Clock = Clock(start: nat, end: nat, before: Path -> nat, load: Path -> nat, after: Path -> nat, check: Path -> nat)

  function Look(overlay: map<Path, Entry>, disk: Disk, p: Path, t: nat): Content {
    if p in overlay then Buffer(overlay[p].version, overlay[p].text)
    else if disk(p, t).Some? then Bytes(disk(p, t).value) else Unavailable
  }

  /** The file has at most one change while the call lasts. */
  ghost predicate ChangesOnce(disk: Disk, p: Path, k: Clock) {
    exists c: nat :: ChangesAt(disk, p, k, c)
  }

  ghost predicate ChangesAt(disk: Disk, p: Path, k: Clock, c: nat) {
    forall t: nat, u: nat | k.start <= t <= k.end && k.start <= u <= k.end && (t < c <==> u < c) :: disk(p, t) == disk(p, u)
  }

  ghost predicate AllOnce(disk: Disk, k: Clock) {
    forall p :: ChangesOnce(disk, p, k)
  }

  ghost predicate InOrder(k: Clock) {
    forall p :: k.start <= k.before(p) < k.load(p) < k.after(p) < k.check(p) <= k.end
  }

  /** What a call read: a fingerprint, the inputs its analysis loaded, a second fingerprint
      covering all of those, and a last look at them. */
  datatype Reads = Reads(before: Fingerprint, snapshot: Snapshot, after: Fingerprint, check: map<Path, Option<string>>)

  ghost predicate ReadFrom(r: Reads, overlay: map<Path, Entry>, disk: Disk, k: Clock) {
    && InOrder(k) && AllOnce(disk, k)
    && Printed(r.before, overlay, disk, k.before)
    && Loaded(r.snapshot.inputs, overlay, disk, k.load)
    && Printed(r.after, overlay, disk, k.after)
    && r.snapshot.inputs.Keys <= r.after.Keys
    && Checked(r.check, disk, k.check)
  }

  ghost predicate Printed(f: Fingerprint, overlay: map<Path, Entry>, disk: Disk, at: Path -> nat) {
    forall p | p in f :: f[p] == Look(overlay, disk, p, at(p))
  }

  ghost predicate Loaded(inputs: map<Path, Option<string>>, overlay: map<Path, Entry>, disk: Disk, at: Path -> nat) {
    forall p | p in inputs :: inputs[p] == if p in overlay then Some(overlay[p].text) else disk(p, at(p))
  }

  ghost predicate Checked(check: map<Path, Option<string>>, disk: Disk, at: Path -> nat) {
    forall p | p in check :: check[p] == disk(p, at(p))
  }

  predicate Passes(r: Reads, overlay: map<Path, Entry>) {
    Compatible(r.before, r.after) && Matches(overlay, r.snapshot.inputs, r.check)
  }

  /** Every failed read was of an input already recorded before the analysis. */
  predicate FailuresKnown(overlay: map<Path, Entry>, before: Fingerprint, inputs: map<Path, Option<string>>) {
    forall p | p in inputs && inputs[p].None? && p !in overlay :: p in before
  }

  /** The loaded bytes of whatever both checks let through agree with the second fingerprint. */
  lemma {:induction false} StoredBytesAgree(r: Reads, overlay: map<Path, Entry>, disk: Disk, k: Clock)
    requires ReadFrom(r, overlay, disk, k) && Passes(r, overlay)
    ensures LoadedCoherent(Cached(r.after, r.snapshot))
  {
    forall p | p in r.snapshot.inputs && r.snapshot.inputs[p].Some? ensures Agrees(r.after[p], r.snapshot.inputs[p]) {
      if p !in overlay {
        assert ChangesOnce(disk, p, k) && MatchesAt(overlay, r.snapshot.inputs, r.check, p);
        var c: nat :| ChangesAt(disk, p, k, c);
        assert k.start <= k.before(p) < k.load(p) < k.after(p) < k.check(p) <= k.end;
        assert disk(p, k.load(p)) == disk(p, k.after(p)) || disk(p, k.after(p)) == disk(p, k.check(p));
      }
    }
  }

  /** With failed reads known beforehand, everything both checks let through is coherent. */
  lemma {:induction false} StoredIsCoherent(r: Reads, overlay: map<Path, Entry>, disk: Disk, k: Clock)
    requires ReadFrom(r, overlay, disk, k) && Passes(r, overlay) && FailuresKnown(overlay, r.before, r.snapshot.inputs)
    ensures Coherent(Cached(r.after, r.snapshot))
  {
    StoredBytesAgree(r, overlay, disk, k);
    forall p | p in r.snapshot.inputs && r.snapshot.inputs[p].None? ensures Agrees(r.after[p], r.snapshot.inputs[p]) {
      if p !in overlay {
        assert ChangesOnce(disk, p, k);
        var c: nat :| ChangesAt(disk, p, k, c);
        assert k.start <= k.before(p) < k.load(p) < k.after(p) < k.check(p) <= k.end;
        assert disk(p, k.before(p)) == disk(p, k.load(p)) || disk(p, k.load(p)) == disk(p, k.after(p));
      }
    }
  }

  /** Whatever the second fingerprint and the last look turn out to be, what passes is coherent. */
  ghost predicate AlwaysCoherent(overlay: map<Path, Entry>, before: Fingerprint, snapshot: Snapshot) {
    forall r: Reads, disk: Disk, k: Clock | r.before == before && r.snapshot == snapshot && ReadFrom(r, overlay, disk, k) && Passes(r, overlay) ::
      Coherent(Cached(r.after, r.snapshot))
  }

  /** The same disk, but for one file that appears at a moment. */
  function Appearing(disk: Disk, p: Path, at: nat): Disk {
    (q: Path, t: nat) => if q == p then (if t < at then None else Some("")) else disk(q, t)
  }

  lemma {:induction false} AppearsOnce(disk: Disk, p: Path, at: nat, k: Clock, q: Path)
    requires ChangesOnce(disk, q, k)
    ensures ChangesOnce(Appearing(disk, p, at), q, k)
  {
    var appearing := Appearing(disk, p, at);
    if q == p {
      assert ChangesAt(appearing, p, k, at);
    } else {
      var c: nat :| ChangesAt(disk, q, k, c);
      assert ChangesAt(appearing, q, k, c);
    }
  }

  /** A file that could not be read, was not recorded before, and appears before the second
      fingerprint, is recorded as present beside an analysis that did not see it. */
  lemma {:induction false} UnknownFailure(r: Reads, overlay: map<Path, Entry>, disk: Disk, k: Clock, p: Path) returns (r': Reads, disk': Disk)
    requires ReadFrom(r, overlay, disk, k) && Passes(r, overlay)
    requires p in r.snapshot.inputs && r.snapshot.inputs[p].None? && p !in overlay && p !in r.before
    ensures r'.before == r.before && r'.snapshot == r.snapshot && ReadFrom(r', overlay, disk', k) && Passes(r', overlay)
    ensures !Coherent(Cached(r'.after, r'.snapshot))
  {
    disk' := Appearing(disk, p, k.after(p));
    r' := Overlooking(r, p);
    StillReads(r, overlay, disk, k, p);
    StillPasses(r, overlay, p);
    hide ReadFrom, Passes;
    assert !Agrees(r'.after[p], r'.snapshot.inputs[p]);
  }

  function Overlooking(r: Reads, p: Path): Reads {
    r.(after := r.after[p := Bytes("")], check := r.check - {p})
  }

  lemma {:induction false} StillPasses(r: Reads, overlay: map<Path, Entry>, p: Path)
    requires Passes(r, overlay) && p !in r.before && p in r.snapshot.inputs && r.snapshot.inputs[p].None?
    ensures Passes(Overlooking(r, p), overlay)
  {
    var r' := Overlooking(r, p);
    forall q | q in r.snapshot.inputs ensures MatchesAt(overlay, r.snapshot.inputs, r'.check, q) {
      assert MatchesAt(overlay, r.snapshot.inputs, r.check, q);
    }
  }

  lemma {:induction false} StillReads(r: Reads, overlay: map<Path, Entry>, disk: Disk, k: Clock, p: Path)
    requires ReadFrom(r, overlay, disk, k) && p !in r.before && p !in overlay && p in r.snapshot.inputs && r.snapshot.inputs[p].None?
    ensures ReadFrom(Overlooking(r, p), overlay, Appearing(disk, p, k.after(p)), k)
  {
    var t := k.after(p);
    assert k.start <= k.before(p) < k.load(p) < t < k.check(p) <= k.end;
    AllAppearOnce(disk, p, t, k);
    hide AllOnce, Printed, Loaded, Checked, Appearing;
    PrintedBefore(r.before, overlay, disk, k.before, p, t);
    PrintedAfter(r.after, overlay, disk, k.after, p);
    LoadedBefore(r.snapshot.inputs, overlay, disk, k.load, p, t);
    CheckedElsewhere(r.check, disk, k.check, p, t);
  }

  lemma {:induction false} AllAppearOnce(disk: Disk, p: Path, t: nat, k: Clock)
    requires AllOnce(disk, k)
    ensures AllOnce(Appearing(disk, p, t), k)
  {
    forall q ensures ChangesOnce(Appearing(disk, p, t), q, k) {
      AppearsOnce(disk, p, t, k, q);
    }
  }

  lemma {:induction false} PrintedAfter(f: Fingerprint, overlay: map<Path, Entry>, disk: Disk, at: Path -> nat, p: Path)
    requires Printed(f, overlay, disk, at) && p !in overlay
    ensures Printed(f[p := Bytes("")], overlay, Appearing(disk, p, at(p)), at)
  {
  }

  lemma {:induction false} LoadedBefore(inputs: map<Path, Option<string>>, overlay: map<Path, Entry>, disk: Disk, at: Path -> nat, p: Path, t: nat)
    requires Loaded(inputs, overlay, disk, at) && at(p) < t && (p in inputs ==> p !in overlay && inputs[p].None?)
    ensures Loaded(inputs, overlay, Appearing(disk, p, t), at)
  {
  }

  lemma {:induction false} CheckedElsewhere(check: map<Path, Option<string>>, disk: Disk, at: Path -> nat, p: Path, t: nat)
    requires Checked(check, disk, at)
    ensures Checked(check - {p}, Appearing(disk, p, t), at)
  {
  }

  lemma {:induction false} PrintedBefore(f: Fingerprint, overlay: map<Path, Entry>, disk: Disk, at: Path -> nat, p: Path, t: nat)
    requires Printed(f, overlay, disk, at) && p !in f
    ensures Printed(f, overlay, Appearing(disk, p, t), at)
  {
  }

  /** Of an analysis that can pass the checks at all: everything that passes is coherent
      exactly when its failed reads were recorded before it began. */
  lemma {:induction false} CoherentExactlyWhen(r: Reads, overlay: map<Path, Entry>, disk: Disk, k: Clock)
    requires ReadFrom(r, overlay, disk, k) && Passes(r, overlay)
    ensures AlwaysCoherent(overlay, r.before, r.snapshot) <==> FailuresKnown(overlay, r.before, r.snapshot.inputs)
  {
    if FailuresKnown(overlay, r.before, r.snapshot.inputs) {
      forall r': Reads, disk': Disk, k': Clock
        | r'.before == r.before && r'.snapshot == r.snapshot && ReadFrom(r', overlay, disk', k') && Passes(r', overlay)
        ensures Coherent(Cached(r'.after, r'.snapshot))
      {
        StoredIsCoherent(r', overlay, disk', k');
      }
    } else {
      var p :| p in r.snapshot.inputs && r.snapshot.inputs[p].None? && p !in overlay && p !in r.before;
      var r', disk' := UnknownFailure(r, overlay, disk, k, p);
    }
  }

  // ------------------------------------------------------------------------ cache ---

  /** What a call finds: a conflict between buffers, or readings that may fail in between. */
  datatype Findings = Findings(conflict: bool, before: Option<Fingerprint>, analysis: Option<Snapshot>,
                               after: Option<Fingerprint>, check: map<Path, Option<string>>)

  /** The entry a root has stored is the one for what was printed. */
  predicate StoredFor(cache: map<Path, Cached>, root: Path, printed: Option<Fingerprint>) {
    root in cache && printed == Some(cache[root].fingerprint)
  }

  /** Both fingerprints and the analysis were had, and both checks pass. */
  predicate Sound(overlay: map<Path, Entry>, f: Findings) {
    && f.before.Some? && f.analysis.Some? && f.after.Some?
    && Compatible(f.before.value, f.after.value) && Matches(overlay, f.analysis.value.inputs, f.check)
  }

  /** The findings of a call are what it read of the disk, in the order it reads. */
  ghost predicate FoundOn(f: Findings, overlay: map<Path, Entry>, disk: Disk, k: Clock) {
    && InOrder(k) && AllOnce(disk, k)
    && (f.before.Some? ==> Printed(f.before.value, overlay, disk, k.before))
    && (f.analysis.Some? ==> Loaded(f.analysis.value.inputs, overlay, disk, k.load))
    && (f.after.Some? ==> Printed(f.after.value, overlay, disk, k.after))
    && (f.after.Some? && f.analysis.Some? ==> f.analysis.value.inputs.Keys <= f.after.value.Keys)
    && Checked(f.check, disk, k.check)
  }

  /** Every loaded input is what is there to be read, and no failed read would succeed. */
  ghost predicate Current(inputs: map<Path, Option<string>>, loadedOnly: bool, overlay: map<Path, Entry>, disk: Disk, at: Path -> nat) {
    forall p | p in inputs && (loadedOnly ==> inputs[p].Some?) ::
      inputs[p] == if p in overlay then Some(overlay[p].text) else disk(p, at(p))
  }

  /** An entry that agrees with what is printed now holds what is there now. */
  lemma {:induction false} AgreeingIsCurrent(e: Cached, overlay: map<Path, Entry>, disk: Disk, at: Path -> nat)
    requires Printed(e.fingerprint, overlay, disk, at)
    ensures LoadedCoherent(e) ==> Current(e.snapshot.inputs, true, overlay, disk, at)
    ensures Coherent(e) ==> Current(e.snapshot.inputs, false, overlay, disk, at)
  {
  }

  /** What is kept: loaded bytes always agree with the fingerprint, and failed reads do too
      unless the entry is one of the unsure ones. */
  ghost predicate Trusted(entries: map<Path, Cached>, unsure: set<Cached>) {
    forall root | root in entries :: LoadedCoherent(entries[root]) && (entries[root] !in unsure ==> Coherent(entries[root]))
  }

  /** What a call stores agrees with its fingerprint as far as the readings allow. */
  lemma {:induction false} StoresTrusted(overlay: map<Path, Entry>, f: Findings, disk: Disk, k: Clock)
    requires FoundOn(f, overlay, disk, k) && Sound(overlay, f)
    ensures var e := Cached(f.after.value, f.analysis.value);
            LoadedCoherent(e) && (FailuresKnown(overlay, f.before.value, e.snapshot.inputs) ==> Coherent(e))
  {
    var r := Reads(f.before.value, f.analysis.value, f.after.value, f.check);
    assert ReadFrom(r, overlay, disk, k) && Passes(r, overlay);
    StoredBytesAgree(r, overlay, disk, k);
    if FailuresKnown(overlay, r.before, r.snapshot.inputs) {
      StoredIsCoherent(r, overlay, disk, k);
    }
  }

  /** Every reading of the call succeeded, and nothing recorded first is missing later. */
  predicate AllRead(f: Findings, overlay: map<Path, Entry>) {
    && f.before.Some? && f.analysis.Some? && f.after.Some? && f.before.value.Keys <= f.after.value.Keys
    && forall p | p in f.analysis.value.inputs && f.analysis.value.inputs[p].Some? && p !in overlay :: p in f.check
  }

  /** A file changes while the call lasts. */
  ghost predicate ChangesDuring(disk: Disk, k: Clock, p: Path) {
    exists t: nat, u: nat :: k.start <= t <= u <= k.end && disk(p, t) != disk(p, u)
  }

  /** The checks fail only when a reading did or a file really changed. */
  lemma {:induction false} FailsForAReason(overlay: map<Path, Entry>, f: Findings, disk: Disk, k: Clock)
    requires FoundOn(f, overlay, disk, k)
    ensures Sound(overlay, f) || !AllRead(f, overlay) || exists p :: ChangesDuring(disk, k, p)
  {
    if AllRead(f, overlay) && forall p :: !ChangesDuring(disk, k, p) {
      SteadyPasses(overlay, f, disk, k);
    }
  }

  lemma {:induction false} SteadyPasses(overlay: map<Path, Entry>, f: Findings, disk: Disk, k: Clock)
    requires FoundOn(f, overlay, disk, k) && AllRead(f, overlay) && forall p :: !ChangesDuring(disk, k, p)
    ensures Sound(overlay, f)
  {
    forall p ensures disk(p, k.before(p)) == disk(p, k.load(p)) == disk(p, k.after(p)) == disk(p, k.check(p)) {
      assert !ChangesDuring(disk, k, p);
      assert k.start <= k.before(p) < k.load(p) < k.after(p) < k.check(p) <= k.end;
    }
    forall p | p in f.before.value ensures p in f.after.value && f.after.value[p] == f.before.value[p] {
      assert disk(p, k.before(p)) == disk(p, k.after(p));
    }
    forall p | p in f.analysis.value.inputs ensures MatchesAt(overlay, f.analysis.value.inputs, f.check, p) {
      assert disk(p, k.load(p)) == disk(p, k.check(p));
    }
  }

  lemma {:induction false} AgreeingIsCurrentNow(e: Cached, overlay: map<Path, Entry>, f: Findings, disk: Disk, k: Clock)
    requires FoundOn(f, overlay, disk, k) && f.before == Some(e.fingerprint)
    ensures LoadedCoherent(e) ==> Current(e.snapshot.inputs, true, overlay, disk, k.before)
    ensures Coherent(e) ==> Current(e.snapshot.inputs, false, overlay, disk, k.before)
  {
    hide Current, LoadedCoherent, Coherent;
    AgreeingIsCurrent(e, overlay, disk, k.before);
  }

  lemma {:induction false} UseTrusted(used: map<Path, Cached>, unsure: set<Cached>, root: Path, e: Cached)
    requires Trusted(used, unsure) && LoadedCoherent(e) && (e !in unsure ==> Coherent(e))
    ensures Trusted(used[root := e], unsure)
  {
    hide LoadedCoherent, Coherent;
  }

  lemma {:induction false} MoreUnsure(entries: map<Path, Cached>, unsure: set<Cached>, e: Cached)
    requires Trusted(entries, unsure)
    ensures Trusted(entries, unsure + {e})
  {
    hide LoadedCoherent, Coherent;
  }

  function Snapshots(cache: map<Path, Cached>): set<nat> {
    set root | root in cache :: cache[root].snapshot.id
  }

  /** What stays when an entry is to be stored: everything, or nothing once the cache is full. */
  function Room(cache: map<Path, Cached>): map<Path, Cached> {
    if |cache| >= MAX_CACHED then map[] else cache
  }

  lemma {:induction false} SoundParts(overlay: map<Path, Entry>, f: Findings)
    ensures Sound(overlay, f) ==> f.before.Some? && f.analysis.Some? && f.after.Some?
  {
  }

  method CheckFindings(overlay: map<Path, Entry>, f: Findings) returns (sound: bool)
    requires f.before.Some?
    ensures sound <==> Sound(overlay, f)
  {
    hide Compatible, Matches;
    if f.analysis.None? || f.after.None? {
      return false;
    }
    var compatible := FingerprintCompatible(f.before.value, f.after.value);
    var matching := LoadedInputsMatch(overlay, f.analysis.value.inputs, f.check);
    sound := compatible && matching;
  }

  class AnalysisCache {
    var cache: map<Path, Cached>
    /** Snapshots with feature data. */
    var features: set<nat>
    /** What the current job has relied on. */
    var used: map<Path, Cached>
    var failed: bool
    /** Entries stored although a failed read was not known before. */
    ghost var unsure: set<Cached>

    ghost predicate Valid()
      reads this`cache, this`features, this`used, this`unsure
    {
      |cache| <= MAX_CACHED && features <= Snapshots(cache) && Trusted(cache, unsure) && Trusted(used, unsure)
    }

    constructor ()
      ensures Valid() && cache == map[] && features == {} && used == map[] && !failed && unsure == {}
    {
      cache, features, used, failed, unsure := map[], {}, map[], false, {};
    }

    /** A new job shares the cache and has relied on nothing yet. */
    method StartJob()
      requires Valid()
      modifies this`used, this`failed
      ensures Valid() && used == map[] && !failed
    {
      used, failed := map[], false;
    }

    /** Analyses a root, or takes what is cached, over a disk on which each file changes at most
        once meanwhile. Never more than eight snapshots are kept, and whatever calls come in
        whatever order, the loaded bytes of each agree with its fingerprint; failed reads agree
        too when they were known before. So a hit is an analysis of what is there now. What was
        stored comes back exactly when its fingerprint is the one printed first; otherwise the new
        analysis does, and is stored. A call fails only for a reason. */
    method SnapshotInput(root: Path, overlay: map<Path, Entry>, f: Findings, ghost disk: Disk, ghost k: Clock) returns (result: Option<Snapshot>)
      requires Valid() && FoundOn(f, overlay, disk, k)
      modifies this
      ensures Valid()
      ensures result.Some? <==> !f.conflict && (StoredFor(old(cache), root, f.before) || Sound(overlay, f))
      ensures result.None? ==> f.conflict || !AllRead(f, overlay) || exists p :: ChangesDuring(disk, k, p)
      ensures result.None? ==> failed && cache == old(cache) && features == old(features) && used == old(used) && unsure == old(unsure)
      ensures result.Some? ==> failed == old(failed) && root in cache && result == Some(cache[root].snapshot) && used == old(used)[root := cache[root]]
      ensures result.Some? && StoredFor(old(cache), root, f.before) ==>
                && cache == old(cache) && features == old(features) && unsure == old(unsure)
                && Current(cache[root].snapshot.inputs, true, overlay, disk, k.before)
                && (cache[root] !in unsure ==> Current(cache[root].snapshot.inputs, false, overlay, disk, k.before))
      ensures result.Some? && !StoredFor(old(cache), root, f.before) ==>
                && Sound(overlay, f) && cache[root] == Cached(f.after.value, f.analysis.value) && |cache| <= MAX_CACHED
                && cache == Room(old(cache))[root := cache[root]]
                && unsure == old(unsure) + if FailuresKnown(overlay, f.before.value, f.analysis.value.inputs) then {} else {cache[root]}
    {
      FailsForAReason(overlay, f, disk, k);
      if root in cache { StoredTrusted(root); }
      SoundParts(overlay, f);
      hide FoundOn, Coherent, LoadedCoherent, Sound, Current, FailuresKnown, ChangesDuring, AllRead, Valid, Room;
      if f.conflict || f.before.None? {
        failed := true;
        return None;
      }
      if root in cache && f.before.value == cache[root].fingerprint {
        AgreeingIsCurrentNow(cache[root], overlay, f, disk, k);
        RelyOn(root);
        return Some(cache[root].snapshot);
      }
      var sound := CheckFindings(overlay, f);
      if !sound {
        failed := true;
        return None;
      }
      Renew(root, overlay, f, disk, k);
      result := Some(f.analysis.value);
    }

    /** Replaces what the root has stored by the new analysis. */
    method Renew(root: Path, overlay: map<Path, Entry>, f: Findings, ghost disk: Disk, ghost k: Clock)
      requires Valid() && FoundOn(f, overlay, disk, k) && Sound(overlay, f)
      modifies this`cache, this`features, this`used, this`unsure
      ensures Valid() && root in cache && cache[root] == Cached(f.after.value, f.analysis.value) && |cache| <= MAX_CACHED
      ensures cache == Room(old(cache))[root := cache[root]]
      ensures used == old(used)[root := cache[root]]
      ensures unsure == old(unsure) + if FailuresKnown(overlay, f.before.value, f.analysis.value.inputs) then {} else {cache[root]}
    {
      StoresTrusted(overlay, f, disk, k);
      hide FoundOn, Sound, Coherent, LoadedCoherent, FailuresKnown, Valid, Room;
      if !FailuresKnown(overlay, f.before.value, f.analysis.value.inputs) {
        NoteUnsure(Cached(f.after.value, f.analysis.value));
      }
      Store(root, Cached(f.after.value, f.analysis.value));
      RelyOn(root);
    }

    ghost method NoteUnsure(entry: Cached)
      requires Valid()
      modifies this`unsure
      ensures Valid() && unsure == old(unsure) + {entry}
    {
      hide Trusted, Snapshots;
      MoreUnsure(cache, unsure, entry);
      MoreUnsure(used, unsure, entry);
      unsure := unsure + {entry};
    }

    lemma {:induction false} StoredTrusted(root: Path)
      requires Valid() && root in cache
      ensures LoadedCoherent(cache[root]) && (cache[root] !in unsure ==> Coherent(cache[root]))
    {
      hide LoadedCoherent, Coherent;
    }

    method RelyOn(root: Path)
      requires Valid() && root in cache
      modifies this`used
      ensures Valid() && used == old(used)[root := cache[root]]
    {
      hide LoadedCoherent, Coherent;
      UseTrusted(used, unsure, root, cache[root]);
      used := used[root := cache[root]];
    }

    method Store(root: Path, entry: Cached)
      requires Valid() && LoadedCoherent(entry) && (entry !in unsure ==> Coherent(entry))
      modifies this`cache, this`features
      ensures Valid() && |cache| <= MAX_CACHED && root in cache && cache[root] == entry
      ensures cache == Room(old(cache))[root := entry]
      ensures features == if |old(cache)| >= MAX_CACHED then {}
                          else if root in old(cache) then old(features) - {old(cache)[root].snapshot.id} else old(features)
    {
      hide Coherent, LoadedCoherent;
      var replaced := if root in cache then Some(cache[root].snapshot.id) else None;
      if |cache| >= MAX_CACHED {
        cache, features := map[], {};
      }
      if replaced.Some? {
        features := features - {replaced.value};
      }
      ghost var kept := cache;
      cache := cache[root := entry];
      assert features <= Snapshots(cache) by {
        forall id | id in features ensures id in Snapshots(cache) {
          var other :| other in kept && kept[other].snapshot.id == id;
          assert other != root && cache[other] == kept[other];
        }
      }
    }

    /** Feature data is only asked for the snapshot just returned. */
    method FeatureData(root: Path, snapshot: Snapshot)
      requires Valid() && root in cache && cache[root].snapshot == snapshot
      modifies this`features
      ensures Valid() && features == old(features) + {snapshot.id}
    {
      features := features + {snapshot.id};
    }

    /** At the end of a job every root it relied on is fingerprinted again; when nothing
        differs, every input the job's snapshots loaded is still what is there now. */
    method ValidateInputs(actual: map<Path, Fingerprint>, ghost overlay: map<Path, Entry>, ghost disk: Disk, ghost at: Path -> nat) returns (ok: bool)
      requires Valid() && forall root | root in actual :: Printed(actual[root], overlay, disk, at)
      ensures ok <==> forall root | root in used :: root in actual && actual[root] == used[root].fingerprint
      ensures ok ==> forall root | root in used :: Current(used[root].snapshot.inputs, true, overlay, disk, at)
      ensures ok ==> forall root | root in used && used[root] !in unsure :: Current(used[root].snapshot.inputs, false, overlay, disk, at)
    {
      var left := used.Keys;
      while left != {}
        invariant left <= used.Keys
        invariant forall root | root in used && root !in left :: root in actual && actual[root] == used[root].fingerprint
        decreases |left|
      {
        var root :| root in left;
        left := left - {root};
        if root !in actual || actual[root] != used[root].fingerprint {
          return false;
        }
      }
      forall root | root in used
        ensures Current(used[root].snapshot.inputs, true, overlay, disk, at)
        ensures used[root] !in unsure ==> Current(used[root].snapshot.inputs, false, overlay, disk, at)
      {
        AgreeingIsCurrent(used[root], overlay, disk, at);
      }
      ok := true;
    }
  }
}
