/** What a stable rename means on real tokens: names as the lexer cuts them out, and an index
    of occurrences read off them. */
module RenameTokens {
  import opened Wrappers
  import opened Rename
  import opened RenameChecks

  predicate NameChar(c: char) {
    'a' <= c <= 'z' || '0' <= c <= '9' || c == '_'
  }

  /** A name token: name characters, and none to its left or right. */
  ghost predicate IsName(text: string, s: Span) {
    && Within(text, s) && s.start < s.end
    && (forall i | s.start <= i < s.end :: NameChar(text[i]))
    && (s.start > 0 ==> !NameChar(text[s.start - 1]))
    && (s.end < |text| ==> !NameChar(text[s.end]))
  }

  /** Names do not overlap. */
  lemma {:induction false} SameName(text: string, a: Span, b: Span, at: int)
    requires IsName(text, a) && IsName(text, b) && a.start <= at < a.end && b.start <= at < b.end
    ensures a == b
  {
    assert b.start > 0 ==> !NameChar(text[b.start - 1]);
    assert a.start > 0 ==> !NameChar(text[a.start - 1]);
    assert b.end < |text| ==> !NameChar(text[b.end]);
    assert a.end < |text| ==> !NameChar(text[a.end]);
  }

  // ------------------------------------------------------------------ after a splice ---

  /** A token to be replaced: it ends a name, and no name runs across its ends. */
  ghost predicate TokenAt(text: string, s: Span) {
    Within(text, s) && s.start < s.end && FreeBefore(text, s.start) && FreeAfter(text, s.end) && NameChar(text[s.end - 1])
  }

  ghost predicate OnTokens(body: string, targets: seq<Target>) {
    forall i | 0 <= i < |targets| :: TokenAt(body, targets[i].span)
  }

  ghost predicate Spelling(name: string) {
    name != "" && forall i | 0 <= i < |name| :: NameChar(name[i])
  }

  ghost predicate FreeBefore(text: string, at: int) {
    0 <= at <= |text| && (at > 0 ==> !NameChar(text[at - 1]))
  }

  ghost predicate FreeAfter(text: string, at: int) {
    0 <= at <= |text| && (at < |text| ==> !NameChar(text[at]))
  }

  /** Two tokens never touch. */
  lemma {:induction false} GapBefore(body: string, targets: seq<Target>, from: string, to: string, k: nat)
    requires Laid(body, targets, from, to) && OnTokens(body, targets) && k < |targets|
    ensures (k == 0 && targets[k].span.start == 0) || Cursor(targets, k) < targets[k].span.start
    ensures FreeBefore(body, targets[k].span.start) && FreeAfter(body, targets[k].span.end)
  {
    assert LaidAt(body, targets, from, to, k) && TokenAt(body, targets[k].span);
    if k > 0 {
      assert TokenAt(body, targets[k - 1].span);
    }
  }

  lemma {:induction false} TargetAt(body: string, targets: seq<Target>, from: string, to: string, k: nat)
    requires Laid(body, targets, from, to) && OnTokens(body, targets) && k < |targets|
    ensures Cursor(targets, k + 1) == targets[k].span.end
    ensures targets[k].renamed.end == targets[k].span.end + Delta(|to| - |from|, k + 1)
  {
    assert LaidAt(body, targets, from, to, k);
  }

  /** The last character of a kept stretch, and its first, are kept. */
  lemma {:induction false} StretchKept(body: string, after: string, c: int, e: int, d: int)
    requires 0 <= c < e <= |body| && 0 <= c + d && e + d <= |after| && after[c + d..e + d] == body[c..e]
    ensures after[e + d - 1] == body[e - 1] && after[c + d] == body[c]
  {
    assert after[c + d..e + d][e - c - 1] == after[e + d - 1];
    assert after[c + d..e + d][0] == after[c + d];
  }

  lemma {:induction false} StandsFree(body: string, targets: seq<Target>, after: string, from: string, to: string, k: nat)
    requires k < |targets| && Stands(body, targets, after, from, to, k)
    requires (k == 0 && targets[k].span.start == 0) || Cursor(targets, k) < targets[k].span.start
    requires FreeBefore(body, targets[k].span.start)
    ensures FreeBefore(after, targets[k].renamed.start)
    ensures k > 0 && FreeAfter(body, Cursor(targets, k)) ==> FreeAfter(after, Cursor(targets, k) + Delta(|to| - |from|, k))
  {
    if Cursor(targets, k) < targets[k].span.start {
      StretchKept(body, after, Cursor(targets, k), targets[k].span.start, Delta(|to| - |from|, k));
    }
  }

  lemma {:induction false} TailFree(body: string, after: string, c: int, d: int)
    requires TailKept(body, after, c, d) && FreeAfter(body, c)
    ensures FreeAfter(after, c + d)
  {
    if c + d < |after| {
      assert after[c + d..][0] == body[c..][0];
    }
  }

  lemma {:induction false} SpelledName(body: string, targets: seq<Target>, after: string, from: string, to: string, k: nat)
    requires k < |targets| && Stands(body, targets, after, from, to, k) && Spelling(to)
    requires FreeBefore(after, targets[k].renamed.start) && FreeAfter(after, targets[k].renamed.end)
    ensures IsName(after, targets[k].renamed) && Slice(after, targets[k].renamed) == to
  {
    var r := targets[k].renamed;
    forall i | r.start <= i < r.end ensures NameChar(after[i]) {
      assert after[i] == to[i - r.start];
    }
  }

  lemma {:induction false} FreeAfterToken(body: string, targets: seq<Target>, after: string, from: string, to: string, k: nat)
    requires Laid(body, targets, from, to) && OnTokens(body, targets) && k < |targets|
    requires if k + 1 < |targets| then Stands(body, targets, after, from, to, k + 1)
             else TailKept(body, after, Cursor(targets, |targets|), Delta(|to| - |from|, |targets|))
    ensures FreeAfter(after, targets[k].renamed.end)
  {
    GapBefore(body, targets, from, to, k);
    TargetAt(body, targets, from, to, k);
    hide Delta, TailKept, Stands, TokenAt, FreeBefore, FreeAfter;
    if k + 1 < |targets| {
      GapBefore(body, targets, from, to, k + 1);
      hide Laid, OnTokens, Cursor;
      StandsFree(body, targets, after, from, to, k + 1);
    } else {
      hide Laid, OnTokens, Cursor;
      TailFree(body, after, Cursor(targets, |targets|), Delta(|to| - |from|, |targets|));
    }
  }

  lemma {:induction false} NameStands(body: string, targets: seq<Target>, after: string, from: string, to: string, k: nat)
    requires Laid(body, targets, from, to) && OnTokens(body, targets) && Spelling(to) && k < |targets|
    requires Stands(body, targets, after, from, to, k)
    requires if k + 1 < |targets| then Stands(body, targets, after, from, to, k + 1)
             else TailKept(body, after, Cursor(targets, |targets|), Delta(|to| - |from|, |targets|))
    ensures IsName(after, targets[k].renamed) && Slice(after, targets[k].renamed) == to
  {
    GapBefore(body, targets, from, to, k);
    FreeAfterToken(body, targets, after, from, to, k);
    hide Laid, OnTokens, Delta, Spelling, TailKept, Stands, IsName, FreeBefore, FreeAfter, Cursor;
    StandsFree(body, targets, after, from, to, k);
    SpelledName(body, targets, after, from, to, k);
  }

  /** Replacing names by a name leaves a name at every precomputed place. */
  lemma {:induction false} RenamedIsName(body: string, targets: seq<Target>, from: string, to: string, k: nat)
    requires Laid(body, targets, from, to) && OnTokens(body, targets) && Spelling(to) && k < |targets|
    ensures Ascending(body, targets)
    ensures IsName(Spliced(body, targets, to), targets[k].renamed) && Slice(Spliced(body, targets, to), targets[k].renamed) == to
  {
    hide Laid, OnTokens, Spelling, TailKept, Stands, Cursor, Delta, Spliced, Ascending, IsName;
    RenamedStands(body, targets, from, to, k);
    TailStands(body, targets, from, to);
    if k + 1 < |targets| {
      RenamedStands(body, targets, from, to, k + 1);
    }
    var after := Spliced(body, targets, to);
    NameStands(body, targets, after, from, to, k);
  }

  lemma {:induction false} RenamedInTurn(body: string, targets: seq<Target>, from: string, to: string)
    requires Laid(body, targets, from, to) && Spelling(to)
    ensures InTurn(targets)
  {
    InverseLaid(body, targets, from, to);
    var after, inverse := Spliced(body, targets, to), Inverse(targets);
    forall i, j | 0 <= i < j < |targets| ensures targets[i].renamed.end <= targets[j].renamed.start < targets[j].renamed.end {
      CursorRises(after, inverse, to, from, i + 1, j);
      assert LaidAt(after, inverse, to, from, j) && LaidAt(body, targets, from, to, j);
    }
  }

  lemma {:induction false} CursorRises(body: string, targets: seq<Target>, from: string, to: string, i: nat, j: nat)
    requires Laid(body, targets, from, to) && i <= j <= |targets|
    ensures Cursor(targets, i) <= Cursor(targets, j)
    decreases j - i
  {
    if i < j {
      CursorRises(body, targets, from, to, i, j - 1);
      assert LaidAt(body, targets, from, to, j - 1);
    }
  }

  // ---------------------------------------------------------------------- the index ---

  /** The span of `pkg::name`, whose qualifier is an occurrence of its own. */
  ghost predicate Qualified(text: string, list: seq<Occurrence>, s: Span, q: Span, n: Span) {
    && IsName(text, q) && IsName(text, n) && q.end < n.start && s == Span(q.start, n.end)
    && exists i :: 0 <= i < |list| && list[i].span == q
  }

  /** What the reference walk records in one file: names, and qualified names. */
  ghost predicate FromNames(text: string, list: seq<Occurrence>) {
    forall k | 0 <= k < |list| :: IsName(text, list[k].span) || exists q, n :: Qualified(text, list, list[k].span, q, n)
  }

  /** Whatever a plan replaces of what the walk recorded is such a token. */
  lemma {:induction false} PlannedToken(text: string, list: seq<Occurrence>, k: nat, token: Span)
    requires FromNames(text, list) && k < |list| && TokenRange(text, list[k].span) == Some(token)
    ensures TokenAt(text, token)
  {
    var s := list[k].span;
    assert s.end > 0 && token.end == s.end;
    if token.start > s.start {
      assert text[s.start..s.end][token.start - s.start - 1] == ':';
    }
    if !IsName(text, s) {
      var q, n :| Qualified(text, list, s, q, n);
    }
  }

  /** Not between the two names of a qualified name. Only a comment can hold a name there. */
  ghost predicate OutOfGaps(text: string, list: seq<Occurrence>, at: int) {
    forall k, q, n | 0 <= k < |list| && Qualified(text, list, list[k].span, q, n) :: !(q.end <= at < n.start)
  }

  ghost predicate AllOutOfGaps(text: string, list: seq<Occurrence>, targets: seq<Target>) {
    forall i | 0 <= i < |targets| :: OutOfGaps(text, list, targets[i].renamed.start)
  }

  /** With nothing but separators and blanks between the names that is so anyway. */
  lemma {:induction false} BareGaps(text: string, list: seq<Occurrence>, r: Span)
    requires IsName(text, r)
    requires forall k, q, n, c | 0 <= k < |list| && Qualified(text, list, list[k].span, q, n) && q.end <= c < n.start :: !NameChar(text[c])
    ensures OutOfGaps(text, list, r.start)
  {
    assert NameChar(text[r.start]);
    hide IsName, NameChar;
  }

  /** The innermost occurrence at a name's start ends with that name. */
  lemma {:induction false} InnermostEnds(text: string, list: seq<Occurrence>, r: Span, k: nat)
    requires FromNames(text, list) && OutOfGaps(text, list, r.start) && IsName(text, r)
    requires FullScan(list, r.start) == Some(k) && k < |list|
    ensures list[k].span.end == r.end
  {
    var o := list[k].span;
    assert Covers(list[k], r.start);
    if IsName(text, o) {
      SameName(text, r, o, r.start);
    } else {
      var q, n :| Qualified(text, list, o, q, n);
      hide IsName, FromNames;
      assert !(q.end <= r.start < n.start);
      hide OutOfGaps;
      InQualified(text, list, r, q, n, k);
    }
  }

  lemma {:induction false} InQualified(text: string, list: seq<Occurrence>, r: Span, q: Span, n: Span, k: nat)
    requires k < |list| && Qualified(text, list, list[k].span, q, n) && IsName(text, r)
    requires FullScan(list, r.start) == Some(k) && !(q.end <= r.start < n.start)
    ensures n == r
  {
    assert Covers(list[k], r.start) && r.start < r.end && n.start < n.end;
    hide IsName;
    QualifierNarrower(list, list[k].span, q, n, r.start, k);
    SameName(text, r, n, r.start);
  }

  /** At a place inside the qualifier the qualified name is not innermost. */
  lemma {:induction false} QualifierNarrower(list: seq<Occurrence>, o: Span, q: Span, n: Span, at: int, k: nat)
    requires k < |list| && list[k].span == o == Span(q.start, n.end) && q.end < n.start <= n.end && q.start <= at
    requires FullScan(list, at) == Some(k) && exists i :: 0 <= i < |list| && list[i].span == q
    ensures at >= q.end
  {
    var i :| 0 <= i < |list| && list[i].span == q;
    assert Covers(list[i], at) <==> at < q.end;
  }

  /** So a plan laid out on an index that was read off names is laid out on tokens. */
  lemma {:induction false} PlanOnTokens(text: string, list: seq<Occurrence>, occurrences: seq<Span>, targets: seq<Target>)
    requires FromNames(text, list) && |targets| == |occurrences|
    requires forall i | 0 <= i < |occurrences| :: exists k :: 0 <= k < |list| && list[k].span == occurrences[i]
    requires forall i | 0 <= i < |occurrences| :: TokenRange(text, occurrences[i]) == Some(targets[i].span)
    ensures OnTokens(text, targets)
  {
    forall i | 0 <= i < |targets| ensures TokenAt(text, targets[i].span) {
      var k :| 0 <= k < |list| && list[k].span == occurrences[i];
      PlannedToken(text, list, k, targets[i].span);
    }
  }

  // ------------------------------------------------------------------------ theorem ---

  /** A candidate: every planned file is the live one with the names replaced, and the index
      was read off the candidate's names. */
  ghost predicate Candidate(live: map<File, string>, bodies: map<File, string>, index: Index, targets: Targets, from: string, to: string) {
    && (forall file | file in targets ::
          && file in live && file in bodies
          && Laid(live[file], targets[file], from, to) && OnTokens(live[file], targets[file])
          && Ascending(live[file], targets[file]) && bodies[file] == Spliced(live[file], targets[file], to))
    && (forall file | file in index && file in targets ::
          FromNames(bodies[file], index[file]) && AllOutOfGaps(bodies[file], index[file], targets[file]))
  }

  lemma {:induction false} CandidateNames(live: map<File, string>, bodies: map<File, string>, index: Index, targets: Targets,
                                          from: string, to: string, file: File, i: nat)
    requires Candidate(live, bodies, index, targets, from, to) && Spelling(to) && file in targets && i < |targets[file]|
    ensures file in bodies && IsName(bodies[file], targets[file][i].renamed) && Slice(bodies[file], targets[file][i].renamed) == to
  {
    RenamedIsName(live[file], targets[file], from, to, i);
  }

  lemma {:induction false} CandidateEndsAt(live: map<File, string>, bodies: map<File, string>, index: Index, targets: Targets,
                                           from: string, to: string, file: File, i: nat, k: nat)
    requires Candidate(live, bodies, index, targets, from, to) && Spelling(to) && file in targets && i < |targets[file]|
    requires FoundAt(index, file, targets[file][i]) == Some(k)
    ensures file in index && k < |index[file]| && index[file][k].span.end == targets[file][i].renamed.end
  {
    var t := targets[file][i];
    CandidateNames(live, bodies, index, targets, from, to, file, i);
    hide Laid, OnTokens, Spliced, Ascending, FromNames, IsName, OutOfGaps;
    assert FromNames(bodies[file], index[file]) && AllOutOfGaps(bodies[file], index[file], targets[file]);
    assert OutOfGaps(bodies[file], index[file], t.renamed.start);
    hide Candidate;
    InnermostEnds(bodies[file], index[file], t.renamed, k);
  }

  lemma {:induction false} CandidateEnds(live: map<File, string>, bodies: map<File, string>, index: Index, targets: Targets, from: string, to: string)
    requires Candidate(live, bodies, index, targets, from, to) && Spelling(to) && AllFound(index, targets)
    ensures EndTogether(index, targets) && Apart(index, targets)
  {
    hide Candidate, Spelling, FullScan, Spliced, IsName, InTurn;
    forall p | p in Places(targets) ensures index[p.0][Image(index, targets, p).1].span.end == targets[p.0][p.1].renamed.end {
      assert FoundAt(index, p.0, targets[p.0][p.1]).Some?;
      CandidateEndsAt(live, bodies, index, targets, from, to, p.0, p.1, Image(index, targets, p).1);
    }
    forall file | file in targets ensures InTurn(targets[file]) {
      CandidateInTurn(live, bodies, index, targets, from, to, file);
    }
    EndTogetherApart(index, targets);
  }

  lemma {:induction false} CandidateInTurn(live: map<File, string>, bodies: map<File, string>, index: Index, targets: Targets,
                                           from: string, to: string, file: File)
    requires Candidate(live, bodies, index, targets, from, to) && Spelling(to) && file in targets
    ensures InTurn(targets[file])
  {
    RenamedInTurn(live[file], targets[file], from, to);
  }

  /** Renaming is stable exactly when the renamed tokens are, one to one, all the occurrences of
      one identity in the candidate. */
  lemma {:induction false} StableMeans(live: map<File, string>, bodies: map<File, string>, index: Index, targets: Targets, from: string, to: string)
    requires Candidate(live, bodies, index, targets, from, to) && Spelling(to)
    ensures Stable(bodies, index, targets, to)
       <==> Places(targets) != {} && AllFound(index, targets) && exists id: string :: id != "" && Bijective(index, targets, id)
  {
    if Stable(bodies, index, targets, to) {
      var id: string :| id != "" && AllHit(bodies, index, targets, to, id) && Places(targets) != {}
                        && |Group(index, id)| == |Places(targets)|;
      StableExactly(bodies, index, targets, to, id);
      CandidateEnds(live, bodies, index, targets, from, to);
      assert Bijective(index, targets, id);
    }
    if Places(targets) != {} && AllFound(index, targets) && exists id: string :: id != "" && Bijective(index, targets, id) {
      var id: string :| id != "" && Bijective(index, targets, id);
      forall p | p in Places(targets)
        ensures p.0 in bodies && Within(bodies[p.0], targets[p.0][p.1].renamed) && Slice(bodies[p.0], targets[p.0][p.1].renamed) == to
      {
        CandidateNames(live, bodies, index, targets, from, to, p.0, p.1);
      }
      BijectionIsStable(bodies, index, targets, to, id);
    }
  }

  /** The index of `StableWithoutBijection` is not read off names. */
  lemma {:induction false} OverlappedIsNoReading()
    ensures !FromNames("aab", OverlappedIndex()["f"])
  {
    var list := OverlappedIndex()["f"];
    assert NameChar("aab"[2]) && list[0].span == Span(0, 2);
    assert !IsName("aab", list[0].span);
    forall q, n ensures !Qualified("aab", list, list[0].span, q, n) {
      assert 0 < q.end < 3 ==> NameChar("aab"[q.end]);
    }
  }
}
