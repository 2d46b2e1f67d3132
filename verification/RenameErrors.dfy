/** A rename may not bring new errors: every error of the candidate must be one of the live
    errors, moved across the edits. */
module RenameErrors {
  import opened Wrappers
  import opened Rename
  import opened RenameChecks

  datatype Related = Related(file: File, span: Span, message: string)

  datatype Diag = Diag(severity: string, code: string, file: File, span: Span, message: string, related: seq<Related>)

  predicate IsError(d: Diag) {
    d.severity == "error" || d.severity == ""
  }

  function In(targets: Targets, file: File): seq<Target> {
    if file in targets then targets[file] else []
  }

  function MoveSpan(targets: Targets, file: File, s: Span): Span {
    Span(s.start + Shift(In(targets, file), s.start), s.end + Shift(In(targets, file), s.start))
  }

  function MoveRelated(targets: Targets, r: Related): Related {
    r.(span := MoveSpan(targets, r.file, r.span))
  }

  /** None of the diagnostic's positions meets a renamed token. */
  predicate Movable(targets: Targets, d: Diag) {
    && Clear(In(targets, d.file), d.span.start, d.span.end)
    && forall i | 0 <= i < |d.related| :: Clear(In(targets, d.related[i].file), d.related[i].span.start, d.related[i].span.end)
  }

  function Moved(targets: Targets, d: Diag): (m: Diag)
    ensures |m.related| == |d.related| && forall i | 0 <= i < |d.related| :: m.related[i] == MoveRelated(targets, d.related[i])
  {
    d.(span := MoveSpan(targets, d.file, d.span), related := seq(|d.related|, i requires 0 <= i < |d.related| => MoveRelated(targets, d.related[i])))
  }

  method MapIn(targets: Targets, file: File, s: Span) returns (mapped: Option<Span>)
    ensures mapped.Some? <==> Clear(In(targets, file), s.start, s.end)
    ensures mapped.Some? ==> mapped.value == MoveSpan(targets, file, s)
  {
    if file !in targets || |targets[file]| == 0 {
      return Some(s);
    }
    mapped := MapSpan(s.start, s.end, targets[file]);
  }

  /** Moves a diagnostic and everything it relates to, or refuses as a whole. */
  method MappedDiagnostic(targets: Targets, d: Diag) returns (mapped: Option<Diag>)
    ensures mapped.Some? <==> Movable(targets, d)
    ensures mapped.Some? ==> mapped.value == Moved(targets, d)
  {
    hide Clear, MoveSpan;
    var span := MapIn(targets, d.file, d.span);
    if span.None? {
      return None;
    }
    var related: seq<Related> := [];
    for i := 0 to |d.related|
      invariant |related| == i && forall j | 0 <= j < i :: related[j] == MoveRelated(targets, d.related[j])
      invariant forall j | 0 <= j < i :: Clear(In(targets, d.related[j].file), d.related[j].span.start, d.related[j].span.end)
    {
      var r := d.related[i];
      var moved := MapIn(targets, r.file, r.span);
      if moved.None? {
        return None;
      }
      related := related + [r.(span := moved.value)];
    }
    mapped := Some(d.(span := span.value, related := related));
    assert related == Moved(targets, d).related;
  }

  function Errors(ds: seq<Diag>): seq<Diag> {
    if ds == [] then []
    else Errors(ds[..|ds| - 1]) + if IsError(ds[|ds| - 1]) then [ds[|ds| - 1]] else []
  }

  function MovedErrors(targets: Targets, ds: seq<Diag>): seq<Diag> {
    if ds == [] then []
    else MovedErrors(targets, ds[..|ds| - 1]) + if IsError(ds[|ds| - 1]) then [Moved(targets, ds[|ds| - 1])] else []
  }

  ghost predicate AllMovable(targets: Targets, ds: seq<Diag>) {
    forall i | 0 <= i < |ds| && IsError(ds[i]) :: Movable(targets, ds[i])
  }

  /** The candidate's errors, counted, are among the live errors after the edits. */
  ghost predicate NoNewErrors(targets: Targets, live: seq<Diag>, candidate: seq<Diag>) {
    AllMovable(targets, live) && Counted(candidate) <= multiset(MovedErrors(targets, live))
  }

  ghost function MovedCount(targets: Targets, ds: seq<Diag>): multiset<Diag> {
    multiset(MovedErrors(targets, ds))
  }

  lemma {:induction false} MovedNext(targets: Targets, ds: seq<Diag>, i: nat)
    requires i < |ds|
    ensures MovedCount(targets, ds[..i + 1])
         == if IsError(ds[i]) then MovedCount(targets, ds[..i]) + multiset{Moved(targets, ds[i])} else MovedCount(targets, ds[..i])
  {
    hide Moved, IsError;
    assert ds[..i + 1][..i] == ds[..i];
  }

  lemma {:induction false} MovableNext(targets: Targets, ds: seq<Diag>, i: nat)
    requires i < |ds| && AllMovable(targets, ds[..i])
    ensures AllMovable(targets, ds[..i + 1]) <==> (IsError(ds[i]) ==> Movable(targets, ds[i]))
  {
    hide Movable, IsError;
    forall j | 0 <= j < i && IsError(ds[j]) ensures Movable(targets, ds[j]) {
      assert ds[..i][j] == ds[j];
    }
    if AllMovable(targets, ds[..i + 1]) {
      assert ds[..i + 1][i] == ds[i];
    }
  }

  lemma {:induction false} NoneMoved(targets: Targets, ds: seq<Diag>)
    ensures AllMovable(targets, ds[..0]) && MovedCount(targets, ds[..0]) == multiset{}
  {
  }

  lemma {:induction false} Immovable(targets: Targets, ds: seq<Diag>, i: nat)
    requires i < |ds| && IsError(ds[i]) && !Movable(targets, ds[i])
    ensures !AllMovable(targets, ds)
  {
  }

  /** Every live error is moved and counted, unless one cannot be moved. */
  method CountMoved(targets: Targets, live: seq<Diag>) returns (counted: Option<multiset<Diag>>)
    ensures counted.Some? <==> AllMovable(targets, live)
    ensures counted.Some? ==> counted.value == MovedCount(targets, live)
  {
    hide Movable, Moved, IsError, AllMovable, MovedCount;
    var remaining: multiset<Diag> := multiset{};
    NoneMoved(targets, live);
    for i := 0 to |live|
      invariant AllMovable(targets, live[..i]) && remaining == MovedCount(targets, live[..i])
    {
      MovedNext(targets, live, i);
      MovableNext(targets, live, i);
      if IsError(live[i]) {
        var mapped := MappedDiagnostic(targets, live[i]);
        if mapped.None? {
          Immovable(targets, live, i);
          return None;
        }
        remaining := remaining + multiset{mapped.value};
      }
    }
    assert live[..|live|] == live;
    counted := Some(remaining);
  }

  method IntroducesNoErrors(targets: Targets, live: seq<Diag>, candidate: seq<Diag>) returns (ok: bool)
    ensures ok <==> NoNewErrors(targets, live, candidate)
  {
    hide AllMovable, MovedErrors, Counted;
    var remaining := CountMoved(targets, live);
    if remaining.None? {
      return false;
    }
    ok := Consume(candidate, remaining.value);
  }

  ghost function Counted(ds: seq<Diag>): multiset<Diag> {
    multiset(Errors(ds))
  }

  lemma {:induction false} CountedNext(ds: seq<Diag>, i: nat)
    requires i < |ds|
    ensures Counted(ds[..i + 1]) == if IsError(ds[i]) then Counted(ds[..i]) + multiset{ds[i]} else Counted(ds[..i])
  {
    assert ds[..i + 1][..i] == ds[..i];
  }

  /** Takes every candidate error out of the count, as long as it is there. */
  method Consume(candidate: seq<Diag>, allowed: multiset<Diag>) returns (ok: bool)
    ensures ok <==> Counted(candidate) <= allowed
  {
    var remaining := allowed;
    assert Counted(candidate[..0]) == multiset{};
    hide Counted, IsError;
    for i := 0 to |candidate|
      invariant allowed == remaining + Counted(candidate[..i])
    {
      CountedNext(candidate, i);
      if IsError(candidate[i]) {
        if remaining[candidate[i]] == 0 {
          MoreThanAllowed(candidate, i, allowed, remaining);
          return false;
        }
        TakeOne(remaining, Counted(candidate[..i]), candidate[i]);
        remaining := remaining - multiset{candidate[i]};
      }
    }
    assert candidate[..|candidate|] == candidate;
    ok := true;
  }

  lemma {:induction false} TakeOne(remaining: multiset<Diag>, taken: multiset<Diag>, d: Diag)
    requires remaining[d] > 0
    ensures remaining + taken == (remaining - multiset{d}) + (taken + multiset{d})
  {
  }

  lemma {:induction false} ErrorsGrow(ds: seq<Diag>, n: nat)
    requires n <= |ds|
    ensures Counted(ds[..n]) <= Counted(ds)
    decreases |ds|
  {
    if n < |ds| {
      ErrorsGrow(ds[..|ds| - 1], n);
      assert ds[..|ds| - 1][..n] == ds[..n];
    } else {
      assert ds[..n] == ds;
    }
  }

  lemma {:induction false} MoreThanAllowed(ds: seq<Diag>, i: nat, allowed: multiset<Diag>, remaining: multiset<Diag>)
    requires i < |ds| && IsError(ds[i]) && allowed == remaining + Counted(ds[..i]) && remaining[ds[i]] == 0
    ensures !(Counted(ds) <= allowed)
  {
    ErrorsGrow(ds, i + 1);
    CountedNext(ds, i);
    hide Counted, IsError;
    assert Counted(ds)[ds[i]] >= Counted(ds[..i + 1])[ds[i]] == allowed[ds[i]] + 1;
  }

  lemma {:induction false} MovedFrom(targets: Targets, ds: seq<Diag>, m: Diag) returns (d: Diag)
    requires m in MovedErrors(targets, ds)
    ensures d in ds && IsError(d) && m == Moved(targets, d)
    decreases |ds|
  {
    hide Moved;
    var n := |ds| - 1;
    if m in MovedErrors(targets, ds[..n]) {
      d := MovedFrom(targets, ds[..n], m);
    } else {
      d := ds[n];
    }
  }

  lemma {:induction false} ErrorIn(ds: seq<Diag>, d: Diag)
    requires d in ds && IsError(d)
    ensures d in Errors(ds)
    decreases |ds|
  {
    var n := |ds| - 1;
    if d != ds[n] {
      assert ds == ds[..n] + [ds[n]];
      ErrorIn(ds[..n], d);
    }
  }

  lemma {:induction false} SameText(targets: Targets, d: Diag, body: string, from: string, to: string)
    requires Laid(body, In(targets, d.file), from, to) && Movable(targets, d) && Within(body, d.span)
    ensures Ascending(body, In(targets, d.file))
    ensures var after := Spliced(body, In(targets, d.file), to);
            Within(after, Moved(targets, d).span) && Slice(after, Moved(targets, d).span) == Slice(body, d.span)
  {
    hide Laid, Spliced, Ascending, Shift, Clear;
    MappedTextSame(body, In(targets, d.file), from, to, d.span.start, d.span.end);
  }

  /** Every error of an accepted candidate in a renamed file is a live error of that file,
      and stands on exactly the same text. */
  lemma {:induction false} AcceptedErrorIsOld(targets: Targets, live: seq<Diag>, candidate: seq<Diag>, e: Diag,
                                              body: string, from: string, to: string) returns (d: Diag)
    requires NoNewErrors(targets, live, candidate) && e in candidate && IsError(e)
    requires Laid(body, In(targets, e.file), from, to)
    ensures d in live && IsError(d) && d.file == e.file && d.code == e.code && d.message == e.message && e == Moved(targets, d)
    ensures Ascending(body, In(targets, e.file))
    ensures Within(body, d.span) ==>
      var after := Spliced(body, In(targets, e.file), to);
      Within(after, e.span) && Slice(after, e.span) == Slice(body, d.span)
  {
    ErrorIn(candidate, e);
    assert e in multiset(Errors(candidate));
    assert e in multiset(MovedErrors(targets, live));
    d := MovedFrom(targets, live, e);
    assert Movable(targets, d);
    hide *;
    LaidAscends(body, In(targets, e.file), from, to);
    if Within(body, d.span) {
      SameText(targets, d, body, from, to);
    }
  }
}
