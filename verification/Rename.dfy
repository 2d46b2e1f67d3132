/** Renaming a symbol in a file: laying out the tokens to replace, splicing the new spelling
    in, and carrying positions across. Positions are byte offsets. */
module Rename {
  import opened Wrappers

  datatype Span = Span(start: int, end: int)

  /** One replacement: the token in the old text, and where the new spelling ends up. */
  datatype Target = Target(span: Span, renamed: Span)

  predicate Within(text: string, s: Span) {
    0 <= s.start <= s.end <= |text|
  }

  function Slice(text: string, s: Span): string
    requires Within(text, s)
  {
    text[s.start..s.end]
  }

  // ------------------------------------------------------------------------- tokens ---

  predicate SeparatorAt(raw: string, i: nat) {
    i + 2 <= |raw| && raw[i] == ':' && raw[i + 1] == ':'
  }

  /** Where the last `::` starts. */
  function LastSeparator(raw: string, n: nat): (last: Option<nat>)
    requires n <= |raw|
    ensures last.Some? ==> last.value < n && SeparatorAt(raw, last.value)
    ensures forall i | (if last.Some? then last.value + 1 else 0) <= i < n :: !SeparatorAt(raw, i)
  {
    if n == 0 then None else if SeparatorAt(raw, n - 1) then Some(n - 1) else LastSeparator(raw, n - 1)
  }

  /** The segment of an occurrence that a rename replaces: what follows the last `::`, or
      everything when there is none. Empty and out-of-range spans are refused. */
  function TokenRange(text: string, span: Span): (token: Option<Span>)
    ensures token.Some? <==> 0 <= span.start < span.end <= |text|
    ensures token.Some? ==>
      && Within(text, token.value) && token.value.end == span.end && span.start <= token.value.start
      && (forall i | 0 <= i < |Slice(text, token.value)| :: !SeparatorAt(Slice(text, token.value), i))
      && (token.value.start > span.start ==>
            token.value.start >= span.start + 2 && SeparatorAt(text[span.start..span.end], token.value.start - span.start - 2))
  {
    if span.start < 0 || span.end > |text| || span.start >= span.end then None else
    var raw := text[span.start..span.end];
    match LastSeparator(raw, |raw|)
    case None => Some(span)
    case Some(i) =>
      var token := Span(span.start + i + 2, span.end);
      assert forall j | 0 <= j < |Slice(text, token)| :: Slice(text, token)[j] == raw[i + 2 + j];
      assert forall j | 0 <= j < |Slice(text, token)| && SeparatorAt(Slice(text, token), j) :: SeparatorAt(raw, i + 2 + j);
      Some(token)
  }

  // --------------------------------------------------------------------------- plan ---

  /** How far text moves after i replacements that each change the length by d. */
  function Delta(d: int, i: nat): int {
    if i == 0 then 0 else Delta(d, i - 1) + d
  }

  /** Where the text after the first k targets begins. */
  function Cursor(targets: seq<Target>, k: nat): int
    requires k <= |targets|
  {
    if k == 0 then 0 else targets[k - 1].span.end
  }

  ghost predicate LaidAt(body: string, targets: seq<Target>, from: string, to: string, i: nat)
    requires i < |targets|
  {
    var t := targets[i];
    && Within(body, t.span) && Slice(body, t.span) == from && Cursor(targets, i) <= t.span.start
    && t.renamed == Span(t.span.start + Delta(|to| - |from|, i), t.span.start + Delta(|to| - |from|, i) + |to|)
  }

  /** The targets spell `from`, ascend without overlapping, and say where `to` will stand. */
  ghost predicate Laid(body: string, targets: seq<Target>, from: string, to: string) {
    forall i | 0 <= i < |targets| :: LaidAt(body, targets, from, to, i)
  }

  /** What must hold of the occurrences, sorted by start, for a file to be planned. */
  ghost predicate PlannableAt(body: string, occurrences: seq<Span>, from: string, i: nat)
    requires i < |occurrences|
  {
    var token := TokenRange(body, occurrences[i]);
    && token.Some? && Slice(body, token.value) == from
    && (i > 0 ==> TokenRange(body, occurrences[i - 1]).Some? && TokenRange(body, occurrences[i - 1]).value.end <= token.value.start)
  }

  /** Lays out the replacements in one file, or declines. */
  method PlanFile(body: string, occurrences: seq<Span>, from: string, to: string) returns (targets: Option<seq<Target>>)
    ensures targets.Some? <==> forall i | 0 <= i < |occurrences| :: PlannableAt(body, occurrences, from, i)
    ensures targets.Some? ==>
      && Laid(body, targets.value, from, to) && |targets.value| == |occurrences|
      && forall i | 0 <= i < |occurrences| :: TokenRange(body, occurrences[i]) == Some(targets.value[i].span)
  {
    var laid: seq<Target> := [];
    var delta, previous := 0, -1;
    for i := 0 to |occurrences|
      invariant |laid| == i && delta == Delta(|to| - |from|, i) && previous == if i == 0 then -1 else laid[i - 1].span.end
      invariant Laid(body, laid, from, to)
      invariant forall j | 0 <= j < i :: PlannableAt(body, occurrences, from, j)
      invariant forall j | 0 <= j < i :: TokenRange(body, occurrences[j]) == Some(laid[j].span)
    {
      var token := TokenRange(body, occurrences[i]);
      if token.None? || token.value.start < previous || body[token.value.start..token.value.end] != from {
        assert !PlannableAt(body, occurrences, from, i);
        return None;
      }
      previous := token.value.end;
      var shifted := Span(token.value.start + delta, token.value.start + delta + |to|);
      delta := delta + |to| - (token.value.end - token.value.start);
      LaidNext(body, laid, from, to, Target(token.value, shifted));
      laid := laid + [Target(token.value, shifted)];
    }
    targets := Some(laid);
  }

  lemma {:induction false} LaidNext(body: string, laid: seq<Target>, from: string, to: string, t: Target)
    requires Laid(body, laid, from, to)
    requires Within(body, t.span) && Slice(body, t.span) == from && (laid != [] ==> laid[|laid| - 1].span.end <= t.span.start)
    requires t.renamed == Span(t.span.start + Delta(|to| - |from|, |laid|), t.span.start + Delta(|to| - |from|, |laid|) + |to|)
    ensures Laid(body, laid + [t], from, to)
  {
    var next := laid + [t];
    forall i | 0 <= i < |next| ensures LaidAt(body, next, from, to, i) {
      if i < |laid| { assert LaidAt(body, laid, from, to, i); }
      if i > 0 { assert LaidAt(body, laid, from, to, i - 1); }
    }
  }

  // ------------------------------------------------------------------------- splice ---

  /** Every target spans part of the text, in order. */
  ghost predicate Ascending(body: string, targets: seq<Target>) {
    forall i | 0 <= i < |targets| :: Within(body, targets[i].span) && Cursor(targets, i) <= targets[i].span.start
  }

  lemma {:induction false} LaidAscends(body: string, targets: seq<Target>, from: string, to: string)
    requires Laid(body, targets, from, to)
    ensures Ascending(body, targets)
  {
    forall i | 0 <= i < |targets| ensures Within(body, targets[i].span) && Cursor(targets, i) <= targets[i].span.start {
      assert LaidAt(body, targets, from, to, i);
    }
  }

  /** The new text up to and including the k-th replacement. */
  ghost function Built(body: string, targets: seq<Target>, name: string, k: nat): string
    requires k <= |targets| && Ascending(body, targets)
  {
    if k == 0 then "" else Built(body, targets, name, k - 1) + body[Cursor(targets, k - 1)..targets[k - 1].span.start] + name
  }

  ghost function Spliced(body: string, targets: seq<Target>, name: string): string
    requires Ascending(body, targets)
  {
    assert Cursor(targets, |targets|) <= |body|;
    Built(body, targets, name, |targets|) + body[Cursor(targets, |targets|)..]
  }

  method ApplyTargets(body: string, targets: seq<Target>, name: string) returns (out: string)
    requires Ascending(body, targets)
    ensures out == Spliced(body, targets, name)
  {
    out := "";
    var cursor := 0;
    for i := 0 to |targets|
      invariant cursor == Cursor(targets, i) && 0 <= cursor <= |body|
      invariant out == Built(body, targets, name, i)
    {
      out := out + body[cursor..targets[i].span.start] + name;
      cursor := targets[i].span.end;
    }
    out := out + body[cursor..];
  }

  lemma {:induction false} BuiltLength(body: string, targets: seq<Target>, from: string, to: string, k: nat)
    requires Laid(body, targets, from, to) && k <= |targets|
    ensures Ascending(body, targets) && |Built(body, targets, to, k)| == Cursor(targets, k) + Delta(|to| - |from|, k)
  {
    LaidAscends(body, targets, from, to);
    if k > 0 {
      BuiltLength(body, targets, from, to, k - 1);
      assert LaidAt(body, targets, from, to, k - 1);
    }
  }

  /** Each stage of the new text begins with the earlier ones. */
  lemma {:induction false} BuiltPrefix(body: string, targets: seq<Target>, name: string, k: nat, n: nat)
    requires Ascending(body, targets) && k <= n <= |targets|
    ensures Built(body, targets, name, k) <= Built(body, targets, name, n)
    decreases n - k
  {
    if k < n {
      BuiltPrefix(body, targets, name, k, n - 1);
    }
  }

  /** Around target k: the gap before it is copied, and the new spelling stands at the place
      that was worked out beforehand. */
  ghost predicate Stands(body: string, targets: seq<Target>, after: string, from: string, to: string, k: nat)
    requires k < |targets|
  {
    var d, c, t := Delta(|to| - |from|, k), Cursor(targets, k), targets[k];
    && Within(after, t.renamed) && Slice(after, t.renamed) == to
    && 0 <= c <= t.span.start <= |body| && 0 <= c + d <= t.renamed.start == t.span.start + d
    && after[c + d..t.renamed.start] == body[c..t.span.start]
  }

  lemma {:induction false} Parts(stage: string, after: string, b: string, gap: string, to: string)
    requires stage == b + gap + to && stage <= after
    ensures |b + gap + to| <= |after| && after[|b|..|b| + |gap|] == gap && after[|b| + |gap|..|b| + |gap| + |to|] == to
  {
    assert stage[|b|..|b| + |gap|] == gap && stage[|b| + |gap|..] == to;
    assert after[..|stage|] == stage;
  }

  lemma {:induction false} RenamedStands(body: string, targets: seq<Target>, from: string, to: string, k: nat)
    requires Laid(body, targets, from, to) && k < |targets|
    ensures Ascending(body, targets) && Stands(body, targets, Spliced(body, targets, to), from, to, k)
  {
    LaidAscends(body, targets, from, to);
    BuiltLength(body, targets, from, to, k);
    BuiltPrefix(body, targets, to, k + 1, |targets|);
    assert LaidAt(body, targets, from, to, k);
    var after, stage := Spliced(body, targets, to), Built(body, targets, to, k + 1);
    assert stage <= after;
    Parts(stage, after, Built(body, targets, to, k), body[Cursor(targets, k)..targets[k].span.start], to);
  }

  /** The text after the last target is copied to the end. */
  ghost predicate TailKept(body: string, after: string, c: int, d: int) {
    0 <= c <= |body| && 0 <= c + d <= |after| && after[c + d..] == body[c..]
  }

  lemma {:induction false} TailStands(body: string, targets: seq<Target>, from: string, to: string)
    requires Laid(body, targets, from, to)
    ensures Ascending(body, targets)
    ensures TailKept(body, Spliced(body, targets, to), Cursor(targets, |targets|), Delta(|to| - |from|, |targets|))
  {
    BuiltLength(body, targets, from, to, |targets|);
    assert |targets| > 0 ==> LaidAt(body, targets, from, to, |targets| - 1);
  }

  function Flip(t: Target): Target {
    Target(t.renamed, t.span)
  }

  /** The same replacements seen from the new text. */
  function Inverse(targets: seq<Target>): (inverse: seq<Target>)
    ensures |inverse| == |targets| && forall i | 0 <= i < |targets| :: inverse[i] == Flip(targets[i])
  {
    seq(|targets|, i requires 0 <= i < |targets| => Flip(targets[i]))
  }

  lemma {:induction false} DeltaNegates(d: int, i: nat)
    ensures Delta(-d, i) == -Delta(d, i)
  {
    if i > 0 {
      DeltaNegates(d, i - 1);
    }
  }

  lemma {:induction false} InverseLaid(body: string, targets: seq<Target>, from: string, to: string)
    requires Laid(body, targets, from, to)
    ensures Ascending(body, targets) && Laid(Spliced(body, targets, to), Inverse(targets), to, from)
  {
    LaidAscends(body, targets, from, to);
    var after, inverse := Spliced(body, targets, to), Inverse(targets);
    forall i | 0 <= i < |targets| ensures LaidAt(after, inverse, to, from, i) {
      hide Spliced;
      RenamedStands(body, targets, from, to, i);
      assert LaidAt(body, targets, from, to, i);
      InverseLaidAt(body, targets, after, from, to, i);
    }
  }

  lemma {:induction false} InverseLaidAt(body: string, targets: seq<Target>, after: string, from: string, to: string, i: nat)
    requires i < |targets| && LaidAt(body, targets, from, to, i) && Stands(body, targets, after, from, to, i)
    requires Laid(body, targets, from, to)
    ensures LaidAt(after, Inverse(targets), to, from, i)
    ensures Cursor(Inverse(targets), i) == Cursor(targets, i) + Delta(|to| - |from|, i)
  {
    DeltaNegates(|to| - |from|, i);
    CursorMoves(body, targets, from, to, i);
  }

  lemma {:induction false} CursorMoves(body: string, targets: seq<Target>, from: string, to: string, i: nat)
    requires i <= |targets| && Laid(body, targets, from, to)
    ensures Cursor(Inverse(targets), i) == Cursor(targets, i) + Delta(|to| - |from|, i)
  {
    if i > 0 { assert LaidAt(body, targets, from, to, i - 1); }
  }

  /** Splicing the old spelling back at the renamed places restores the file. */
  lemma {:induction false} RoundTrip(body: string, targets: seq<Target>, from: string, to: string)
    requires Laid(body, targets, from, to)
    ensures Ascending(body, targets)
    ensures Ascending(Spliced(body, targets, to), Inverse(targets))
    ensures Spliced(Spliced(body, targets, to), Inverse(targets), from) == body
  {
    LaidAscends(body, targets, from, to);
    InverseLaid(body, targets, from, to);
    var after := Spliced(body, targets, to);
    LaidAscends(after, Inverse(targets), to, from);
    TailStands(body, targets, from, to);
    CursorMoves(body, targets, from, to, |targets|);
    forall k | 0 <= k < |targets| ensures Stands(body, targets, after, from, to, k) {
      RenamedStands(body, targets, from, to, k);
    }
    BackTo(body, targets, after, Inverse(targets), from, to, |targets|);
    hide Laid, Ascending, Stands, Built, Delta;
    assert body == body[..Cursor(targets, |targets|)] + body[Cursor(targets, |targets|)..];
  }

  /** Built back up, each stage of the old text is a stretch of the old text. */
  ghost predicate Restored(body: string, targets: seq<Target>, after: string, inverse: seq<Target>, from: string, k: nat)
    requires k <= |targets| == |inverse| && Ascending(after, inverse)
  {
    0 <= Cursor(targets, k) <= |body| && Built(after, inverse, from, k) == body[..Cursor(targets, k)]
  }

  lemma {:induction false} BackTo(body: string, targets: seq<Target>, after: string, inverse: seq<Target>, from: string, to: string, k: nat)
    requires Laid(body, targets, from, to) && k <= |targets| && inverse == Inverse(targets) && Ascending(after, inverse)
    requires forall i | 0 <= i < |targets| :: Stands(body, targets, after, from, to, i)
    ensures Restored(body, targets, after, inverse, from, k)
    decreases k
  {
    hide *;
    if k == 0 {
      RestoredNone(body, targets, after, inverse, from);
    } else {
      BackTo(body, targets, after, inverse, from, to, k - 1);
      CursorMoves(body, targets, from, to, k - 1);
      LaidHere(body, targets, from, to, k - 1);
      BackStep(body, targets, after, inverse, from, to, k);
    }
  }

  lemma {:induction false} RestoredNone(body: string, targets: seq<Target>, after: string, inverse: seq<Target>, from: string)
    requires |targets| == |inverse| && Ascending(after, inverse)
    ensures Restored(body, targets, after, inverse, from, 0)
  {
    hide Ascending;
  }

  lemma {:induction false} BackStep(body: string, targets: seq<Target>, after: string, inverse: seq<Target>, from: string, to: string, k: nat)
    requires 0 < k <= |targets| == |inverse| && inverse[k - 1] == Flip(targets[k - 1])
    requires LaidAt(body, targets, from, to, k - 1) && Ascending(after, inverse)
    requires Stands(body, targets, after, from, to, k - 1) && Restored(body, targets, after, inverse, from, k - 1)
    requires Cursor(inverse, k - 1) == Cursor(targets, k - 1) + Delta(|to| - |from|, k - 1)
    ensures Restored(body, targets, after, inverse, from, k)
  {
    hide Ascending;
    var c, t := Cursor(targets, k - 1), targets[k - 1].span;
    assert body[..t.end] == body[..c] + body[c..t.start] + body[t.start..t.end];
  }

  lemma {:induction false} LaidHere(body: string, targets: seq<Target>, from: string, to: string, k: nat)
    requires Laid(body, targets, from, to) && k < |targets|
    ensures LaidAt(body, targets, from, to, k)
  {
  }

  // -------------------------------------------------------------------- relocation ---

  /** A position range meets a target: it overlaps it, or is empty and touches it. */
  predicate Touches(a: int, b: int, t: Target) {
    (a < t.span.end && b > t.span.start) || (a == b && t.span.start <= a <= t.span.end)
  }

  /** The range meets no target. */
  predicate Clear(targets: seq<Target>, a: int, b: int) {
    forall i | 0 <= i < |targets| :: !Touches(a, b, targets[i])
  }

  /** The range and the token have a byte in common. */
  ghost predicate SharesByte(a: int, b: int, s: Span) {
    exists x :: InBoth(a, b, s, x)
  }

  predicate InBoth(a: int, b: int, s: Span, x: int) {
    a <= x < b && s.start <= x < s.end
  }

  /** A token stands in the way of a range: they share a byte, or the range is empty and lies
      within the token or at one of its ends. */
  ghost predicate InTheWay(a: int, b: int, s: Span) {
    SharesByte(a, b, s) || (a == b && s.start <= a <= s.end)
  }

  lemma {:induction false} TouchesMeans(a: int, b: int, t: Target)
    requires a <= b && t.span.start < t.span.end
    ensures Touches(a, b, t) <==> InTheWay(a, b, t.span)
  {
    if a < t.span.end && b > t.span.start && a < b {
      assert InBoth(a, b, t.span, if a < t.span.start then t.span.start else a);
    }
  }

  function Growth(t: Target): int {
    (t.renamed.end - t.renamed.start) - (t.span.end - t.span.start)
  }

  /** How much the targets ending by a change the length. */
  function Shift(targets: seq<Target>, a: int): int {
    if targets == [] then 0
    else Shift(targets[..|targets| - 1], a) + if targets[|targets| - 1].span.end <= a then Growth(targets[|targets| - 1]) else 0
  }

  /** A range is refused exactly when some token stands in its way. */
  lemma {:induction false} RefusedMeans(targets: seq<Target>, a: int, b: int)
    ensures a <= b && (forall i | 0 <= i < |targets| :: targets[i].span.start < targets[i].span.end) ==>
              (!Clear(targets, a, b) <==> exists i :: 0 <= i < |targets| && InTheWay(a, b, targets[i].span))
  {
    hide InTheWay, Touches;
    if a <= b && forall i | 0 <= i < |targets| :: targets[i].span.start < targets[i].span.end {
      forall i | 0 <= i < |targets| ensures Touches(a, b, targets[i]) <==> InTheWay(a, b, targets[i].span) {
        TouchesMeans(a, b, targets[i]);
      }
    }
  }

  /** Moves a range across the replacements; one that meets a target is refused. */
  method MapSpan(a: int, b: int, targets: seq<Target>) returns (mapped: Option<Span>)
    ensures mapped.Some? <==> Clear(targets, a, b)
    ensures mapped.Some? ==> mapped.value == Span(a + Shift(targets, a), b + Shift(targets, a))
    ensures a <= b && (forall i | 0 <= i < |targets| :: targets[i].span.start < targets[i].span.end) ==>
              (mapped.None? <==> exists i :: 0 <= i < |targets| && InTheWay(a, b, targets[i].span))
  {
    RefusedMeans(targets, a, b);
    hide InTheWay;
    var shift := 0;
    for i := 0 to |targets|
      invariant shift == Shift(targets[..i], a)
      invariant forall j | 0 <= j < i :: !Touches(a, b, targets[j])
    {
      var t := targets[i];
      if (a < t.span.end && b > t.span.start) || (a == b && a >= t.span.start && a <= t.span.end) {
        assert Touches(a, b, targets[i]);
        return None;
      }
      if t.span.end <= a {
        shift := shift + t.renamed.end - t.renamed.start - (t.span.end - t.span.start);
      }
      assert targets[..i + 1][..i] == targets[..i];
    }
    assert targets[..|targets|] == targets;
    mapped := Some(Span(a + shift, b + shift));
  }

  /** The number of targets ending by a. */
  function Passed(targets: seq<Target>, a: int): (k: nat)
    ensures k <= |targets|
    ensures k > 0 ==> targets[k - 1].span.end <= a
    ensures k < |targets| ==> a < targets[k].span.end
    decreases |targets|
  {
    if targets == [] then 0
    else if targets[|targets| - 1].span.end <= a then |targets| else Passed(targets[..|targets| - 1], a)
  }

  lemma {:induction false} EndsAscend(body: string, targets: seq<Target>, i: nat, j: nat)
    requires Ascending(body, targets) && i <= j < |targets|
    ensures targets[i].span.end <= targets[j].span.end
    decreases j
  {
    if i < j {
      EndsAscend(body, targets, i, j - 1);
    }
  }

  lemma {:induction false} ShiftIs(body: string, targets: seq<Target>, from: string, to: string, a: int, n: nat)
    requires Laid(body, targets, from, to) && n <= |targets|
    ensures Shift(targets[..n], a) == Delta(|to| - |from|, if n <= Passed(targets, a) then n else Passed(targets, a))
    decreases n
  {
    hide Laid, Ascending, Passed, Shift, Growth;
    if n == 0 {
      assert targets[..n] == [];
      ShiftNone(a);
    } else {
      ShiftIs(body, targets, from, to, a, n - 1);
      ShiftNext(targets, a, n);
      LaidGrowth(body, targets, from, to, n - 1);
      LaidAscends(body, targets, from, to);
      PassedIs(body, targets, a, n - 1);
    }
  }

  lemma {:induction false} ShiftNone(a: int)
    ensures Shift([], a) == 0
  {
  }

  lemma {:induction false} ShiftNext(targets: seq<Target>, a: int, n: nat)
    requires 0 < n <= |targets|
    ensures Shift(targets[..n], a) == Shift(targets[..n - 1], a) + if targets[n - 1].span.end <= a then Growth(targets[n - 1]) else 0
  {
    assert targets[..n][..n - 1] == targets[..n - 1];
  }

  lemma {:induction false} LaidGrowth(body: string, targets: seq<Target>, from: string, to: string, k: nat)
    requires Laid(body, targets, from, to) && k < |targets|
    ensures Growth(targets[k]) == |to| - |from|
  {
    assert LaidAt(body, targets, from, to, k);
  }

  /** A target ends by a exactly when it is among those passed. */
  lemma {:induction false} PassedIs(body: string, targets: seq<Target>, a: int, i: nat)
    requires Ascending(body, targets) && i < |targets|
    ensures targets[i].span.end <= a <==> i < Passed(targets, a)
  {
    var k := Passed(targets, a);
    if i < k { EndsAscend(body, targets, i, k - 1); } else { EndsAscend(body, targets, k, i); }
  }

  lemma {:induction false} ShiftPassed(body: string, targets: seq<Target>, from: string, to: string, a: int)
    requires Laid(body, targets, from, to)
    ensures Shift(targets, a) == Delta(|to| - |from|, Passed(targets, a))
  {
    assert targets[..|targets|] == targets;
    ShiftIs(body, targets, from, to, a, |targets|);
  }

  /** A range that meets no target lies between the last one passed and the next. */
  lemma {:induction false} LiesInGap(body: string, targets: seq<Target>, a: nat, b: nat)
    requires Ascending(body, targets) && a <= b <= |body| && Clear(targets, a, b)
    ensures var k := Passed(targets, a);
            0 <= Cursor(targets, k) <= a && (k < |targets| ==> b <= targets[k].span.start)
  {
  }

  lemma {:induction false} GapStands(body: string, targets: seq<Target>, from: string, to: string, k: nat, a: nat, b: nat)
    requires Laid(body, targets, from, to) && k <= |targets| && 0 <= Cursor(targets, k) <= a <= b <= |body|
    requires k < |targets| ==> b <= targets[k].span.start
    ensures Ascending(body, targets)
    ensures var d, after := Delta(|to| - |from|, k), Spliced(body, targets, to);
            0 <= a + d <= b + d <= |after| && after[a + d..b + d] == body[a..b]
  {
    LaidAscends(body, targets, from, to);
    var c, d, after := Cursor(targets, k), Delta(|to| - |from|, k), Spliced(body, targets, to);
    hide Spliced, Built, Laid, Delta;
    if k < |targets| {
      RenamedStands(body, targets, from, to, k);
      GapText(body, after, c, targets[k].span.start, d, a, b);
    } else {
      TailStands(body, targets, from, to);
      assert body[c..|body|] == body[c..] && after[c + d..|after|] == after[c + d..];
      GapText(body, after, c, |body|, d, a, b);
    }
  }

  /** A range that meets no target covers, byte for byte, the same text after the rename. */
  lemma {:induction false} MappedTextSame(body: string, targets: seq<Target>, from: string, to: string, a: nat, b: nat)
    requires Laid(body, targets, from, to) && a <= b <= |body| && Clear(targets, a, b)
    ensures Ascending(body, targets)
    ensures var s, after := Shift(targets, a), Spliced(body, targets, to);
            0 <= a + s <= b + s <= |after| && after[a + s..b + s] == body[a..b]
  {
    hide *;
    LaidAscends(body, targets, from, to);
    ShiftPassed(body, targets, from, to, a);
    LiesInGap(body, targets, a, b);
    GapStands(body, targets, from, to, Passed(targets, a), a, b);
  }

  lemma {:induction false} GapText(body: string, after: string, c: int, e: int, d: int, a: int, b: int)
    requires 0 <= c <= a <= b <= e <= |body| && 0 <= c + d <= e + d <= |after| && after[c + d..e + d] == body[c..e]
    ensures 0 <= a + d <= b + d <= |after| && after[a + d..b + d] == body[a..b]
  {
    Subslice(body, c, e, a - c, b - c);
    Subslice(after, c + d, e + d, a - c, b - c);
    assert after[a + d..b + d] == after[c + d..e + d][a - c..b - c];
  }

  lemma {:induction false} Subslice(s: string, lo: int, hi: int, i: int, j: int)
    requires 0 <= lo <= hi <= |s| && 0 <= i <= j <= hi - lo
    ensures s[lo..hi][i..j] == s[lo + i..lo + j]
  {
    var x, y := s[lo..hi][i..j], s[lo + i..lo + j];
    forall k | 0 <= k < |x| ensures x[k] == y[k] {
      assert x[k] == s[lo..hi][i + k];
    }
  }
}
