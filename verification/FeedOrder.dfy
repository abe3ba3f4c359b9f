/** A feed as a sequence of effects: the last writer of a key decides what is found under it, and the order of
    independent lines does not matter. */
module FeedOrder {
  import opened Types
  import opened Store
  import opened LineParser
  import opened SessionSpec
  import opened ErrorRun
  import opened EventSourcing
  import opened SessionReplay
  import Decode

  // ---- The effect of a line ----

  function EventEffect(version: ApiVersion, e: RawEvent, data: Json): (r: Effect)
    ensures Accepted(r)
  {
    if e.objectType == UnknownType || EffectOf(version, e, data).Err? then Nothing else EffectOf(version, e, data).value
  }

  /** What a line does to the objects of a session whose core is `c`. */
  function LineEffect(o: Options, c: Core, line: RawLine): (r: Effect)
    ensures Accepted(r)
  {
    match ParseLine(line, 0, o)
    case Ok(Parsed(e, data)) => EventEffect(Detect(o, c, e, data).profile, e, data)
    case _ => Nothing
  }

  /** The line number plays no role. */
  lemma EffectIgnoresLineNumber(o: Options, c: Core, e: RawEvent, data: Json, n: nat)
    ensures EventEffect(Detect(o, c, e, data).profile, e, data) ==
            EventEffect(Detect(o, c, e.(lineNo := n), data).profile, e.(lineNo := n), data)
  {
  }

  function CountOf(e: Effect): nat {
    if e == Nothing then 0 else 1
  }

  lemma StepPerforms(o: Options, c: Core, e: RawEvent, data: Json)
    ensures
      var effect, after := EventEffect(Detect(o, c, e, data).profile, e, data), CoreStep(o, c, e, data);
      && after.store.objects == Perform(c.store.objects, effect)
      && after.store.eventCount == c.store.eventCount + CountOf(effect)
  {
    hide VersionHint, Decode.DecodeObject, Decode.DecodeCollection;
    NothingPerformed(c.store.objects);
  }

  lemma NothingPerformed(o: Objects)
    ensures Perform(o, Nothing) == o
  {
  }

  lemma LinePerforms(o: Options, s: SessionState, line: RawLine)
    requires !s.finished
    ensures Consume(o, s, line).core.store.objects == Perform(s.core.store.objects, LineEffect(o, s.core, line))
    ensures Consume(o, s, line).core.store.eventCount == s.core.store.eventCount + CountOf(LineEffect(o, s.core, line))
  {
    hide ParseLine, Consume, CoreStep, EventEffect, Detect;
    var n := s.cursor.lineNo + 1;
    LineOnCore(o, s, line);
    LineNumberIsALabel(line, 0, n, o);
    var p := ParseLine(line, 0, o);
    if p.Ok? && p.value.Parsed? {
      EffectIgnoresLineNumber(o, s.core, p.value.event, p.value.data, n);
      StepPerforms(o, s.core, p.value.event.(lineNo := n), p.value.data);
    }
  }

  // ---- A feed as its effects ----

  function Effects(o: Options, lines: seq<RawLine>): (r: seq<Effect>)
    ensures |r| == |lines| && AllAccepted(r)
  {
    if lines == [] then []
    else
      var prefix := lines[..|lines| - 1];
      Effects(o, prefix) + [LineEffect(o, Run(o, prefix).core, lines[|lines| - 1])]
  }

  predicate AllAccepted(es: seq<Effect>) {
    forall i | 0 <= i < |es| :: Accepted(es[i])
  }

  function PerformAll(o: Objects, es: seq<Effect>): Objects
    requires AllAccepted(es)
  {
    if es == [] then o else Perform(PerformAll(o, es[..|es| - 1]), es[|es| - 1])
  }

  function CountAll(es: seq<Effect>): nat {
    if es == [] then 0 else CountAll(es[..|es| - 1]) + CountOf(es[|es| - 1])
  }

  /** The objects and the event count after a feed are those of its effects, one after the other. */
  lemma {:induction false} FeedIsItsEffects(o: Options, lines: seq<RawLine>)
    ensures Run(o, lines).core.store.objects == PerformAll(NO_OBJECTS, Effects(o, lines))
    ensures Run(o, lines).core.store.eventCount == CountAll(Effects(o, lines))
  {
    hide Consume, LineEffect, Perform, CountOf;
    if lines != [] {
      var prefix, es := lines[..|lines| - 1], Effects(o, lines);
      FeedIsItsEffects(o, prefix);
      CounterIsTrailingRun(o, prefix);
      LinePerforms(o, Run(o, prefix), lines[|lines| - 1]);
      assert es[..|es| - 1] == Effects(o, prefix);
    }
  }

  // ---- Last writer wins ----

  /** Scanning a feed backwards for the last effect that touches a key. */
  function LastWrite(es: seq<Effect>, t: ObjectType, id: string): Option<ContestObject> {
    if es == [] then None
    else
      var w := Write(es[|es| - 1], t, id);
      if w.Some? then w.value else LastWrite(es[..|es| - 1], t, id)
  }

  lemma {:induction false} LastWriteIsFound(es: seq<Effect>, t: ObjectType, id: string)
    requires AllAccepted(es)
    ensures Find(PerformAll(NO_OBJECTS, es), t, id) == LastWrite(es, t, id)
  {
    hide Perform, Write;
    if es != [] {
      LastWriteIsFound(es[..|es| - 1], t, id);
      PerformWrites(PerformAll(NO_OBJECTS, es[..|es| - 1]), es[|es| - 1], t, id);
    }
  }

  /** After any feed, under any options, what is found under a type and id is what the last successful line that touches
      that key left there: an upsert, a delete, or a replace of the whole type. */
  lemma LastWriterWins(o: Options, lines: seq<RawLine>, t: ObjectType, id: string)
    ensures Find(Run(o, lines).core.store.objects, t, id) == LastWrite(Effects(o, lines), t, id)
  {
    FeedIsItsEffects(o, lines);
    LastWriteIsFound(Effects(o, lines), t, id);
  }

  // ---- Reordering effects ----

  /** The effects of `rest` after those of `first`. */
  lemma {:induction false} PerformParts(o: Objects, first: seq<Effect>, rest: seq<Effect>)
    requires AllAccepted(first) && AllAccepted(rest)
    ensures AllAccepted(first + rest)
    ensures PerformAll(o, first + rest) == PerformAll(PerformAll(o, first), rest)
    ensures CountAll(first + rest) == CountAll(first) + CountAll(rest)
  {
    hide Perform, CountOf;
    if rest == [] {
      assert first + rest == first;
    } else {
      var all, last := first + rest, |rest| - 1;
      assert all[..|all| - 1] == first + rest[..last];
      PerformParts(o, first, rest[..last]);
    }
  }

  /** An effect that is independent of all those before it may as well come first. */
  lemma {:induction false} MoveToFront(o: Objects, before: seq<Effect>, e: Effect)
    requires AllAccepted(before) && Accepted(e)
    requires forall i | 0 <= i < |before| :: !Dependent(e, before[i])
    ensures Perform(PerformAll(o, before), e) == PerformAll(Perform(o, e), before)
  {
    hide Perform, Dependent;
    if before != [] {
      var last := |before| - 1;
      MoveToFront(o, before[..last], e);
      DependentIsSymmetric(e, before[last]);
      IndependentCommute(PerformAll(o, before[..last]), before[last], e);
    }
  }

  lemma DependentIsSymmetric(a: Effect, b: Effect)
    ensures Dependent(a, b) <==> Dependent(b, a)
  {
  }

  /** `to[i]` is the place in `fs` of the i-th element of `es`; `from` is the way back. */
  ghost predicate Rearranges<T>(es: seq<T>, fs: seq<T>, to: seq<nat>, from: seq<nat>) {
    && |to| == |from| == |es| == |fs|
    && (forall i | 0 <= i < |es| :: to[i] < |fs| && from[to[i]] == i && fs[to[i]] == es[i])
    && (forall j | 0 <= j < |fs| :: from[j] < |es| && to[from[j]] == j)
  }

  /** The rearrangement keeps every dependent pair in order. */
  ghost predicate KeepsDependentOrder(es: seq<Effect>, to: seq<nat>)
    requires |to| == |es|
  {
    forall i, j | 0 <= i < j < |es| && Dependent(es[i], es[j]) :: to[i] < to[j]
  }

  /** A position once position k is gone. */
  function Without(k: nat, q: nat): int {
    if q > k then q - 1 else q
  }

  lemma OtherPlacesDiffer<T>(es: seq<T>, fs: seq<T>, to: seq<nat>, from: seq<nat>, i: nat)
    requires Rearranges(es, fs, to, from) && 0 < i < |es|
    ensures to[i] != to[0]
  {
    assert from[to[i]] == i && from[to[0]] == 0;
  }

  lemma ElementWithout<T>(fs: seq<T>, k: nat, q: nat)
    requires k < |fs| && q < |fs| && q != k
    ensures 0 <= Without(k, q) < |fs| - 1 && (fs[..k] + fs[k + 1..])[Without(k, q)] == fs[q]
  {
  }

  function PlacesWithout(to: seq<nat>): (r: seq<nat>)
    requires to != []
    requires forall i | 0 < i < |to| :: to[i] != to[0]
    ensures |r| == |to| - 1 && forall i | 0 <= i < |r| :: r[i] == Without(to[0], to[i + 1])
  {
    seq(|to| - 1, i requires 0 <= i < |to| - 1 => var q: nat := Without(to[0], to[i + 1]); q)
  }

  /** Removing the first element of `es` from both sides leaves a rearrangement. */
  lemma RearrangeRest<T>(es: seq<T>, fs: seq<T>, to: seq<nat>, from: seq<nat>) returns (to': seq<nat>, from': seq<nat>)
    requires es != [] && Rearranges(es, fs, to, from)
    ensures Rearranges(es[1..], fs[..to[0]] + fs[to[0] + 1..], to', from')
    ensures |to'| == |es| - 1 && forall i | 0 <= i < |to'| :: to'[i] == Without(to[0], to[i + 1])
  {
    var k, n := to[0], |es| - 1;
    forall i | 0 < i < |to|
      ensures to[i] != to[0]
    {
      OtherPlacesDiffer(es, fs, to, from, i);
    }
    to' := PlacesWithout(to);
    from' := seq(n, j requires 0 <= j < n => var q: nat := WayBack(es, fs, to, from, j); q);
    forall i | 0 <= i < n
      ensures to'[i] < n && from'[to'[i]] == i && (fs[..k] + fs[k + 1..])[to'[i]] == es[1..][i]
    {
      ElementWithout(fs, k, to[i + 1]);
    }
    forall j | 0 <= j < n
      ensures from'[j] < n && to'[from'[j]] == j
    {
    }
  }

  ghost function WayBack<T>(es: seq<T>, fs: seq<T>, to: seq<nat>, from: seq<nat>, j: nat): (r: nat)
    requires es != [] && Rearranges(es, fs, to, from) && j < |es| - 1
    ensures r < |es| - 1 && to[r + 1] == if j >= to[0] then j + 1 else j
  {
    var q := if j >= to[0] then j + 1 else j;
    assert to[from[q]] == q;
    from[q] - 1
  }

  lemma RestKeepsOrder(es: seq<Effect>, fs: seq<Effect>, to: seq<nat>, from: seq<nat>, to': seq<nat>)
    requires es != [] && Rearranges(es, fs, to, from) && KeepsDependentOrder(es, to)
    requires |to'| == |es| - 1 && forall i | 0 <= i < |to'| :: to'[i] == Without(to[0], to[i + 1])
    ensures KeepsDependentOrder(es[1..], to')
  {
    hide Dependent;
    forall i, j | 0 <= i < j < |es| - 1 && Dependent(es[1..][i], es[1..][j])
      ensures to'[i] < to'[j]
    {
      OtherPlacesDiffer(es, fs, to, from, i + 1);
      OtherPlacesDiffer(es, fs, to, from, j + 1);
      assert to[i + 1] < to[j + 1];
    }
  }

  /** What stands before the first effect of `es` in the rearranged sequence is independent of it. */
  lemma BeforeFirstIsIndependent(es: seq<Effect>, fs: seq<Effect>, to: seq<nat>, from: seq<nat>)
    requires es != [] && Rearranges(es, fs, to, from) && KeepsDependentOrder(es, to)
    ensures forall q | 0 <= q < to[0] :: !Dependent(es[0], fs[q])
  {
    hide Dependent;
    forall q | 0 <= q < to[0]
      ensures !Dependent(es[0], fs[q])
    {
      var j := from[q];
      assert to[j] == q && fs[q] == es[j];
    }
  }

  lemma HeadThenRest(o: Objects, es: seq<Effect>)
    requires es != [] && AllAccepted(es)
    ensures PerformAll(o, es) == PerformAll(Perform(o, es[0]), es[1..])
    ensures CountAll(es) == CountAll(es[1..]) + CountOf(es[0])
  {
    hide Perform, CountOf;
    assert es == [es[0]] + es[1..] && [es[0]][..0] == [];
    PerformParts(o, [es[0]], es[1..]);
  }

  /** Rearranged effects that keep dependent pairs in order lead to the same objects and count. */
  lemma {:induction false} RearrangedEffects(o: Objects, es: seq<Effect>, fs: seq<Effect>, to: seq<nat>, from: seq<nat>)
    requires AllAccepted(es) && AllAccepted(fs)
    requires Rearranges(es, fs, to, from) && KeepsDependentOrder(es, to)
    ensures PerformAll(o, fs) == PerformAll(o, es)
    ensures CountAll(fs) == CountAll(es)
    decreases |es|
  {
    hide Perform, Dependent, CountOf, PerformAll, CountAll;
    if es == [] {
      assert fs == es;
    } else {
      var k, e := to[0], es[0];
      var pre, post := fs[..k], fs[k + 1..];
      assert fs == pre + [e] + post;
      BeforeFirstIsIndependent(es, fs, to, from);
      MoveToFront(o, pre, e);
      FrontThenRest(o, pre, e, post);
      var to', from' := RearrangeRest(es, fs, to, from);
      RestKeepsOrder(es, fs, to, from, to');
      RearrangedEffects(Perform(o, e), es[1..], pre + post, to', from');
      HeadThenRest(o, es);
    }
  }

  lemma FrontThenRest(o: Objects, pre: seq<Effect>, e: Effect, post: seq<Effect>)
    requires AllAccepted(pre) && AllAccepted(post) && Accepted(e)
    requires Perform(PerformAll(o, pre), e) == PerformAll(Perform(o, e), pre)
    ensures AllAccepted(pre + [e] + post) && AllAccepted(pre + post)
    ensures PerformAll(o, pre + [e] + post) == PerformAll(Perform(o, e), pre + post)
    ensures CountAll(pre + [e] + post) == CountAll(pre + post) + CountOf(e)
  {
    hide Perform, CountOf;
    assert (pre + [e])[..|pre|] == pre;
    PerformParts(o, pre + [e], post);
    PerformParts(Perform(o, e), pre, post);
  }

  // ---- Rearranging a feed ----

  /** A line without a clarification that the two versions read differently. */
  predicate NeutralLine(o: Options, line: RawLine) {
    match ParseLine(line, 0, o)
    case Ok(Parsed(e, data)) => NeutralData(e, data)
    case _ => true
  }

  /** What each line does is fixed beforehand: the version is explicit, or both versions read every line alike. */
  predicate FixedReading(o: Options, lines: seq<RawLine>) {
    o.version != Auto || forall i | 0 <= i < |lines| :: NeutralLine(o, lines[i])
  }

  lemma NeutralLineEffect(o: Options, c: Core, d: Core, line: RawLine)
    requires NeutralLine(o, line) && c.profile != Auto && d.profile != Auto
    ensures LineEffect(o, c, line) == LineEffect(o, d, line)
  {
    hide ParseLine, EffectOf, NeutralData, VersionHint;
    var p := ParseLine(line, 0, o);
    if p.Ok? && p.value.Parsed? {
      var e, data := p.value.event, p.value.data;
      VersionHints(e.objectType, data);
      NeutralEffect(Detect(o, c, e, data).profile, e, data);
      NeutralEffect(Detect(o, d, e, data).profile, e, data);
    }
  }

  /** Then the effect of a line depends on the line alone. */
  lemma {:induction false} EffectsOfFixedReading(o: Options, lines: seq<RawLine>)
    requires FixedReading(o, lines)
    ensures forall i | 0 <= i < |lines| :: Effects(o, lines)[i] == LineEffect(o, FreshCore(o), lines[i])
  {
    hide Consume, EventEffect, ParseLine, NeutralLine;
    if lines != [] {
      var prefix, last := lines[..|lines| - 1], lines[|lines| - 1];
      EffectsOfFixedReading(o, prefix);
      if o.version != Auto {
        ExplicitVersionIsFixed(o, Fresh(o), prefix);
      } else {
        RunHasAVersion(o, Fresh(o), prefix);
        NeutralLineEffect(o, Run(o, prefix).core, FreshCore(o), last);
      }
    }
  }

  /** Whether the order of two lines can matter. Lines that fail or are ignored depend on nothing. */
  predicate DependentLines(o: Options, a: RawLine, b: RawLine) {
    Dependent(LineEffect(o, FreshCore(o), a), LineEffect(o, FreshCore(o), b))
  }

  lemma FixedReadingOfOther(o: Options, lines: seq<RawLine>, other: seq<RawLine>, to: seq<nat>, from: seq<nat>)
    requires FixedReading(o, lines) && Rearranges(lines, other, to, from)
    ensures FixedReading(o, other)
  {
    hide NeutralLine;
    forall j | 0 <= j < |other|
      ensures o.version != Auto || NeutralLine(o, other[j])
    {
      assert other[j] == lines[from[j]];
    }
  }

  lemma EffectsRearrange(o: Options, lines: seq<RawLine>, other: seq<RawLine>, to: seq<nat>, from: seq<nat>)
    requires FixedReading(o, lines) && Rearranges(lines, other, to, from)
    requires forall i, j | 0 <= i < j < |lines| && DependentLines(o, lines[i], lines[j]) :: to[i] < to[j]
    ensures Rearranges(Effects(o, lines), Effects(o, other), to, from)
    ensures KeepsDependentOrder(Effects(o, lines), to)
  {
    hide LineEffect, Dependent, FreshCore;
    EffectsOfFixedReading(o, lines);
    FixedReadingOfOther(o, lines, other, to, from);
    EffectsOfFixedReading(o, other);
    var es := Effects(o, lines);
    forall i, j | 0 <= i < j < |es| && Dependent(es[i], es[j])
      ensures to[i] < to[j]
    {
      assert DependentLines(o, lines[i], lines[j]);
    }
  }

  /** If the version is explicit, or both versions read every line alike, two feeds of the same lines that keep every
      dependent pair in order give the same objects and the same event count. Lines are dependent if they act on the
      same type and on one key of it, if one of them replaces the whole type, or if the type is a singleton. */
  lemma FeedPermutation(o: Options, lines: seq<RawLine>, other: seq<RawLine>, to: seq<nat>, from: seq<nat>)
    requires FixedReading(o, lines) && Rearranges(lines, other, to, from)
    requires forall i, j | 0 <= i < j < |lines| && DependentLines(o, lines[i], lines[j]) :: to[i] < to[j]
    ensures Run(o, lines).core.store.objects == Run(o, other).core.store.objects
    ensures Run(o, lines).core.store.eventCount == Run(o, other).core.store.eventCount
  {
    hide Effects, PerformAll, CountAll, Run, DependentLines;
    EffectsRearrange(o, lines, other, to, from);
    FeedIsItsEffects(o, lines);
    FeedIsItsEffects(o, other);
    RearrangedEffects(NO_OBJECTS, Effects(o, lines), Effects(o, other), to, from);
  }

  // ---- Without a fixed reading ----

  /** A contest leaves the clarifications alone. */
  lemma ContestKeepsClarifications(o: Options, c: Core, e: RawEvent, data: Json)
    requires e.objectType == ContestType && e.shape == SingleObject
    ensures Clarifications(CoreStep(o, c, e, data)) == Clarifications(c)
  {
    hide VersionHint, Decode.DecodeTyped;
  }

  lemma ContestLineKeepsClarifications(o: Options, s: SessionState)
    requires TakesBothLines(o)
    ensures Clarifications(Consume(o, s, CONTEST_LINE).core) == Clarifications(s.core)
  {
    hide ParseLine, Consume, CoreStep, Clarifications, TakesBothLines;
    var n := s.cursor.lineNo + 1;
    ContestLineParses(o, n);
    LineOnCore(o, s, CONTEST_LINE);
    var p := ParseLine(CONTEST_LINE, n, o).value;
    ContestKeepsClarifications(o, s.core, p.event, p.data);
  }

  lemma ClarificationLineDecodes(o: Options, s: SessionState)
    requires TakesBothLines(o) && !s.finished
    ensures
      var c := Consume(o, s, CLARIFICATION_LINE).core;
      && "1" in Clarifications(c)
      && Clarifications(c)["1"] == Decode.ObjectOf(ClarificationsType, GROUP_CLARIFICATION, s.core.profile)
  {
    hide ParseLine, Consume, CoreStep, Clarifications, TakesBothLines;
    var n := s.cursor.lineNo + 1;
    ClarificationLineParses(o, n);
    LineOnCore(o, s, CLARIFICATION_LINE);
    ClarificationStep(o, s.core, ParseLine(CLARIFICATION_LINE, n, o).value.event);
  }

  /** Under automatic version choice the order of two lines that act on different types can matter: the second
      decodes with the version that the first gave away. */
  lemma AutomaticChoiceOrdersLines(o: Options)
    requires o.version == Auto && TakesBothLines(o)
    ensures Run(o, [CLARIFICATION_LINE, CONTEST_LINE]).core.store.objects
            != Run(o, [CONTEST_LINE, CLARIFICATION_LINE]).core.store.objects
  {
    hide Consume, Decode.ObjectOf, TakesBothLines;
    var a, b := [CLARIFICATION_LINE, CONTEST_LINE], [CONTEST_LINE, CLARIFICATION_LINE];
    assert a[..1] == [CLARIFICATION_LINE] && b[..1] == [CONTEST_LINE];
    AfterFirstLine(o);
    ContestLineKeepsClarifications(o, Run(o, [CLARIFICATION_LINE]));
    AfterSecondLine(o, Fresh(o));
    CounterIsTrailingRun(o, [CONTEST_LINE]);
    ClarificationLineDecodes(o, Run(o, [CONTEST_LINE]));
    assert Run(o, a) == Consume(o, Run(o, [CLARIFICATION_LINE]), CONTEST_LINE);
    assert Run(o, b) == Consume(o, Run(o, [CONTEST_LINE]), CLARIFICATION_LINE);
    Decode.VersionMatters(ClarificationsType, GROUP_CLARIFICATION);
  }
}
