/**
 What the sink's machine accepts, and what it keeps on the way: depth, directory and pending times.
 */
module ScpSinkMachine {
  import opened Options
  import opened ScpUtf8
  import opened ScpMessages
  import opened ScpPaths
  import opened ScpSink

  /** The machine after the messages ms; None if it refused one of them. */
  function Drive(start: ParserState, ms: seq<Message>): Option<Move>
    decreases |ms|
  {
    if ms == [] then Some(Move(start, 0))
    else
      match Drive(start, ms[..|ms| - 1])
      case None => None
      case Some(move) => StateStep(move.state, move.depth, ms[|ms| - 1])
  }

  /** The number of directories entered, less the number left. */
  function Depth(ms: seq<Message>): int
    decreases |ms|
  {
    if ms == [] then 0
    else
      Depth(ms[..|ms| - 1]) +
      match ms[|ms| - 1]
      case DMsg(_, _, _) => 1
      case EMsg => -1
      case _ => 0
  }

  /** No prefix leaves more directories than it entered. */
  predicate Nested(ms: seq<Message>) {
    forall i :: 0 <= i <= |ms| ==> Depth(ms[..i]) >= 0
  }

  lemma NestedInit(ms: seq<Message>)
    requires ms != []
    ensures Nested(ms) <==> Nested(ms[..|ms| - 1]) && Depth(ms) >= 0
  {
    var init := ms[..|ms| - 1];
    assert forall i :: 0 <= i < |ms| ==> ms[..i] == init[..i];
    assert ms[..|ms|] == ms;
    if Nested(ms) {
      assert Depth(ms[..|ms|]) >= 0;
      forall i | 0 <= i <= |init| ensures Depth(init[..i]) >= 0 {
        assert Depth(ms[..i]) >= 0;
      }
    }
  }

  lemma DriveOn(start: ParserState, ms: seq<Message>, m: Message)
    ensures Drive(start, ms + [m]) ==
            if Drive(start, ms).None? then None
            else StateStep(Drive(start, ms).value.state, Drive(start, ms).value.depth, m)
    ensures Depth(ms + [m]) == Depth(ms) + if m.DMsg? then 1 else if m.EMsg? then -1 else 0
  {
    assert (ms + [m])[..|ms|] == ms;
  }

  /** Without times, a recursive sink accepts exactly the nested sequences without T messages. */
  lemma {:induction false} AcceptedWithoutTimes(ms: seq<Message>)
    ensures var r := Drive(RecurseNoTimesCD, ms);
            && (r.Some? <==> Nested(ms) && forall m :: m in ms ==> !m.TMsg?)
            && (r.Some? ==> r.value.depth == Depth(ms) &&
                            r.value.state == if Depth(ms) > 0 then RecurseNoTimesCDE else RecurseNoTimesCD)
    decreases |ms|
  {
    if ms != [] {
      var init, last := ms[..|ms| - 1], ms[|ms| - 1];
      AcceptedWithoutTimes(init);
      NestedInit(ms);
      assert ms == init + [last];
      if Drive(RecurseNoTimesCD, init).Some? && last.EMsg? {
        assert Depth(init) >= 0 by { assert init[..|init|] == init; }
      }
    }
  }

  /** Every T message is the last, or a C or D message follows it. */
  predicate TimesAnnounce(ms: seq<Message>) {
    forall i :: 0 <= i < |ms| - 1 && ms[i].TMsg? ==> ms[i + 1].CMsg? || ms[i + 1].DMsg?
  }

  /** No T message announces a C message outside of all directories. */
  predicate NoTimesAtTop(ms: seq<Message>) {
    forall i :: 0 <= i < |ms| - 1 && ms[i].TMsg? && ms[i + 1].CMsg? ==> Depth(ms[..i]) != 0
  }

  function StateWithTimes(ms: seq<Message>): ParserState {
    if ms != [] && ms[|ms| - 1].TMsg? then RecurseTimesCD
    else if Depth(ms) > 0 then RecurseTimesCDET
    else RecurseTimesCDT
  }

  lemma TimesInit(ms: seq<Message>)
    requires ms != []
    ensures var init, last := ms[..|ms| - 1], ms[|ms| - 1];
            TimesAnnounce(ms) <==>
            TimesAnnounce(init) && (init != [] && init[|init| - 1].TMsg? ==> last.CMsg? || last.DMsg?)
  {
    var init := ms[..|ms| - 1];
    assert forall i :: 0 <= i < |init| ==> ms[i] == init[i];
    if TimesAnnounce(init) && (init != [] && init[|init| - 1].TMsg? ==> ms[|ms| - 1].CMsg? || ms[|ms| - 1].DMsg?) {
      forall i | 0 <= i < |ms| - 1 && ms[i].TMsg? ensures ms[i + 1].CMsg? || ms[i + 1].DMsg? {
        if i < |init| - 1 {
          assert init[i + 1].CMsg? || init[i + 1].DMsg?;
        }
      }
    }
  }

  lemma TopInit(ms: seq<Message>)
    requires ms != [] && NoTimesAtTop(ms)
    ensures var init, last := ms[..|ms| - 1], ms[|ms| - 1];
            && NoTimesAtTop(init)
            && (init != [] && init[|init| - 1].TMsg? && last.CMsg? ==> Depth(init) != 0)
  {
    var init := ms[..|ms| - 1];
    NoTimesAtTopPrefix(ms, |ms| - 1);
    assert init != [] ==> init[..|init| - 1] == ms[..|ms| - 2];
  }

  lemma NoTimesAtTopPrefix(ms: seq<Message>, n: nat)
    requires NoTimesAtTop(ms) && n <= |ms|
    ensures NoTimesAtTop(ms[..n])
  {
    forall i | 0 <= i < n - 1 && ms[..n][i].TMsg? && ms[..n][i + 1].CMsg? ensures Depth(ms[..n][..i]) != 0 {
      assert ms[..n][..i] == ms[..i] && ms[i + 1] == ms[..n][i + 1];
    }
  }

  // ---- the language of the machine with times

  /** The n-th message leaves the last open directory. */
  predicate ComesHome(ms: seq<Message>, n: nat)
    requires n <= |ms|
  {
    n > 0 && ms[n - 1].EMsg? && Depth(ms[..n]) == 0
  }

  /** At j a T message announces a file outside of all directories. */
  predicate StraysAt(ms: seq<Message>, j: nat) {
    j + 1 < |ms| && ms[j].TMsg? && ms[j + 1].CMsg? && Depth(ms[..j]) == 0
  }

  /** A T message has announced a file outside of all directories, and none has been left for there since. */
  ghost predicate Adrift(ms: seq<Message>) {
    exists j: nat :: StraysAt(ms, j) && forall n :: j < n <= |ms| ==> !ComesHome(ms, n)
  }

  /** Every E message is preceded by open directories, or by a T message that put the machine adrift. */
  ghost predicate EndsAllowed(ms: seq<Message>) {
    forall k :: 0 <= k < |ms| && ms[k].EMsg? ==> Depth(ms[..k]) != 0 || Adrift(ms[..k])
  }

  ghost function MoveWithTimes(ms: seq<Message>): Move {
    Move(if ms != [] && ms[|ms| - 1].TMsg? then RecurseTimesCD
         else if Depth(ms) == 0 && !Adrift(ms) then RecurseTimesCDT
         else RecurseTimesCDET,
         Depth(ms))
  }

  /** What one more message leaves as it was. */
  lemma SamePrefix(init: seq<Message>, last: Message)
    ensures forall n :: 0 <= n <= |init| ==> (ComesHome(init + [last], n) <==> ComesHome(init, n))
    ensures forall j: nat :: j + 1 < |init| ==> (StraysAt(init + [last], j) <==> StraysAt(init, j))
  {
    hide Depth;
    assert forall n :: 0 <= n <= |init| ==> (init + [last])[..n] == init[..n];
  }

  lemma AdriftKept(init: seq<Message>, last: Message)
    requires Adrift(init) && !(last.EMsg? && Depth(init + [last]) == 0)
    ensures Adrift(init + [last])
  {
    hide Depth;
    var ms := init + [last];
    SamePrefix(init, last);
    assert ms[..|ms|] == ms;
    var j: nat :| StraysAt(init, j) && forall n :: j < n <= |init| ==> !ComesHome(init, n);
    assert StraysAt(ms, j);
    forall n | j < n <= |ms| ensures !ComesHome(ms, n) {
      assert n <= |init| ==> !ComesHome(init, n);
    }
  }

  lemma AdriftBegun(init: seq<Message>, last: Message)
    requires last.CMsg? && init != [] && init[|init| - 1].TMsg? && Depth(init) == 0
    ensures Adrift(init + [last])
  {
    var ms := init + [last];
    var j: nat := |init| - 1;
    assert init[..j] == ms[..j];
    assert StraysAt(ms, j);
    forall n | j < n <= |ms| ensures !ComesHome(ms, n) {
      assert n - 1 == j || n - 1 == j + 1;
    }
  }

  lemma AdriftSince(init: seq<Message>, last: Message)
    requires Adrift(init + [last])
    ensures !(last.EMsg? && Depth(init + [last]) == 0)
    ensures Adrift(init) || (last.CMsg? && init != [] && init[|init| - 1].TMsg? && Depth(init) == 0)
  {
    hide Depth;
    var ms := init + [last];
    SamePrefix(init, last);
    assert ms[..|ms|] == ms;
    var j: nat :| StraysAt(ms, j) && forall n :: j < n <= |ms| ==> !ComesHome(ms, n);
    assert !ComesHome(ms, |ms|);
    if j + 1 < |init| {
      assert StraysAt(init, j);
      forall n | j < n <= |init| ensures !ComesHome(init, n) {
        assert !ComesHome(ms, n);
      }
    } else {
      var before := init[..j];
      assert before == ms[..j] && init == before + [init[j]];
      DriveOn(RecurseTimesCDT, before, init[j]);
    }
  }

  lemma AdriftOn(init: seq<Message>, last: Message)
    ensures var ms := init + [last];
            Adrift(ms) <==>
            && !(last.EMsg? && Depth(ms) == 0)
            && (Adrift(init) || (last.CMsg? && init != [] && init[|init| - 1].TMsg? && Depth(init) == 0))
  {
    hide Adrift, Depth;
    if Adrift(init + [last]) {
      AdriftSince(init, last);
    } else if !(last.EMsg? && Depth(init + [last]) == 0) {
      if Adrift(init) {
        AdriftKept(init, last);
      } else if last.CMsg? && init != [] && init[|init| - 1].TMsg? && Depth(init) == 0 {
        AdriftBegun(init, last);
      }
    }
  }

  lemma EndsAllowedOn(init: seq<Message>, last: Message)
    ensures EndsAllowed(init + [last]) <==> EndsAllowed(init) && (last.EMsg? ==> Depth(init) != 0 || Adrift(init))
  {
    var ms := init + [last];
    assert forall k :: 0 <= k <= |init| ==> ms[..k] == init[..k];
    assert ms[..|init|] == init;
    if EndsAllowed(ms) {
      assert last.EMsg? ==> ms[|init|].EMsg?;
      forall k | 0 <= k < |init| && init[k].EMsg? ensures Depth(init[..k]) != 0 || Adrift(init[..k]) {
        assert ms[k].EMsg?;
      }
    }
  }

  /**
   With times, a recursive sink accepts exactly the sequences in which every T message announces something and
   every E message leaves a directory or comes while the machine is adrift; depth and state are what they say.
   */
  lemma {:induction false} AcceptedWithTimes(ms: seq<Message>)
    ensures var r := Drive(RecurseTimesCDT, ms);
            && (r.Some? <==> TimesAnnounce(ms) && EndsAllowed(ms))
            && (r.Some? ==> r.value == MoveWithTimes(ms) && (Depth(ms) < 0 ==> Adrift(ms)))
    decreases |ms|
  {
    if ms != [] {
      var init, last := ms[..|ms| - 1], ms[|ms| - 1];
      assert ms == init + [last];
      AcceptedWithTimes(init);
      TimesInit(ms);
      AdriftOn(init, last);
      EndsAllowedOn(init, last);
      DriveOn(RecurseTimesCDT, init, last);
    }
  }

  /** No message needs a sink that is asked for more. */
  predicate AsAsked(recursive: bool, times: bool, ms: seq<Message>) {
    forall m :: m in ms ==> (m.TMsg? ==> times) && (m.DMsg? || m.EMsg? ==> recursive)
  }

  lemma AsAskedInit(recursive: bool, times: bool, init: seq<Message>, last: Message)
    ensures AsAsked(recursive, times, init + [last]) <==>
            AsAsked(recursive, times, init) && (last.TMsg? ==> times) && (last.DMsg? || last.EMsg? ==> recursive)
  {
    assert last in init + [last];
    assert forall m :: m in init ==> m in init + [last];
  }

  /** A sink that is not recursive accepts no D and no E message, and T messages only with times and before a C. */
  lemma {:induction false} AcceptedFlat(times: bool, ms: seq<Message>)
    ensures var r := Drive(ParserStart(false, times), ms);
            && (r.Some? <==> AsAsked(false, times, ms) && TimesAnnounce(ms))
            && (r.Some? ==> r.value.depth == 0 &&
                            (r.value.state == NoRecurseTimesC <==> ms != [] && ms[|ms| - 1].TMsg?) &&
                            (r.value.state == NoRecurseTimesC || r.value.state == ParserStart(false, times)))
    decreases |ms|
  {
    if ms != [] {
      var init, last := ms[..|ms| - 1], ms[|ms| - 1];
      assert ms == init + [last];
      AcceptedFlat(times, init);
      TimesInit(ms);
      AsAskedInit(false, times, init, last);
      DriveOn(ParserStart(false, times), init, last);
    }
  }

  lemma {:induction false} FlatIsNested(ms: seq<Message>)
    requires forall m :: m in ms ==> !m.DMsg? && !m.EMsg?
    ensures Depth(ms) == 0 && Nested(ms)
    decreases |ms|
  {
    if ms != [] {
      FlatIsNested(ms[..|ms| - 1]);
      NestedInit(ms);
    }
  }

  /**
   What a sink accepts: only messages that it is asked for, each T message right before what it announces, and E
   messages only as the directories before allow them.
   */
  lemma AcceptedExactlyIf(recursive: bool, times: bool, ms: seq<Message>)
    ensures Drive(ParserStart(recursive, times), ms).Some? <==>
            AsAsked(recursive, times, ms) && TimesAnnounce(ms) && if times then EndsAllowed(ms) else Nested(ms)
  {
    hide Drive, StateStep, EndsAllowed, Depth, Nested;
    if !recursive {
      AcceptedFlat(times, ms);
      if AsAsked(recursive, times, ms) {
        FlatIsNested(ms);
        NestedEndsAllowed(ms);
      }
    } else if times {
      AcceptedWithTimes(ms);
    } else {
      AcceptedWithoutTimes(ms);
    }
  }

  lemma NestedEndsAllowed(ms: seq<Message>)
    requires Nested(ms)
    ensures EndsAllowed(ms)
  {
    forall k | 0 <= k < |ms| && ms[k].EMsg? ensures Depth(ms[..k]) != 0 {
      assert ms[..k + 1][..k] == ms[..k] && Depth(ms[..k + 1]) >= 0;
    }
  }

  /** A nested sequence is accepted with times exactly if every T message announces something. */
  lemma AcceptedIfNested(ms: seq<Message>)
    requires Nested(ms)
    ensures Drive(RecurseTimesCDT, ms).Some? <==> TimesAnnounce(ms)
  {
    NestedEndsAllowed(ms);
    AcceptedWithTimes(ms);
  }

  /** From j on, no directory is entered or left. */
  predicate QuietFrom(ms: seq<Message>, j: nat) {
    forall i :: j <= i < |ms| ==> ms[i].CMsg? || ms[i].TMsg?
  }

  /** A T message has announced a file, and no directory has been entered or left since. */
  ghost predicate StrayFile(ms: seq<Message>) {
    exists j: nat :: j + 1 < |ms| && ms[j].TMsg? && ms[j + 1].CMsg? && QuietFrom(ms, j)
  }

  /** Outside of all directories, a nested sequence is adrift just if its last messages say so. */
  lemma {:induction false} AdriftIfNested(ms: seq<Message>)
    requires Nested(ms) && Depth(ms) == 0
    ensures Adrift(ms) <==> StrayFile(ms)
    decreases |ms|
  {
    if ms != [] {
      var init, last := ms[..|ms| - 1], ms[|ms| - 1];
      assert ms == init + [last];
      AdriftOn(init, last);
      NestedInit(ms);
      assert Depth(init) >= 0 by { assert init[..|init|] == init; }
      if last.EMsg? {
        assert forall j: nat :: j + 1 < |ms| ==> !QuietFrom(ms, j);
      } else {
        AdriftIfNested(init);
        StrayFileOn(init, last);
      }
    }
  }

  lemma StrayFileOn(init: seq<Message>, last: Message)
    requires last.CMsg? || last.TMsg?
    ensures StrayFile(init + [last]) <==> StrayFile(init) || (last.CMsg? && init != [] && init[|init| - 1].TMsg?)
  {
    var ms := init + [last];
    if j: nat :| j + 1 < |ms| && ms[j].TMsg? && ms[j + 1].CMsg? && QuietFrom(ms, j) {
      assert forall i :: j <= i < |init| ==> ms[i] == init[i];
      assert j + 1 < |init| ==> init[j + 1] == ms[j + 1] && QuietFrom(init, j);
    }
    if j: nat :| j + 1 < |init| && init[j].TMsg? && init[j + 1].CMsg? && QuietFrom(init, j) {
      assert ms[j] == init[j] && ms[j + 1] == init[j + 1] && QuietFrom(ms, j);
    }
    if last.CMsg? && init != [] && init[|init| - 1].TMsg? {
      var j: nat := |init| - 1;
      assert ms[j].TMsg? && ms[j + 1].CMsg? && QuietFrom(ms, j);
    }
  }

  /**
   Outside of all directories the machine accepts an E message exactly if a T message has announced a file, no
   directory has been entered or left since, and the last message is no T message.
   */
  lemma LeavesExactlyIf(ms: seq<Message>)
    requires Nested(ms) && Depth(ms) == 0 && Drive(RecurseTimesCDT, ms).Some?
    ensures Drive(RecurseTimesCDT, ms + [EMsg]).Some? <==> !(ms != [] && ms[|ms| - 1].TMsg?) && StrayFile(ms)
  {
    hide Drive, Depth, Adrift, StrayFile, Nested;
    AcceptedWithTimes(ms);
    AdriftIfNested(ms);
    DriveOn(RecurseTimesCDT, ms, EMsg);
  }

  /** A T message announces a file outside of all directories, and the next message that is no C or T is an E. */
  ghost predicate Escapes(ms: seq<Message>) {
    exists k: nat :: k < |ms| && ms[k].EMsg? && Depth(ms[..k]) == 0 && Nested(ms[..k]) && StrayFile(ms[..k])
  }

  /** An accepted sequence leaves more directories than it entered exactly if it does so right after a stray file. */
  lemma {:induction false} NestedExactlyIf(ms: seq<Message>)
    requires Drive(RecurseTimesCDT, ms).Some?
    ensures Nested(ms) <==> !Escapes(ms)
    decreases |ms|
  {
    hide Drive, StrayFile;
    if Nested(ms) {
      forall k: nat | k < |ms| && ms[k].EMsg? ensures Depth(ms[..k]) != 0 {
        assert ms[..k + 1][..k] == ms[..k] && Depth(ms[..k + 1]) >= 0;
      }
    } else {
      EscapesSomewhere(ms);
    }
  }

  lemma {:induction false} EscapesSomewhere(ms: seq<Message>)
    requires Drive(RecurseTimesCDT, ms).Some? && !Nested(ms)
    ensures Escapes(ms)
    decreases |ms|
  {
    hide Drive, StrayFile;
    var init, last := ms[..|ms| - 1], ms[|ms| - 1];
    assert ms == init + [last];
    NestedInit(ms);
    DriveOn(RecurseTimesCDT, init, last);
    if Nested(init) {
      assert Depth(init) >= 0 by { assert init[..|init|] == init; }
      LeavesExactlyIf(init);
    } else {
      EscapesSomewhere(init);
      var k: nat :| k < |init| && init[k].EMsg? && Depth(init[..k]) == 0 && Nested(init[..k]) && StrayFile(init[..k]);
      assert ms[k] == init[k] && ms[..k] == init[..k];
    }
  }

  /**
   With times, and unless a T message announces a file outside of all directories, a recursive sink accepts
   exactly the nested sequences in which every T message announces something.
   */
  lemma {:induction false} AcceptedInStep(ms: seq<Message>)
    requires NoTimesAtTop(ms)
    ensures var r := Drive(RecurseTimesCDT, ms);
            && (r.Some? <==> Nested(ms) && TimesAnnounce(ms))
            && (r.Some? ==> r.value == Move(StateWithTimes(ms), Depth(ms)))
    decreases |ms|
  {
    if ms != [] {
      var init, last := ms[..|ms| - 1], ms[|ms| - 1];
      TopInit(ms);
      AcceptedInStep(init);
      NestedInit(ms);
      TimesInit(ms);
      assert Nested(init) ==> Depth(init) >= 0 by { assert init[..|init|] == init; }
    }
  }

  /** Whatever is accepted, all its prefixes are. */
  lemma {:induction false} PrefixAccepted(start: ParserState, ms: seq<Message>, n: nat)
    requires n <= |ms| && Drive(start, ms).Some?
    ensures Drive(start, ms[..n]).Some?
    decreases |ms|
  {
    if n == |ms| {
      assert ms[..n] == ms;
    } else {
      PrefixAccepted(start, ms[..|ms| - 1], n);
      assert ms[..|ms| - 1][..n] == ms[..n];
    }
  }

  /** After ms the machine with times is where the messages say. */
  predicate InStep(ms: seq<Message>) {
    Drive(RecurseTimesCDT, ms) == Some(Move(StateWithTimes(ms), Depth(ms)))
  }

  /** A T message for a file outside of all directories puts the machine out of step. */
  lemma OutOfStep(ms: seq<Message>, t: Message, c: Message)
    requires t.TMsg? && c.CMsg? && Depth(ms) == 0 && InStep(ms + [t])
    ensures !InStep(ms + [t] + [c])
  {
    hide Drive, Depth;
    DriveOn(RecurseTimesCDT, ms, t);
    DriveOn(RecurseTimesCDT, ms + [t], c);
    assert StateWithTimes(ms + [t]) == RecurseTimesCD;
    assert StateWithTimes(ms + [t] + [c]) == RecurseTimesCDT;
  }

  /**
   With times, the machine is always in step with an accepted sequence exactly if no T message announces a
   file outside of all directories.
   */
  lemma InStepExactlyIf(ms: seq<Message>)
    requires Drive(RecurseTimesCDT, ms).Some?
    ensures (forall i :: 0 <= i <= |ms| ==> InStep(ms[..i])) <==> NoTimesAtTop(ms)
  {
    hide InStep, NoTimesAtTop;
    if NoTimesAtTop(ms) {
      forall i | 0 <= i <= |ms| ensures InStep(ms[..i]) {
        AlwaysInStep(ms, i);
      }
    }
    if forall i :: 0 <= i <= |ms| ==> InStep(ms[..i]) {
      InStepHasNoStray(ms);
    }
  }

  lemma AlwaysInStep(ms: seq<Message>, i: nat)
    requires Drive(RecurseTimesCDT, ms).Some? && NoTimesAtTop(ms) && i <= |ms|
    ensures InStep(ms[..i])
  {
    hide Drive, Depth, Nested, TimesAnnounce, StateWithTimes, NoTimesAtTop;
    NoTimesAtTopPrefix(ms, i);
    PrefixAccepted(RecurseTimesCDT, ms, i);
    AcceptedInStep(ms[..i]);
  }

  lemma InStepHasNoStray(ms: seq<Message>)
    requires forall i :: 0 <= i <= |ms| ==> InStep(ms[..i])
    ensures NoTimesAtTop(ms)
  {
    hide InStep, Depth;
    forall i | 0 <= i < |ms| - 1 && ms[i].TMsg? && ms[i + 1].CMsg? ensures Depth(ms[..i]) != 0 {
      assert ms[..i + 1] == ms[..i] + [ms[i]] && ms[..i + 2] == ms[..i] + [ms[i]] + [ms[i + 1]];
      if Depth(ms[..i]) == 0 {
        assert InStep(ms[..i + 1]) && InStep(ms[..i + 2]);
        OutOfStep(ms[..i], ms[i], ms[i + 1]);
      }
    }
  }

  // ---- runs

  datatype Config = Config(state: ParserState, depth: int, s: SinkState)

  /** One message handled without an error; what else is read of the input does not matter here. */
  ghost predicate Handled(a: Config, m: Message, input: bytes, b: Config) {
    && StateStep(a.state, a.depth, m) == Some(Move(b.state, b.depth))
    && Process(a.s.(input := input), m) == Done(b.s, None)
  }

  /** A run of the sink over the messages ms. */
  ghost predicate IsRun(cs: seq<Config>, ms: seq<Message>, inputs: seq<bytes>) {
    && |cs| == |ms| + 1 == |inputs| + 1
    && forall i :: 0 <= i < |ms| ==> Handled(cs[i], ms[i], inputs[i], cs[i + 1])
  }

  predicate AfterT(state: ParserState) {
    state.NoRecurseTimesC? || state.RecurseTimesCD?
  }

  /**
   Times are pending in the two states after a T message and in no other, so they apply to the next C or D message
   only.
   */
  lemma {:induction false} PendingTimes(cs: seq<Config>, ms: seq<Message>, inputs: seq<bytes>, i: nat)
    requires IsRun(cs, ms, inputs) && i <= |ms|
    requires cs[0].s.timeSet == false && !AfterT(cs[0].state)
    ensures cs[i].s.timeSet <==> AfterT(cs[i].state)
    ensures AfterT(cs[i].state) <==> i > 0 && ms[i - 1].TMsg?
    decreases i
  {
    if i > 0 {
      PendingTimes(cs, ms, inputs, i - 1);
      assert Handled(cs[i - 1], ms[i - 1], inputs[i - 1], cs[i]);
      StepSetsTimes(cs[i - 1], ms[i - 1], inputs[i - 1], cs[i]);
    }
  }

  lemma StepSetsTimes(a: Config, m: Message, input: bytes, b: Config)
    requires Handled(a, m, input, b)
    ensures AfterT(b.state) <==> m.TMsg?
    ensures b.s.timeSet <==> m.TMsg? || (m.EMsg? && a.s.timeSet)
    ensures m.EMsg? ==> !AfterT(a.state)
  {
  }

  /** The names of the directories entered and not yet left. */
  function Open(ms: seq<Message>): Path
    decreases |ms|
  {
    if ms == [] then []
    else
      match ms[|ms| - 1]
      case DMsg(_, _, name) => Open(ms[..|ms| - 1]) + [name]
      case EMsg => Parent(Open(ms[..|ms| - 1]))
      case _ => Open(ms[..|ms| - 1])
  }

  lemma {:induction false} OpenCount(ms: seq<Message>)
    requires Nested(ms)
    ensures |Open(ms)| == Depth(ms)
    decreases |ms|
  {
    if ms != [] {
      NestedInit(ms);
      OpenCount(ms[..|ms| - 1]);
    }
  }

  lemma StepMovesDir(a: Config, m: Message, input: bytes, b: Config)
    requires Handled(a, m, input, b)
    requires m.DMsg? ==> Plain(m.name)
    ensures b.s.dir == match m
                       case DMsg(_, _, name) => a.s.dir + [name]
                       case EMsg => Parent(a.s.dir)
                       case _ => a.s.dir
  {
    if m.DMsg? {
      JoinPlain(a.s.dir, m.name);
    }
  }

  /** In a nested run the sink's directory is its first one, with the open directories' names joined. */
  lemma {:induction false} DirIsBaseAndOpen(cs: seq<Config>, ms: seq<Message>, inputs: seq<bytes>, i: nat)
    requires IsRun(cs, ms, inputs) && i <= |ms| && Nested(ms)
    requires forall m :: m in ms && m.DMsg? ==> Plain(m.name)
    ensures cs[i].s.dir == cs[0].s.dir + Open(ms[..i])
    decreases i
  {
    if i > 0 {
      DirIsBaseAndOpen(cs, ms, inputs, i - 1);
      assert Handled(cs[i - 1], ms[i - 1], inputs[i - 1], cs[i]);
      StepMovesDir(cs[i - 1], ms[i - 1], inputs[i - 1], cs[i]);
      assert ms[..i][..i - 1] == ms[..i - 1];
      if ms[i - 1].EMsg? {
        NestedPrefix(ms, i - 1);
        OpenCount(ms[..i - 1]);
        assert Depth(ms[..i]) >= 0;
        ParentOfJoined(cs[0].s.dir, Open(ms[..i - 1]));
      }
    }
  }

  lemma ParentOfJoined(p: Path, q: Path)
    requires q != []
    ensures Parent(p + q) == p + Parent(q)
  {
    assert (p + q)[..|p + q| - 1] == p + q[..|q| - 1];
  }

  lemma NestedPrefix(ms: seq<Message>, i: nat)
    requires Nested(ms) && i <= |ms|
    ensures Nested(ms[..i])
  {
    assert forall j :: 0 <= j <= i ==> ms[..i][..j] == ms[..j];
  }

  /** Runs follow the machine. */
  lemma {:induction false} RunsAreDriven(cs: seq<Config>, ms: seq<Message>, inputs: seq<bytes>, i: nat)
    requires IsRun(cs, ms, inputs) && i <= |ms| && cs[0].depth == 0
    ensures Drive(cs[0].state, ms[..i]) == Some(Move(cs[i].state, cs[i].depth))
    decreases i
  {
    if i > 0 {
      RunsAreDriven(cs, ms, inputs, i - 1);
      assert Handled(cs[i - 1], ms[i - 1], inputs[i - 1], cs[i]);
      assert ms[..i][..i - 1] == ms[..i - 1];
    }
  }

  /** In every run of a recursive sink the depth is what the messages say. */
  lemma RunDepth(cs: seq<Config>, ms: seq<Message>, inputs: seq<bytes>, i: nat, times: bool)
    requires IsRun(cs, ms, inputs) && i <= |ms| && cs[0].depth == 0 && cs[0].state == ParserStart(true, times)
    ensures cs[i].depth == Depth(ms[..i])
  {
    hide Drive, Depth, IsRun, Nested, TimesAnnounce, EndsAllowed;
    RunsAreDriven(cs, ms, inputs, i);
    if times {
      AcceptedWithTimes(ms[..i]);
    } else {
      AcceptedWithoutTimes(ms[..i]);
    }
  }

  /** A nested run stays at or below its first directory, at the place its messages say. */
  lemma RunStaysBelow(cs: seq<Config>, ms: seq<Message>, inputs: seq<bytes>, i: nat, times: bool)
    requires IsRun(cs, ms, inputs) && i <= |ms| && cs[0].depth == 0 && cs[0].state == ParserStart(true, times)
    requires Nested(ms) && forall m :: m in ms && m.DMsg? ==> Plain(m.name)
    ensures cs[i].depth == |Open(ms[..i])|
    ensures cs[i].s.dir == cs[0].s.dir + Open(ms[..i])
  {
    hide Depth, Open, IsRun, Nested;
    RunDepth(cs, ms, inputs, i, times);
    DirIsBaseAndOpen(cs, ms, inputs, i);
    NestedPrefix(ms, i);
    OpenCount(ms[..i]);
  }

  /**
   A run of a recursive sink that is not at the root leaves its first directory exactly if, with times, an E
   message follows a T message that announced a file outside of all directories, and only C and T messages after it.
   */
  lemma RunStaysBelowExactlyIf(cs: seq<Config>, ms: seq<Message>, inputs: seq<bytes>, times: bool)
    requires IsRun(cs, ms, inputs) && cs[0].depth == 0 && cs[0].state == ParserStart(true, times)
    requires cs[0].s.dir != [] && forall m :: m in ms && m.DMsg? ==> Plain(m.name)
    ensures (forall i :: 0 <= i <= |ms| ==> cs[0].s.dir <= cs[i].s.dir) <==> !(times && Escapes(ms))
  {
    hide Drive, Depth, Open, Nested, StrayFile;
    RunsAreDriven(cs, ms, inputs, |ms|);
    assert ms[..|ms|] == ms;
    if times && Escapes(ms) {
      var k: nat :| k < |ms| && ms[k].EMsg? && Depth(ms[..k]) == 0 && Nested(ms[..k]) && StrayFile(ms[..k]);
      PrefixRun(cs, ms, inputs, k);
      RunStaysBelow(cs[..k + 1], ms[..k], inputs[..k], k, times);
      assert ms[..k][..k] == ms[..k];
      OpenCount(ms[..k]);
      assert Handled(cs[k], ms[k], inputs[k], cs[k + 1]);
      StepMovesDir(cs[k], ms[k], inputs[k], cs[k + 1]);
      assert !(cs[0].s.dir <= cs[k + 1].s.dir);
    } else {
      if times {
        NestedExactlyIf(ms);
      } else {
        AcceptedWithoutTimes(ms);
      }
      forall i | 0 <= i <= |ms| ensures cs[0].s.dir <= cs[i].s.dir {
        RunStaysBelow(cs, ms, inputs, i, times);
      }
    }
  }

  lemma PrefixRun(cs: seq<Config>, ms: seq<Message>, inputs: seq<bytes>, k: nat)
    requires IsRun(cs, ms, inputs) && k <= |ms|
    ensures IsRun(cs[..k + 1], ms[..k], inputs[..k])
  {
    forall i | 0 <= i < k ensures Handled(cs[..k + 1][i], ms[..k][i], inputs[..k][i], cs[..k + 1][i + 1]) {
      assert Handled(cs[i], ms[i], inputs[i], cs[i + 1]);
    }
  }

  /** The shortest way to leave: with times, T, C, E is accepted, and the E message leaves the first directory. */
  lemma LeavesBase(mTime: int, aTime: int, c: Message)
    requires c.CMsg? && -0x8000_0000_0000_0000 <= mTime < 0x8000_0000_0000_0000
    requires -0x8000_0000_0000_0000 <= aTime < 0x8000_0000_0000_0000
    ensures var ms := [TMsg(mTime, aTime), c, EMsg];
            && Drive(RecurseTimesCDT, ms) == Some(Move(RecurseTimesCDET, -1))
            && !Nested(ms) && !NoTimesAtTop(ms)
  {
    var ms := [TMsg(mTime, aTime), c, EMsg];
    assert ms[..2] == [ms[0], c] && ms[..2][..1] == [ms[0]] && ms[..1][..0] == [];
    assert ms[..1] == [ms[0]];
    assert Drive(RecurseTimesCDT, ms[..1]) == Some(Move(RecurseTimesCD, 0));
    assert Drive(RecurseTimesCDT, ms[..2]) == Some(Move(RecurseTimesCDET, 0));
    assert Depth(ms[..0]) == 0 && Depth(ms[..1]) == 0 && Depth(ms[..2]) == 0;
    assert Depth(ms[..3]) == -1 by { assert ms[..3] == ms; }
    assert ms[0].TMsg? && ms[1].CMsg?;
  }

  /** A run over these three messages ends in the parent of its first directory. */
  lemma RunLeavesBase(cs: seq<Config>, ms: seq<Message>, inputs: seq<bytes>)
    requires IsRun(cs, ms, inputs) && |ms| == 3 && ms[0].TMsg? && ms[1].CMsg? && ms[2].EMsg?
    ensures cs[3].s.dir == Parent(cs[0].s.dir)
  {
    assert Handled(cs[0], ms[0], inputs[0], cs[1]) && Handled(cs[1], ms[1], inputs[1], cs[2]);
    assert Handled(cs[2], ms[2], inputs[2], cs[3]);
    StepMovesDir(cs[0], ms[0], inputs[0], cs[1]);
    StepMovesDir(cs[1], ms[1], inputs[1], cs[2]);
    StepMovesDir(cs[2], ms[2], inputs[2], cs[3]);
  }
}
