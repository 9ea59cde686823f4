/**
 When a transfer goes wrong: a line that cannot carry its message is refused, and so a tree is taken exactly if
 all its messages can be read back.
 */
module ScpRefusal {
  import opened Options
  import opened ScpUtf8
  import opened ScpStrconv
  import opened ScpLex
  import opened ScpMessages
  import opened ScpRoundTrip
  import opened ScpPaths
  import opened ScpDisk
  import opened ScpSink
  import opened ScpSource
  import opened ScpSend
  import opened ScpReceive
  import opened ScpTransfer
  import opened ScpSession
  import opened ScpLockstep
  import opened ScpSessionResults

  // ---- lines

  /** A name item with the line's end after it is all of a name that holds no newline. */
  lemma WholeName(name: bytes, pos: nat)
    requires NEWLINE !in name
    requires var items := Items(AfterSpace, name + [NEWLINE], pos);
             |items| >= 2 && items[0].typ.NameItem? && items[1].typ.EndItem?
    ensures Items(AfterSpace, name + [NEWLINE], pos)[0].val == name
  {
    var b := name + [NEWLINE];
    var items := Items(AfterSpace, b, pos);
    FirstNameIsRun(AfterSpace, b, pos);
    var n := Span(IsPathCharacter, b);
    var pos' := pos + RuneCount(b[..n]);
    assert items[1] == Items(AfterName, b[n..], pos')[0];
    NewlineIsItsOwnRune(b[n..]);
    assert b[n] == NEWLINE;
  }

  /** A printed C or D line whose name holds no newline, but is not lexable, does not parse to anything. */
  lemma NameRefused(m: Message)
    requires (m.CMsg? || m.DMsg?) && NEWLINE !in m.name && !Lexable(m.name)
    ensures Parse(Print(m)).Err?
  {
    var p := HeaderLexes(m);
    var items := Items(AfterSpace, m.name + [NEWLINE], p);
    var rest := Tokens(items);
    ParsedHeader(m, Tokens(Items(Start, Print(m), 0)), rest);
    if BindAll(m.(name := []), NAME_BINDERS, rest).Ok? {
      TwoTokens(m.(name := []), rest);
      assert rest[0] == Token(items[0].typ, items[0].val) && rest[1..] == Tokens(items[1..]);
      WholeName(m.name, p);
      OnlyLexableNames(m.name, p);
    }
  }

  lemma TwoTokens(m: Message, tokens: seq<Token>)
    requires BindAll(m, NAME_BINDERS, tokens).Ok?
    ensures |tokens| >= 2 && tokens[0].typ.NameItem? && tokens[1].typ.EndItem?
  {
    assert NAME_BINDERS[1..] == [Binder(EndItem, NoField)];
  }

  /** No number item starts with a minus. */
  lemma MinusIsNoNumber(st: Expect, rest: bytes, pos: nat)
    requires st.AfterType? || st.AfterSpace?
    ensures var items := Items(st, [MINUS] + rest, pos);
            items == [] || !items[0].typ.NumberItem?
  {
    assert DecodeRune([MINUS] + rest) == Decoded(45, 1);
  }

  lemma NotANumber(m: Message, field: Field, binders: seq<Binder>, items: seq<LexItem>)
    requires items == [] || !items[0].typ.NumberItem?
    ensures BindAll(m, TimeBinders(field, binders), Tokens(items)).Err?
  {
  }

  const SPACE_BINDER := Binder(SpaceItem, NoField)

  lemma TBinders()
    ensures Binders(TMsg(0, 0)) ==
            TimeBinders(MTimeField, [SPACE_BINDER] + TimeBinders(ATimeField, [Binder(EndItem, NoField)]))
  {
  }

  /** What a time before the epoch prints as starts with a minus. */
  lemma PrintedMinus(t: int64, rest: bytes) returns (digits: bytes)
    requires t < 0
    ensures Decimal(t) + rest == [MINUS] + digits
  {
    var since: nat := 0 - (t as int);
    digits := Digits(since, 10) + rest;
  }

  lemma FirstTimeRefused(mTime: int64, rest: bytes)
    requires mTime < 0
    ensures Parse([LETTER_T] + (Decimal(mTime) + rest)).Err?
  {
    hide Decimal, Items, BindAll, TimeBinders;
    var first := Decimal(mTime) + rest;
    var digits := PrintedMinus(mTime, rest);
    var p := TypeToken(LETTER_T, first, 0);
    MinusIsNoNumber(AfterType, digits, p);
    TokensCons(LexItem(TypeItem, [LETTER_T], p), Items(AfterType, first, p));
    TBinders();
    NotANumber(TMsg(0, 0), MTimeField, [SPACE_BINDER] + TimeBinders(ATimeField, [Binder(EndItem, NoField)]),
        Items(AfterType, first, p));
    assert ([Token(TypeItem, [LETTER_T])] + Tokens(Items(AfterType, first, p)))[1..] ==
           Tokens(Items(AfterType, first, p));
  }

  lemma SecondTimeRefused(mTime: int64, aTime: int64, rest: bytes)
    requires mTime >= 0 && aTime < 0
    ensures Parse([LETTER_T] + (Decimal(mTime) + ([SPACE] + ([DIGIT_ZERO] + ([SPACE] + (Decimal(aTime) + rest)))))).Err?
  {
    hide Decimal, Digits, Items, BindAll, TimeBinders, TimeTokens, ParseInt64;
    var second, end := Decimal(aTime) + rest, [Binder(EndItem, NoField)];
    var digits := PrintedMinus(aTime, rest);
    var p := FirstHalfLexes(mTime, second);
    MinusIsNoNumber(AfterSpace, digits, p);
    var tokens := Tokens(Items(AfterSpace, second, p));
    TBinders();
    var m := Bind(TMsg(0, 0), MTimeField, Digits(mTime, 10));
    BindTime(TMsg(0, 0), MTimeField, mTime, [SPACE_BINDER] + TimeBinders(ATimeField, end), [SPACE_TOKEN] + tokens);
    BindCons(m, SPACE_BINDER, TimeBinders(ATimeField, end), SPACE_TOKEN, tokens);
    NotANumber(m, ATimeField, end, Items(AfterSpace, second, p));
    var line := [LETTER_T] + (Decimal(mTime) + ([SPACE] + ([DIGIT_ZERO] + ([SPACE] + second))));
    var all := Tokens(Items(Start, line, 0));
    assert all == [Token(TypeItem, [LETTER_T])] + TimeTokens(mTime, [SPACE_TOKEN] + tokens);
    assert all[1..] == TimeTokens(mTime, [SPACE_TOKEN] + tokens);
    assert BindAll(TMsg(0, 0), Binders(TMsg(0, 0)), all[1..]).Err?;
  }

  /** A printed T line with a time before the epoch does not parse to anything. */
  lemma TimesRefused(mTime: int64, aTime: int64)
    requires mTime < 0 || aTime < 0
    ensures Parse(Print(TMsg(mTime, aTime))).Err?
  {
    hide Decimal, Parse;
    if mTime < 0 {
      var rest := [SPACE] + (Decimal(aTime) + ([SPACE] + ([DIGIT_ZERO] + [NEWLINE])));
      FirstTimeRefused(mTime, [SPACE] + ([DIGIT_ZERO] + rest));
    } else {
      SecondTimeRefused(mTime, aTime, [SPACE] + ([DIGIT_ZERO] + [NEWLINE]));
    }
  }

  /** The tokens of a T line as far as its second time. */
  function HalfTokens(t: nat): seq<Token> {
    [Token(TypeItem, [LETTER_T])] + TimeTokens(t, [SPACE_TOKEN] + [])
  }

  lemma HalfFits(t: nat, tail: bytes)
    ensures Fits(Start, HalfTokens(t)) && After(Start, HalfTokens(t)) == AfterSpace
    ensures ScpRoundTrip.Written(HalfTokens(t), tail) ==
            [LETTER_T] + (Digits(t, 10) + ([SPACE] + ([DIGIT_ZERO] + ([SPACE] + tail))))
  {
    hide Digits, Fits, After;
    FitsNothing(AfterSpace);
    FitsStep(AfterNumber, SPACE_TOKEN, [], tail);
    FitsStep(AfterSpace, ZERO_TOKEN, [SPACE_TOKEN] + [], tail);
    FitsStep(AfterNumber, SPACE_TOKEN, [ZERO_TOKEN] + ([SPACE_TOKEN] + []), tail);
    FitsStep(AfterType, NumToken(t), [SPACE_TOKEN] + ([ZERO_TOKEN] + ([SPACE_TOKEN] + [])), tail);
    FitsStep(Start, Token(TypeItem, [LETTER_T]), TimeTokens(t, [SPACE_TOKEN] + []), tail);
  }

  lemma FitsNothing(st: Expect)
    ensures Fits(st, []) && After(st, []) == st && forall tail :: ScpRoundTrip.Written([], tail) == tail
  {
  }

  lemma FitsStep(st: Expect, token: Token, rest: seq<Token>, tail: bytes)
    requires FitsHere(st, token, rest) && Fits(Next(token.typ), rest)
    ensures Fits(st, [token] + rest) && After(st, [token] + rest) == After(Next(token.typ), rest)
    ensures ScpRoundTrip.Written([token] + rest, tail) == token.val + ScpRoundTrip.Written(rest, tail)
  {
    FitsCons(st, token, rest);
  }

  lemma HalfAppend(t: nat, rest: seq<Token>)
    ensures HalfTokens(t) + rest == [Token(TypeItem, [LETTER_T])] + TimeTokens(t, [SPACE_TOKEN] + rest)
  {
  }

  lemma FirstHalfLexes(t: int64, tail: bytes) returns (p: nat)
    requires t >= 0
    ensures Tokens(Items(Start, [LETTER_T] + (Decimal(t) + ([SPACE] + ([DIGIT_ZERO] + ([SPACE] + tail)))), 0)) ==
            [Token(TypeItem, [LETTER_T])] + TimeTokens(t, [SPACE_TOKEN] + Tokens(Items(AfterSpace, tail, p)))
  {
    hide Digits, Items, HalfTokens, TimeTokens;
    HalfFits(t, tail);
    var items;
    p, items := LexTokens(Start, HalfTokens(t), tail, 0);
    HalfAppend(t, Tokens(Items(AfterSpace, tail, p)));
  }

  /** Unless its name holds a newline, a message that its line cannot carry is refused. */
  lemma Refused(m: Message)
    requires OnOneLine(m) && !Printable(m)
    ensures Parse(Print(m)).Err?
  {
    if m.TMsg? {
      TimesRefused(m.mTime, m.aTime);
    } else {
      NameRefused(m);
    }
  }

  lemma RefusedMessage(state: ParserState, depth: int, s: SinkState, m: Message, rest: bytes)
    requires s.input == Print(m) + rest && OnOneLine(m) && !Printable(m)
    ensures SinkLoop(state, depth, s).err.Some?
  {
    PrintedIsALine(m);
    LineLengthOf(Print(m), rest);
    Refused(m);
    assert s.input[..|Print(m)|] == Print(m);
  }

  // ---- trees

  function NodeMessage(n: Node): Message {
    if n.File? then FileMessage(n) else DirMessage(n)
  }

  /** The sink fails at the messages that announce n. */
  lemma AnnouncementRefused(times: bool, n: Node, state: ParserState, depth: int, s: SinkState, rest: bytes, move: Move)
    requires s.input == Stamp(times, n) + (Print(NodeMessage(n)) + rest)
    requires NEWLINE !in n.name && Plain(n.name) && !Announced(times, n)
    requires if times then StateStep(state, depth, TimesMessage(n)) == Some(move) else move == Move(state, depth)
    ensures SinkLoop(state, depth, s).err.Some?
  {
    hide SinkLoop;
    var m := NodeMessage(n);
    if !Dated(times, n) {
      RefusedMessage(state, depth, s, TimesMessage(n), Print(m) + rest);
    } else {
      var s1 := s.(input := Print(m) + rest);
      StampRead(times, n, state, depth, s, s1.input, move);
      RefusedMessage(move.state, move.depth, Stamped(times, n, s1), m, rest);
    }
  }

  /** No name holds a newline, and the first file that misfits, if any, is longer than announced. */
  predicate Orderly(n: Node) {
    OneLineNames(n) && (FirstMisfit(n) == AllFit || FirstMisfit(n) == Longer)
  }

  predicate AllOrderly(ns: seq<Node>) {
    (forall c :: c in ns ==> OneLineNames(c)) && (FirstMisfitOf(ns) == AllFit || FirstMisfitOf(ns) == Longer)
  }

  /** Where the trouble is in a tree of which not all can be read back. */
  lemma TreeParts(times: bool, n: Node)
    requires WellFormed(n) && Orderly(n) && !Travels(times, n)
    ensures NEWLINE !in n.name
    ensures n.File? ==> !Announced(times, n) || FirstMisfit(n) == Longer
    ensures n.Dir? ==> AllOrderly(n.children) && forall c :: c in n.children ==> WellFormed(c) && Plain(c.name)
    ensures n.Dir? && Announced(times, n) ==> exists c :: c in n.children && !Travels(times, c)
  {
  }

  /** The sink fails where the announced end of a file has no zero byte. */
  lemma LongerRefused(times: bool, n: Node, state: ParserState, depth: int, s: SinkState, tail: bytes, move: Move)
    requires s.input == Stream(times, n) + tail && n.File? && Announced(times, n) && FirstMisfit(n) == Longer
    requires s.dir != [] && !s.timeSet && HasPlace(s.disk, s.dir, n)
    requires if times then StateStep(state, depth, TimesMessage(n)) == Some(move) else move == Move(state, depth)
    ensures SinkLoop(state, depth, s).err.Some?
  {
    hide SinkLoop;
    var m, rest := FileMessage(n), n.content + ([0] + tail);
    FileStream(times, n, tail);
    var s1 := s.(input := Print(m) + rest);
    StampRead(times, n, state, depth, s, s1.input, move);
    LongerFails(Stamped(times, n, s1).(input := rest), m, n.content, [0] + tail);
    OneMessageRefused(move.state, move.depth, Stamped(times, n, s1), m, rest);
  }

  /** A content that is longer than announced and has no zero byte where its end was announced. */
  lemma LongerFails(s: SinkState, m: Message, content: bytes, tail: bytes)
    requires m.CMsg? && s.input == content + tail && Fitting(CopyLimit(m.length), content) == Longer
    ensures Process(s, m).err.Some?
  {
    var limit := CopyLimit(m.length);
    assert s.input[limit..][0] == content[limit];
  }

  /** The sink fails at a message that fails, if it accepts it at all. */
  lemma OneMessageRefused(state: ParserState, depth: int, s: SinkState, m: Message, rest: bytes)
    requires s.input == Print(m) + rest && Printable(m) && Process(s.(input := rest), m).err.Some?
    ensures SinkLoop(state, depth, s).err.Some?
  {
    hide LineLength, Parse, Print, Process, StateStep, EndsLine;
    PrintedIsALine(m);
    LineLengthOf(Print(m), rest);
    PrintParse(m);
    assert s.input[..|Print(m)|] == Print(m) && s.input[|Print(m)|..] == rest;
  }

  /** A tree of which not all can be read back, in a directory that the sink has entered. */
  lemma {:induction false} NodeRefused(times: bool, n: Node, depth: int, s: SinkState, tail: bytes)
    requires s.input == Stream(times, n) + tail && depth >= 1 && s.dir != []
    requires WellFormed(n) && Plain(n.name) && Orderly(n) && !s.timeSet && HasPlace(s.disk, s.dir, n)
    requires !Travels(times, n)
    ensures SinkLoop(Inside(times), depth, s).err.Some?
    decreases n, 1
  {
    hide SinkLoop, Stream, HasPlace, Travels, WellFormed, Orderly, Plain;
    var move := if times then Move(RecurseTimesCD, depth) else Move(RecurseNoTimesCDE, depth);
    TreeRefused(times, n, Inside(times), depth, s, tail, move);
  }

  /** The same in any state that accepts the tree. */
  lemma {:induction false} TreeRefused(times: bool, n: Node, state: ParserState, depth: int, s: SinkState, tail: bytes,
                                       move: Move)
    requires s.input == Stream(times, n) + tail && depth >= 0
    requires WellFormed(n) && Plain(n.name) && Orderly(n) && !s.timeSet && HasPlace(s.disk, s.dir, n)
    requires !Travels(times, n) && (n.File? ==> s.dir != [])
    requires if times then StateStep(state, depth, TimesMessage(n)) == Some(move) else move == Move(state, depth)
    requires n.Dir? ==> StateStep(move.state, move.depth, DirMessage(n)) == Some(Move(Inside(times), depth + 1))
    ensures SinkLoop(state, depth, s).err.Some?
    decreases n, 0
  {
    hide SinkLoop, Stream, StreamAll, Stamp, Print, Announced, HasPlace, HavePlaces, Travels, WellFormed, Orderly,
         AllOrderly, StateStep;
    TreeParts(times, n);
    if n.File? {
      if Announced(times, n) {
        LongerRefused(times, n, state, depth, s, tail, move);
      } else {
        FileStream(times, n, tail);
        AnnouncementRefused(times, n, state, depth, s, n.content + ([0] + tail), move);
      }
    } else {
      var rest := StreamAll(times, n.children) + (Print(EMsg) + tail);
      DirStream(times, n, tail);
      if !Announced(times, n) {
        AnnouncementRefused(times, n, state, depth, s, rest, move);
      } else {
        DirectoryEntered(times, n, state, depth, s, rest, move, Move(Inside(times), depth + 1));
        PlacesInside(s.disk, s.dir, n, EntryOf(times, n));
        ChildrenRefused(times, n.children, depth + 1, Entered(times, n, s).(dir := s.dir + [n.name], input := rest),
            Print(EMsg) + tail);
      }
    }
  }

  lemma {:induction false} ChildrenRefused(times: bool, ns: seq<Node>, depth: int, s: SinkState, tail: bytes)
    requires s.input == StreamAll(times, ns) + tail && depth >= 1 && s.dir != [] && !s.timeSet
    requires HavePlaces(s.disk, s.dir, ns) && AllOrderly(ns) && forall c :: c in ns ==> WellFormed(c) && Plain(c.name)
    requires exists c :: c in ns && !Travels(times, c)
    ensures SinkLoop(Inside(times), depth, s).err.Some?
    decreases ns
  {
    hide SinkLoop, Stream, Receive, Image, Travels;
    var rest := StreamAll(times, ns[1..]) + tail;
    assert StreamAll(times, ns) + tail == Stream(times, ns[0]) + rest;
    if Travels(times, ns[0]) {
      TravelsFits(times, ns[0]);
      NodeReceived(times, ns[0], depth, s, rest);
      Received(times, ns[0], s);
      PlacesLeft(times, s.disk, s.dir, ns);
      ChildrenRefused(times, ns[1..], depth, Receive(times, ns[0], s).(input := rest), tail);
    } else {
      NodeRefused(times, ns[0], depth, s, rest);
    }
  }

  /**
   The bytes of a tree, in which no name holds a newline and the first file that misfits, if any, is longer than
   announced and has no zero byte where its end was announced, are taken without an error if and only if all files
   fit, all names are lexable and, with times, no time lies before the epoch.
   */
  lemma TreeTakenExactlyIf(recursive: bool, times: bool, n: Node, s: SinkState)
    requires s.input == Stream(times, n) && !s.timeSet
    requires WellFormed(n) && Plain(n.name) && Orderly(n) && HasPlace(s.disk, s.dir, n)
    requires (n.Dir? && recursive) || (n.File? && s.dir != [])
    ensures SinkRun(recursive, times, s).err == None <==> Travels(times, n)
  {
    hide SinkLoop, Stream, HasPlace, Travels, WellFormed, Orderly, Receive;
    if Travels(times, n) {
      SinkTakesTree(recursive, times, n, s);
    } else {
      var state := ParserStart(recursive, times);
      var move := if times then StateStep(state, 0, TimesMessage(n)).value else Move(state, 0);
      assert s.input + [] == s.input;
      TreeRefused(times, n, state, 0, Ack(s), [], move);
    }
  }

  /**
   The same for two processes under every schedule, whichever file misfits, unless one spills: if both end, they
   both succeed if and only if all of the tree can be read back by the sink, and the source can read it.
   */
  lemma SessionSucceedsExactlyIf(n: Node, recursive: bool, times: bool, base: Path, disk: Disk, steps: seq<Step>,
                                 se: Session)
    requires WellFormed(n) && Plain(n.name) && OneLineNames(n) && FirstMisfit(n) != Spills
    requires HasPlace(disk, base, n) && if n.Dir? then recursive else base != []
    requires var mem := SinkState(base, false, 0, 0, [], [], disk);
             Play(Begin(Script(times, n), recursive, times, mem), steps) == Some(se)
    requires Over(se)
    ensures se.src.err == None <==> se.snk.err == None
    ensures se.snk.err == None <==> Travels(times, n) && SourceFails !in steps
  {
    hide Script, Do, SinkRun, HasPlace, WellFormed, OneLineNames, Travels;
    var mem := SinkState(base, false, 0, 0, [], [], disk);
    var script := Script(times, n);
    SessionOverATree(times, n, recursive, times, mem, steps);
    BrokeExactlyIf(script, Begin(script, recursive, times, mem), steps);
    if Travels(times, n) {
      SessionTransfersTree(n, recursive, times, base, disk, steps, se);
    } else if se.snk.err == None {
      TreeScriptIsGood(times, n);
      AlwaysKept(script, recursive, times, mem, steps, AllFit);
      ScriptIsStream(times, n);
      SessionIsRun(script, recursive, times, mem, steps, se);
      TreeTakenExactlyIf(recursive, times, n, mem.(input := se.sent));
    }
  }
}
