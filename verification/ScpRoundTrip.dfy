/**
 Printing a message and parsing the line gives the message back exactly when the line can carry it,
 and parsing, printing and parsing again is the same as parsing once.
 */
module ScpRoundTrip {
  import opened ScpUtf8
  import opened ScpStrconv
  import opened ScpLex
  import opened ScpLexTiling
  import opened ScpMessages

  /** The names the lexer reads as one name item. */
  predicate Lexable(name: bytes) {
    name != [] && IsText(name) && NEWLINE !in name && !IsNumber(DecodeRune(name).rune)
  }

  /** What a line can carry. */
  predicate Printable(m: Message) {
    match m
    case CMsg(_, _, name) => Lexable(name)
    case DMsg(_, _, name) => Lexable(name)
    case EMsg => true
    case TMsg(mTime, aTime) => mTime >= 0 && aTime >= 0
  }

  // ---- one token at a time

  lemma {:induction false} SpanOfDigits(s: bytes, rest: bytes)
    requires AreDigits(s, 10) && rest != [] && rest[0] < 0x80 && !IsNumber(rest[0])
    ensures Span(IsNumber, s + rest) == |s|
    decreases |s|
  {
    if s == [] {
      assert s + rest == rest;
    } else {
      assert (s + rest)[0] in s;
      assert (s + rest)[1..] == s[1..] + rest;
      assert AreDigits(s[1..], 10) by {
        forall c | c in s[1..] ensures IsDigit(c, 10) {
          assert c in s;
        }
      }
      SpanOfDigits(s[1..], rest);
    }
  }

  /** A run of digits before a space or a newline is one number item. */
  lemma NumberToken(st: Expect, s: bytes, rest: bytes, pos: nat) returns (pos': nat)
    requires st.AfterType? || st.AfterSpace?
    requires s != [] && AreDigits(s, 10) && rest != [] && (rest[0] == SPACE || rest[0] == NEWLINE)
    ensures Items(st, s + rest, pos) == [LexItem(NumberItem, s, pos')] + Items(AfterNumber, rest, pos')
  {
    SpanOfDigits(s, rest);
    assert (s + rest)[0] in s;
    assert (s + rest)[..|s|] == s && (s + rest)[|s|..] == rest;
    pos' := pos + RuneCount(s);
  }

  lemma SpaceToken(rest: bytes, pos: nat) returns (pos': nat)
    ensures Items(AfterNumber, [SPACE] + rest, pos) ==
            [LexItem(SpaceItem, [SPACE], pos')] + Items(AfterSpace, rest, pos')
  {
    assert ([SPACE] + rest)[..1] == [SPACE] && ([SPACE] + rest)[1..] == rest;
    pos' := pos + RuneCount([SPACE]);
  }

  lemma TypeToken(c: byte, rest: bytes, pos: nat) returns (pos': nat)
    requires c == LETTER_C || c == LETTER_D || c == LETTER_E || c == LETTER_T
    ensures Items(Start, [c] + rest, pos) == [LexItem(TypeItem, [c], pos')] + Items(AfterType, rest, pos')
  {
    assert ([c] + rest)[..1] == [c] && ([c] + rest)[1..] == rest;
    pos' := pos + RuneCount([c]);
  }

  lemma EndToken(st: Expect, rest: bytes, pos: nat) returns (pos': nat)
    requires st.AfterType? || st.AfterNumber? || st.AfterName?
    ensures Items(st, [NEWLINE] + rest, pos) == [LexItem(EndItem, [NEWLINE], pos')] + Items(Stopped, rest, pos')
  {
    var b := [NEWLINE] + rest;
    assert b[..1] == [NEWLINE] && b[1..] == rest;
    pos' := pos + RuneCount([NEWLINE]);
  }

  lemma {:induction false} SpanOfText(s: bytes, rest: bytes)
    requires IsText(s) && NEWLINE !in s && rest != [] && rest[0] == NEWLINE
    ensures Span(IsPathCharacter, s + rest) == |s|
    decreases |s|
  {
    if s == [] {
      assert s + rest == rest;
    } else {
      var w := DecodeRune(s).width;
      DecodeRuneIsLocal(s, rest);
      NewlineIsItsOwnRune(s);
      assert s[0] in s;
      assert (s + rest)[w..] == s[w..] + rest;
      SpanOfText(s[w..], rest);
    }
  }

  /** A lexable name before a newline is one name item. */
  lemma NameToken(name: bytes, rest: bytes, pos: nat) returns (pos': nat)
    requires Lexable(name) && rest != [] && rest[0] == NEWLINE
    ensures Items(AfterSpace, name + rest, pos) == [LexItem(NameItem, name, pos')] + Items(AfterName, rest, pos')
  {
    SpanOfText(name, rest);
    DecodeRuneIsLocal(name, rest);
    NewlineIsItsOwnRune(name);
    assert name[0] in name;
    var b := name + rest;
    assert b[..|name|] == name && b[|name|..] == rest;
    assert HasRune(rest);
    pos' := pos + RuneCount(name);
  }

  /** If the first item after a space is a name item that holds all of name, then name is lexable. */
  lemma OnlyLexableNames(name: bytes, pos: nat)
    requires var items := Items(AfterSpace, name + [NEWLINE], pos);
             items != [] && items[0].typ.NameItem? && items[0].val == name
    ensures Lexable(name)
  {
    var b := name + [NEWLINE];
    var n := Span(IsPathCharacter, b);
    assert b[..n] == name;
    SpanIsText(IsPathCharacter, b);
    SpanStopsAtNewline(IsPathCharacter, b);
    DecodeRuneIsLocal(name, [NEWLINE]);
  }

  // ---- token lists

  /** The tokens written without gaps, and then tail. */
  function Written(tokens: seq<Token>, tail: bytes): bytes {
    if tokens == [] then tail else tokens[0].val + Written(tokens[1..], tail)
  }

  /** The token can come in state st, before the tokens in rest, and is told apart when written without gaps. */
  predicate FitsHere(st: Expect, token: Token, rest: seq<Token>) {
    match token.typ
    case TypeItem => st.Start? && Blank(token.val).Ok?
    case NumberItem =>
      && (st.AfterType? || st.AfterSpace?) && token.val != [] && AreDigits(token.val, 10)
      && rest != [] && (rest[0].typ.SpaceItem? || rest[0].typ.EndItem?)
    case SpaceItem => st.AfterNumber? && token.val == [SPACE]
    case NameItem => st.AfterSpace? && Lexable(token.val) && rest != [] && rest[0].typ.EndItem?
    case EndItem => (st.AfterType? || st.AfterNumber? || st.AfterName?) && token.val == [NEWLINE]
    case ErrorItem => false
  }

  predicate Fits(st: Expect, tokens: seq<Token>)
    decreases |tokens|
  {
    tokens == [] || (FitsHere(st, tokens[0], tokens[1..]) && Fits(Next(tokens[0].typ), tokens[1..]))
  }

  function After(st: Expect, tokens: seq<Token>): Expect {
    if tokens == [] then st else Next(tokens[|tokens| - 1].typ)
  }

  /** The state an item leads to. */
  function Next(typ: ItemType): Expect {
    match typ
    case TypeItem => AfterType
    case NumberItem => AfterNumber
    case SpaceItem => AfterSpace
    case NameItem => AfterName
    case EndItem => Stopped
    case ErrorItem => Stopped
  }

  /** The first of a list of fitting tokens is the first item, whatever follows the list. */
  lemma LexToken(st: Expect, tokens: seq<Token>, tail: bytes, pos: nat) returns (pos': nat)
    requires tokens != [] && Fits(st, tokens)
    ensures Items(st, Written(tokens, tail), pos) ==
            [LexItem(tokens[0].typ, tokens[0].val, pos')] + Items(Next(tokens[0].typ), Written(tokens[1..], tail), pos')
  {
    var typ, val, rest := tokens[0].typ, tokens[0].val, Written(tokens[1..], tail);
    match typ
    case TypeItem => pos' := TypeToken(val[0], rest, pos);
    case NumberItem => pos' := NumberToken(st, val, rest, pos);
    case SpaceItem => pos' := SpaceToken(rest, pos);
    case NameItem => pos' := NameToken(val, rest, pos);
    case EndItem => pos' := EndToken(st, rest, pos);
  }

  lemma ConsAppend(tokens: seq<Token>, rest: seq<Token>)
    requires tokens != []
    ensures tokens + rest == [tokens[0]] + (tokens[1..] + rest)
  {
  }

  lemma TokensCons(item: LexItem, items: seq<LexItem>)
    ensures Tokens([item] + items) == [Token(item.typ, item.val)] + Tokens(items)
  {
    assert ([item] + items)[1..] == items;
  }

  /** Fitting tokens lex to themselves, and the lexer goes on with what follows them. */
  lemma {:induction false} LexTokens(st: Expect, tokens: seq<Token>, tail: bytes, pos: nat)
    returns (pos': nat, items: seq<LexItem>)
    requires Fits(st, tokens)
    ensures items == Items(st, Written(tokens, tail), pos)
    ensures Tokens(items) == tokens + Tokens(Items(After(st, tokens), tail, pos'))
    decreases |tokens|
  {
    if tokens == [] {
      pos' := pos;
      items := Items(st, tail, pos);
    } else {
      var p := LexToken(st, tokens, tail, pos);
      var more;
      pos', more := LexTokens(Next(tokens[0].typ), tokens[1..], tail, p);
      items := [LexItem(tokens[0].typ, tokens[0].val, p)] + more;
      TokensCons(LexItem(tokens[0].typ, tokens[0].val, p), more);
      assert After(st, tokens) == After(Next(tokens[0].typ), tokens[1..]);
      ConsAppend(tokens, Tokens(Items(After(st, tokens), tail, pos')));
    }
  }

  /** Putting a token in front of fitting tokens. */
  lemma FitsCons(st: Expect, token: Token, rest: seq<Token>)
    requires FitsHere(st, token, rest) && Fits(Next(token.typ), rest)
    ensures Fits(st, [token] + rest)
    ensures forall tail :: Written([token] + rest, tail) == token.val + Written(rest, tail)
    ensures After(st, [token] + rest) == After(Next(token.typ), rest)
  {
    assert ([token] + rest)[1..] == rest;
  }

  // ---- binding

  /** One binder takes one token. */
  lemma BindCons(m: Message, binder: Binder, binders: seq<Binder>, token: Token, tokens: seq<Token>)
    requires token.typ == binder.typ
    ensures BindAll(m, [binder] + binders, [token] + tokens) ==
            BindAll(Bind(m, binder.field, token.val), binders, tokens)
  {
    assert ([binder] + binders)[1..] == binders && ([token] + tokens)[1..] == tokens;
  }

  lemma BindNothing(m: Message)
    ensures BindAll(m, [], []) == Ok(m)
  {
  }

  const SPACE_TOKEN := Token(SpaceItem, [SPACE])

  const END_TOKEN := Token(EndItem, [NEWLINE])

  function ModeToken(mode: uint32): Token {
    Token(NumberItem, PadZero(Digits(mode, 8), 4))
  }

  function NumToken(n: nat): Token {
    Token(NumberItem, Digits(n, 10))
  }

  /** The tokens of a C or D line between its letter and its name, and then rest. */
  function HeaderTokens(mode: uint32, length: uint64, rest: seq<Token>): seq<Token> {
    [ModeToken(mode)] + ([SPACE_TOKEN] + ([NumToken(length)] + ([SPACE_TOKEN] + rest)))
  }

  lemma HeaderTokensAre(mode: uint32, length: uint64, rest: seq<Token>)
    ensures HeaderTokens(mode, length, rest) ==
            [ModeToken(mode)] + ([SPACE_TOKEN] + ([NumToken(length)] + ([SPACE_TOKEN] + rest)))
  {
  }

  const NAME_BINDERS := [Binder(NameItem, NameField), Binder(EndItem, NoField)]

  /** A C or D line without the numbers set, and with them. */
  function Blanked(m: Message): Message
    requires m.CMsg? || m.DMsg?
  {
    if m.CMsg? then CMsg(0, 0, []) else DMsg(0, 0, [])
  }

  function Letter(m: Message): byte {
    match m
    case CMsg(_, _, _) => LETTER_C
    case DMsg(_, _, _) => LETTER_D
    case EMsg => LETTER_E
    case TMsg(_, _) => LETTER_T
  }

  /** Binding the header of a C or D line sets mode and length as they were printed. */
  lemma BindHeader(m: Message, rest: seq<Token>)
    requires m.CMsg? || m.DMsg?
    ensures BindAll(Blanked(m), HeaderBinders(), HeaderTokens(m.mode, m.length, rest)) ==
            BindAll(m.(name := []), NAME_BINDERS, rest)
  {
    hide Digits, PadZero, ParseUint, BindAll, HeaderTokens;
    DigitsRoundTrip(m.mode, 4, 8, TWO_TO_THE_32 - 1);
    DigitsRoundTrip(m.length, 0, 10, TWO_TO_THE_64 - 1);
    assert HeaderTokens(m.mode, m.length, rest) ==
           [ModeToken(m.mode)] + ([SPACE_TOKEN] + ([NumToken(m.length)] + ([SPACE_TOKEN] + rest))) by {
      HeaderTokensAre(m.mode, m.length, rest);
    }
    var b := HeaderBinders();
    var t3 := [SPACE_TOKEN] + rest;
    var t2 := [NumToken(m.length)] + t3;
    var t1 := [SPACE_TOKEN] + t2;
    var m1 := Bind(Blanked(m), ModeField, ModeToken(m.mode).val);
    var m3 := Bind(m1, LengthField, NumToken(m.length).val);
    assert m3 == m.(name := []);
    assert b == [b[0]] + ([b[1]] + ([b[2]] + ([b[3]] + NAME_BINDERS)));
    BindCons(Blanked(m), b[0], [b[1]] + ([b[2]] + ([b[3]] + NAME_BINDERS)), ModeToken(m.mode), t1);
    BindCons(m1, b[1], [b[2]] + ([b[3]] + NAME_BINDERS), SPACE_TOKEN, t2);
    BindCons(m1, b[2], [b[3]] + NAME_BINDERS, NumToken(m.length), t3);
    BindCons(m3, b[3], NAME_BINDERS, SPACE_TOKEN, rest);
  }

  /** Binding name and end succeeds with m just on the tokens of m's name and the newline. */
  lemma BindName(m: Message, rest: seq<Token>)
    requires m.CMsg? || m.DMsg?
    ensures BindAll(m.(name := []), NAME_BINDERS, rest) == Ok(m) ==>
              rest != [] && rest[0] == Token(NameItem, m.name)
    ensures rest == [Token(NameItem, m.name)] + [END_TOKEN] ==>
              BindAll(m.(name := []), NAME_BINDERS, rest) == Ok(m)
  {
    assert NAME_BINDERS[1..] == [Binder(EndItem, NoField)] && NAME_BINDERS[1..][1..] == [];
  }

  /** The tokens of a C or D line up to its name fit, and spell its start. */
  lemma HeaderFits(m: Message)
    requires m.CMsg? || m.DMsg?
    ensures var tokens := [Token(TypeItem, [Letter(m)])] + HeaderTokens(m.mode, m.length, []);
            && Fits(Start, tokens) && After(Start, tokens) == AfterSpace
            && Written(tokens, m.name + [NEWLINE]) == Print(m)
  {
    ParsePadded(Digits(m.mode, 8), 4, 8, 0);
    OctalDigitsAreDigits(ModeToken(m.mode).val);
    var t4 := [SPACE_TOKEN] + [];
    var t3 := [NumToken(m.length)] + t4;
    var t2 := [SPACE_TOKEN] + t3;
    FitsCons(AfterNumber, SPACE_TOKEN, []);
    FitsCons(AfterSpace, NumToken(m.length), t4);
    FitsCons(AfterNumber, SPACE_TOKEN, t3);
    FitsCons(AfterType, ModeToken(m.mode), t2);
    FitsCons(Start, Token(TypeItem, [Letter(m)]), [ModeToken(m.mode)] + t2);
  }

  /** A printed C or D line, as far as its name. */
  lemma HeaderLexes(m: Message) returns (p: nat)
    requires m.CMsg? || m.DMsg?
    ensures Tokens(Items(Start, Print(m), 0)) ==
            [Token(TypeItem, [Letter(m)])] +
            HeaderTokens(m.mode, m.length, Tokens(Items(AfterSpace, m.name + [NEWLINE], p)))
  {
    HeaderFits(m);
    var c, tail := Token(TypeItem, [Letter(m)]), m.name + [NEWLINE];
    var items;
    p, items := LexTokens(Start, [c] + HeaderTokens(m.mode, m.length, []), tail, 0);
    HeaderAppend(c, m.mode, m.length, Tokens(Items(AfterSpace, tail, p)));
  }

  lemma HeaderAppend(c: Token, mode: uint32, length: uint64, rest: seq<Token>)
    ensures [c] + HeaderTokens(mode, length, []) + rest == [c] + HeaderTokens(mode, length, rest)
  {
  }

  /** A lexable name and the newline are two tokens. */
  lemma NameLexes(name: bytes, p: nat)
    requires Lexable(name)
    ensures Tokens(Items(AfterSpace, name + [NEWLINE], p)) == [Token(NameItem, name)] + [END_TOKEN]
  {
    FitsCons(AfterName, END_TOKEN, []);
    assert [END_TOKEN] + [] == [END_TOKEN];
    FitsCons(AfterSpace, Token(NameItem, name), [END_TOKEN]);
    var q, items := LexTokens(AfterSpace, [Token(NameItem, name)] + [END_TOKEN], [], p);
    assert Written([END_TOKEN], []) == [NEWLINE] + Written([], []) == [NEWLINE];
    assert Items(Stopped, [], q) == [];
  }

  /** A printed C or D line parses to the message if and only if its name is lexable. */
  lemma NamedRoundTrip(m: Message)
    requires m.CMsg? || m.DMsg?
    ensures Parse(Print(m)) == Ok(m) <==> Lexable(m.name)
  {
    var p := HeaderLexes(m);
    var rest := Tokens(Items(AfterSpace, m.name + [NEWLINE], p));
    ParsedHeader(m, Tokens(Items(Start, Print(m), 0)), rest);
    BindName(m, rest);
    if Lexable(m.name) {
      NameLexes(m.name, p);
    } else if Parse(Print(m)) == Ok(m) {
      OnlyLexableNames(m.name, p);
    }
  }

  lemma ParsedHeader(m: Message, tokens: seq<Token>, rest: seq<Token>)
    requires m.CMsg? || m.DMsg?
    requires tokens == [Token(TypeItem, [Letter(m)])] + HeaderTokens(m.mode, m.length, rest)
    ensures ParseTokens(tokens) == BindAll(m.(name := []), NAME_BINDERS, rest)
  {
    assert tokens[1..] == HeaderTokens(m.mode, m.length, rest);
    BindHeader(m, rest);
  }

  lemma OctalDigitsAreDigits(s: bytes)
    requires AreDigits(s, 8)
    ensures AreDigits(s, 10)
  {
  }

  /** Decimal of a non-negative int64 reads back through ParseInt. */
  lemma TimeRoundTrip(t: int64)
    requires t >= 0
    ensures ParseInt64(Decimal(t)) == t
  {
    DigitsRoundTrip(t, 0, 10, TWO_TO_THE_64 - 1);
  }

  const ZERO_TOKEN := Token(NumberItem, [DIGIT_ZERO])

  /** The tokens of one half of a T line: a time, a space, a zero; then rest. */
  function TimeTokens(t: nat, rest: seq<Token>): seq<Token> {
    [NumToken(t)] + ([SPACE_TOKEN] + ([ZERO_TOKEN] + rest))
  }

  lemma TimeTokensFit(st: Expect, t: nat, rest: seq<Token>)
    requires st.AfterType? || st.AfterSpace?
    requires Fits(AfterNumber, rest) && rest != [] && (rest[0].typ.SpaceItem? || rest[0].typ.EndItem?)
    ensures Fits(st, TimeTokens(t, rest)) && After(st, TimeTokens(t, rest)) == After(AfterNumber, rest)
    ensures Written(TimeTokens(t, rest), []) == Digits(t, 10) + ([SPACE] + ([DIGIT_ZERO] + Written(rest, [])))
  {
    FitsCons(AfterSpace, ZERO_TOKEN, rest);
    FitsCons(AfterNumber, SPACE_TOKEN, [ZERO_TOKEN] + rest);
    FitsCons(st, NumToken(t), [SPACE_TOKEN] + ([ZERO_TOKEN] + rest));
  }

  function TimeBinders(field: Field, rest: seq<Binder>): seq<Binder> {
    [Binder(NumberItem, field)] + ([Binder(SpaceItem, NoField)] + ([Binder(NumberItem, NoField)] + rest))
  }

  lemma BindTime(m: Message, field: Field, t: int64, binders: seq<Binder>, rest: seq<Token>)
    requires m.TMsg? && t >= 0
    ensures BindAll(m, TimeBinders(field, binders), TimeTokens(t, rest)) ==
            BindAll(Bind(m, field, Digits(t, 10)), binders, rest)
  {
    var space, num := Binder(SpaceItem, NoField), Binder(NumberItem, NoField);
    var m' := Bind(m, field, Digits(t, 10));
    BindCons(m, Binder(NumberItem, field), [space] + ([num] + binders), NumToken(t),
             [SPACE_TOKEN] + ([ZERO_TOKEN] + rest));
    BindCons(m', space, [num] + binders, SPACE_TOKEN, [ZERO_TOKEN] + rest);
    BindCons(m', num, binders, ZERO_TOKEN, rest);
  }

  /** The tokens of a T line. */
  function TTokens(mTime: nat, aTime: nat): seq<Token> {
    [Token(TypeItem, [LETTER_T])] + TimeTokens(mTime, [SPACE_TOKEN] + TimeTokens(aTime, [END_TOKEN]))
  }

  lemma TimesBind(mTime: int64, aTime: int64)
    requires mTime >= 0 && aTime >= 0
    ensures ParseTokens(TTokens(mTime, aTime)) == Ok(TMsg(mTime, aTime))
  {
    hide Digits, ParseInt64, BindAll, NumToken, PadZero;
    TimeRoundTrip(mTime);
    TimeRoundTrip(aTime);
    var end, space := [Binder(EndItem, NoField)], Binder(SpaceItem, NoField);
    var t2 := TimeTokens(aTime, [END_TOKEN]);
    assert TTokens(mTime, aTime)[1..] == TimeTokens(mTime, [SPACE_TOKEN] + t2);
    assert Binders(TMsg(0, 0)) == TimeBinders(MTimeField, [space] + TimeBinders(ATimeField, end));
    BindTime(TMsg(0, 0), MTimeField, mTime, [space] + TimeBinders(ATimeField, end), [SPACE_TOKEN] + t2);
    BindCons(TMsg(mTime, 0), space, TimeBinders(ATimeField, end), SPACE_TOKEN, t2);
    BindTime(TMsg(mTime, 0), ATimeField, aTime, end, [END_TOKEN]);
    BindCons(TMsg(mTime, aTime), end[0], [], END_TOKEN, []);
    BindNothing(TMsg(mTime, aTime));
    assert end == [end[0]] + [] && [END_TOKEN] + [] == [END_TOKEN];
  }

  lemma TimesRoundTrip(mTime: int64, aTime: int64)
    requires mTime >= 0 && aTime >= 0
    ensures Parse(Print(TMsg(mTime, aTime))) == Ok(TMsg(mTime, aTime))
  {
    var tokens := TTokens(mTime, aTime);
    TimesFit(mTime, aTime);
    var p, items := LexTokens(Start, tokens, [], 0);
    assert Items(Stopped, [], p) == [];
    assert Tokens(items) == tokens;
    TimesBind(mTime, aTime);
  }

  /** The tokens of a T line fit, and spell it. */
  lemma TimesFit(mTime: int64, aTime: int64)
    requires mTime >= 0 && aTime >= 0
    ensures var tokens := TTokens(mTime, aTime);
            && Fits(Start, tokens) && After(Start, tokens) == Stopped
            && Written(tokens, []) == Print(TMsg(mTime, aTime))
  {
    hide Digits, PadZero, Fits;
    var t2 := TimeTokens(aTime, [END_TOKEN]);
    FitsCons(AfterNumber, END_TOKEN, []);
    assert [END_TOKEN] + [] == [END_TOKEN];
    TimeTokensFit(AfterSpace, aTime, [END_TOKEN]);
    FitsCons(AfterNumber, SPACE_TOKEN, t2);
    TimeTokensFit(AfterType, mTime, [SPACE_TOKEN] + t2);
    FitsCons(Start, Token(TypeItem, [LETTER_T]), TimeTokens(mTime, [SPACE_TOKEN] + t2));
    assert Written([END_TOKEN], []) == [NEWLINE] + Written([], []) == [NEWLINE];
  }

  /** No line parses to a time before the epoch: number items have no sign. */
  lemma ParsedTimesAreNotNegative(line: bytes)
    requires Parse(line).Ok? && Parse(line).m.TMsg?
    ensures Parse(line).m.mTime >= 0 && Parse(line).m.aTime >= 0
  {
    hide Items, Tokens, BindAll;
    var tokens := Tokens(Items(Start, line, 0));
    var blank := Blank(tokens[0].val).m;
    BindKeepsKind(blank, Binders(blank), tokens[1..]);
  }

  /** Binding keeps the kind of a message, and its times stay non-negative. */
  lemma {:induction false} BindKeepsKind(m: Message, binders: seq<Binder>, tokens: seq<Token>)
    ensures var r := BindAll(m, binders, tokens);
            r.Ok? ==>
            Letter(r.m) == Letter(m) && (m.TMsg? && m.mTime >= 0 && m.aTime >= 0 ==> r.m.mTime >= 0 && r.m.aTime >= 0)
    decreases |binders|
  {
    if binders != [] && tokens != [] {
      BindKeepsKind(Bind(m, binders[0].field, tokens[0].val), binders[1..], tokens[1..]);
    }
  }

  /** The round trip, for every message: it succeeds exactly on the printable ones. */
  lemma PrintParse(m: Message)
    ensures Parse(Print(m)) == Ok(m) <==> Printable(m)
  {
    match m
    case CMsg(_, _, _) => NamedRoundTrip(m);
    case DMsg(_, _, _) => NamedRoundTrip(m);
    case EMsg =>
      var t := [Token(TypeItem, [LETTER_E])] + [END_TOKEN];
      FitsCons(AfterType, END_TOKEN, []);
      assert [END_TOKEN] + [] == [END_TOKEN];
      FitsCons(Start, Token(TypeItem, [LETTER_E]), [END_TOKEN]);
      assert Written([END_TOKEN], []) == [NEWLINE] + Written([], []) == [NEWLINE];
      var p, items := LexTokens(Start, t, [], 0);
      assert Written(t, []) == Print(m);
      assert Items(Stopped, [], p) == [];
      assert Tokens(items) == t && t[1..] == [END_TOKEN];
      assert Binders(EMsg)[1..] == [];
    case TMsg(mTime, aTime) =>
      if mTime >= 0 && aTime >= 0 {
        TimesRoundTrip(mTime, aTime);
      } else if Parse(Print(m)) == Ok(m) {
        ParsedTimesAreNotNegative(Print(m));
      }
  }

  ghost predicate NamesLexable(tokens: seq<Token>) {
    forall t :: t in tokens && t.typ.NameItem? ==> Lexable(t.val)
  }

  lemma NamesLexableCons(t: Token, tokens: seq<Token>)
    requires NamesLexable(tokens) && (t.typ.NameItem? ==> Lexable(t.val))
    ensures NamesLexable([t] + tokens)
  {
  }

  /** A run of path characters that does not start with a number is lexable. */
  lemma RunIsLexable(b: bytes)
    requires HasRune(b) && IsPathCharacter(DecodeRune(b).rune) && !IsNumber(DecodeRune(b).rune)
    ensures Lexable(b[..Span(IsPathCharacter, b)])
  {
    hide IsText, RuneCount, SpanRunes, IsNumber;
    var n, w := Span(IsPathCharacter, b), DecodeRune(b).width;
    SpanIsText(IsPathCharacter, b);
    SpanStopsAtNewline(IsPathCharacter, b);
    DecodeRuneIsLocal(b, []);
    DecodeRuneIsLocal(b[..w], b[w..n]);
    assert b[..n] == b[..w] + b[w..n];
  }

  /** A name item's value is such a run. */
  lemma FirstNameIsRun(st: Expect, b: bytes, pos: nat)
    requires Items(st, b, pos) != [] && Items(st, b, pos)[0].typ.NameItem?
    ensures HasRune(b) && IsPathCharacter(DecodeRune(b).rune) && !IsNumber(DecodeRune(b).rune)
    ensures Items(st, b, pos)[0].val == b[..Span(IsPathCharacter, b)]
  {
    hide IsText, RuneCount, DecodeRune, IsNumber;
  }

  lemma FirstNameIsLexable(st: Expect, b: bytes, pos: nat)
    ensures var items := Items(st, b, pos);
            items != [] && items[0].typ.NameItem? ==> Lexable(items[0].val)
  {
    hide Items, Lexable;
    if Items(st, b, pos) != [] && Items(st, b, pos)[0].typ.NameItem? {
      FirstNameIsRun(st, b, pos);
      RunIsLexable(b);
    }
  }

  /** Every name item the lexer emits is lexable. */
  lemma {:induction false} NameItemsAreLexable(st: Expect, b: bytes, pos: nat)
    ensures NamesLexable(Tokens(Items(st, b, pos)))
    decreases |b|
  {
    hide *;
    var typ, next, n, p := FirstToken(st, b, pos);
    if n == 0 {
      NoNames(Items(st, b, pos), pos);
    } else {
      FirstNameIsLexable(st, b, pos);
      NameItemsAreLexable(next, b[n..], p);
      TokensCons(LexItem(typ, b[..n], p), Items(next, b[n..], p));
      NamesLexableCons(Token(typ, b[..n]), Tokens(Items(next, b[n..], p)));
    }
  }

  lemma NoNames(items: seq<LexItem>, pos: nat)
    requires items == [] || items == [LexItem(ErrorItem, [], pos + 1)]
    ensures NamesLexable(Tokens(items))
  {
    assert items != [] ==> items[1..] == [];
  }

  lemma {:induction false} BoundNameIsLexable(m: Message, binders: seq<Binder>, tokens: seq<Token>)
    requires m.CMsg? || m.DMsg?
    requires NamesLexable(tokens)
    requires forall b :: b in binders && b.field.NameField? ==> b.typ.NameItem?
    requires Lexable(m.name) || exists b :: b in binders && b.field.NameField?
    ensures var r := BindAll(m, binders, tokens);
            r.Ok? ==> (r.m.CMsg? || r.m.DMsg?) && Lexable(r.m.name)
    decreases |binders|
  {
    if binders != [] && tokens != [] && tokens[0].typ == binders[0].typ {
      var m' := Bind(m, binders[0].field, tokens[0].val);
      assert forall b :: b in binders ==> b == binders[0] || b in binders[1..];
      BoundNameIsLexable(m', binders[1..], tokens[1..]);
    }
  }

  /** Whatever a line parses to can be printed, also where the conversion of a number failed. */
  lemma ParsedIsPrintable(line: bytes)
    requires Parse(line).Ok?
    ensures Printable(Parse(line).m)
  {
    hide Items, Tokens, BindAll, Lexable;
    var tokens := Tokens(Items(Start, line, 0));
    var blank := Blank(tokens[0].val).m;
    BindKeepsKind(blank, Binders(blank), tokens[1..]);
    if blank.CMsg? || blank.DMsg? {
      NameItemsAreLexable(Start, line, 0);
      assert HeaderBinders()[4].field.NameField?;
      BoundNameIsLexable(blank, HeaderBinders(), tokens[1..]);
    }
  }

  /** Parsing is stable: printing what a line parsed to and parsing that gives the same message. */
  lemma ParsePrintParse(line: bytes)
    requires Parse(line).Ok?
    ensures Parse(Print(Parse(line).m)) == Parse(line)
  {
    ParsedIsPrintable(line);
    PrintParse(Parse(line).m);
  }
}
