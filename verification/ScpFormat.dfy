/**
 The format of the four messages, byte by byte: which letter stands for which message, which number for which field,
 and in which base. Lines of this form are read so, and printed lines are of this form.
 */
module ScpFormat {
  import opened ScpUtf8
  import opened ScpStrconv
  import opened ScpLex
  import opened ScpMessages
  import opened ScpRoundTrip
  import opened ScpSource

  /** Digits of a base up to ten, as ASCII. */
  predicate InBase(s: bytes, base: nat) {
    s != [] && forall c :: c in s ==> 48 <= c < 48 + base
  }

  /** The positional value of digits. */
  function Value(s: bytes, base: nat): nat
    decreases |s|
  {
    if s == [] then 0
    else
      var last := s[|s| - 1];
      Value(s[..|s| - 1], base) * base + if last < 48 then 0 else last - 48
  }

  function Least(a: nat, b: nat): nat {
    if a < b then a else b
  }

  // ---- the value of digits that are read

  lemma {:induction false} ReadOn(done: bytes, s: bytes, base: Radix, max: nat)
    requires (forall c :: c in done + s ==> 48 <= c < 48 + base) && Value(done, base) <= max
    ensures ParseFrom(Value(done, base), s, base, max).value == Least(Value(done + s, base), max)
    decreases |s|
  {
    if s == [] {
      assert done + s == done;
    } else {
      var done' := done + [s[0]];
      assert done'[..|done|] == done && done' + s[1..] == done + s;
      assert s[0] in done + s;
      if Value(done', base) <= max {
        ReadOn(done', s[1..], base, max);
      } else {
        ValueGrows(done', s[1..], base);
      }
    }
  }

  lemma {:induction false} ValueGrows(done: bytes, s: bytes, base: Radix)
    ensures Value(done + s, base) >= Value(done, base)
    decreases |s|
  {
    if s == [] {
      assert done + s == done;
    } else {
      var all := done + s;
      assert all[..|all| - 1] == done + s[..|s| - 1];
      ValueGrows(done, s[..|s| - 1], base);
      Times(Value(done + s[..|s| - 1], base), base);
    }
  }

  lemma Times(n: nat, base: Radix)
    ensures n * base >= n
  {
  }

  /** A number that is read is its digits' value, or the largest one there is. */
  lemma ReadValue(s: bytes, base: Radix, max: nat)
    requires InBase(s, base)
    ensures ParseUint(s, base, max).value == Least(Value(s, base), max)
  {
    assert [] + s == s;
    ReadOn([], s, base, max);
  }

  /** A number is printed with its value, and without zeros in front. */
  lemma {:induction false} PrintedValue(n: nat, base: Radix)
    ensures var s := Digits(n, base);
            InBase(s, base) && Value(s, base) == n && (|s| > 1 ==> s[0] != 48)
    decreases n
  {
    var s := Digits(n, base);
    assert forall c :: c in s ==> IsDigit(c, base);
    if n < base {
      assert s[..0] == [];
    } else {
      DivMod(n, base);
      PrintedValue(n / base, base);
      assert s[..|s| - 1] == Digits(n / base, base);
      if |s| == 2 {
        assert s[..1][0] == s[0];
        OneDigit(n / base, base);
      } else {
        assert s[..|s| - 1][0] == s[0];
      }
    }
  }

  lemma OneDigit(n: nat, base: Radix)
    requires n > 0 && |Digits(n, base)| == 1
    ensures Digits(n, base)[0] != 48
  {
  }

  lemma {:induction false} PaddedValue(s: bytes, width: nat, base: Radix)
    requires InBase(s, base)
    ensures var t := PadZero(s, width);
            && InBase(t, base) && Value(t, base) == Value(s, base)
            && |t| == (if |s| < width then width else |s|) && (|s| >= width ==> t == s)
    decreases width - |s|
  {
    if |s| < width {
      ZeroInFront(s, base);
      PaddedValue([48] + s, width, base);
    }
  }

  lemma {:induction false} ZeroInFront(s: bytes, base: Radix)
    ensures Value([48] + s, base) == Value(s, base)
    decreases |s|
  {
    var t := [48] + s;
    if s == [] {
      assert t[..0] == [];
    } else {
      assert t[..|t| - 1] == [48] + s[..|s| - 1];
      ZeroInFront(s[..|s| - 1], base);
    }
  }

  // ---- lines that are read

  function NamedMessage(c: byte, mode: uint32, length: uint64, name: bytes): Message {
    if c == 67 then CMsg(mode, length, name) else DMsg(mode, length, name)
  }

  function Number(s: bytes): Token {
    Token(NumberItem, s)
  }

  lemma InBaseAreDigits(s: bytes, base: Radix)
    requires InBase(s, base)
    ensures s != [] && AreDigits(s, 10)
  {
  }

  /** The tokens of a C or D line. */
  function NamedTokens(ds: bytes, es: bytes, name: bytes): seq<Token> {
    [Number(ds)] + ([SPACE_TOKEN] + ([Number(es)] + ([SPACE_TOKEN] + ([Token(NameItem, name)] + [END_TOKEN]))))
  }

  /**
   A line of a letter C or D, octal digits, a space, decimal digits, a space, a name and a newline is read as the
   message with that letter, mode, length and name.
   */
  lemma NamedLine(c: byte, ds: bytes, es: bytes, name: bytes)
    requires (c == 67 || c == 68) && InBase(ds, 8) && InBase(es, 10) && Lexable(name)
    ensures var mode, length := Least(Value(ds, 8), 0xFFFF_FFFF), Least(Value(es, 10), 0xFFFF_FFFF_FFFF_FFFF);
            Parse([c] + ds + [32] + es + [32] + name + [10]) ==
            Ok(if c == 67 then CMsg(mode, length, name) else DMsg(mode, length, name))
  {
    hide Digits, PadZero, ParseUint, ParseInt64, ParseMode, ParseLength, BindAll, Value, Parse, Items;
    var tokens := [Token(TypeItem, [c])] + NamedTokens(ds, es, name);
    NamedFits(c, ds, es, name);
    LexesTo(tokens);
    NamedFields(c, ds, es, name);
    ModeValue(ds);
    LengthValue(es);
    ThreeFromTheRight([c], ds, es, name);
    assert tokens[1..] == NamedTokens(ds, es, name);
    ParsedTokens(Written(tokens, []), tokens);
  }

  lemma ParsedTokens(line: bytes, tokens: seq<Token>)
    requires Tokens(Items(Start, line, 0)) == tokens
    ensures Parse(line) == ParseTokens(tokens)
  {
  }

  /** Fitting tokens up to the end of a line are the tokens of what they spell. */
  lemma LexesTo(tokens: seq<Token>)
    requires Fits(Start, tokens) && After(Start, tokens) == Stopped
    ensures Tokens(Items(Start, Written(tokens, []), 0)) == tokens
  {
    var p, items := LexTokens(Start, tokens, [], 0);
    assert Items(Stopped, [], p) == [];
    assert tokens + [] == tokens;
  }

  lemma NamedFits(c: byte, ds: bytes, es: bytes, name: bytes)
    requires (c == 67 || c == 68) && InBase(ds, 8) && InBase(es, 10) && Lexable(name)
    ensures var tokens := [Token(TypeItem, [c])] + NamedTokens(ds, es, name);
            && Fits(Start, tokens) && After(Start, tokens) == Stopped
            && Written(tokens, []) == [c] + (ds + ([32] + (es + ([32] + (name + [10])))))
  {
    hide Fits, Digits, PadZero;
    InBaseAreDigits(ds, 8);
    InBaseAreDigits(es, 10);
    var t5 := [END_TOKEN];
    var t4 := [Token(NameItem, name)] + t5;
    var t3 := [SPACE_TOKEN] + t4;
    var t2 := [Number(es)] + t3;
    var t1 := [SPACE_TOKEN] + t2;
    FitsNothing();
    FitsCons(AfterName, END_TOKEN, []);
    assert t5 == [END_TOKEN] + [];
    FitsCons(AfterSpace, Token(NameItem, name), t5);
    FitsCons(AfterNumber, SPACE_TOKEN, t4);
    FitsCons(AfterSpace, Number(es), t3);
    FitsCons(AfterNumber, SPACE_TOKEN, t2);
    FitsCons(AfterType, Number(ds), t1);
    FitsCons(Start, Token(TypeItem, [c]), [Number(ds)] + t1);
    assert Written([], []) == [] && [NEWLINE] + [] == [10];
  }

  lemma FitsNothing()
    ensures Fits(Stopped, [])
  {
  }

  /** The fields of a C or D line, whatever its numbers look like. */
  lemma NamedFields(c: byte, ds: bytes, es: bytes, name: bytes)
    requires c == 67 || c == 68
    ensures var blank := Blank([c]);
            && blank.Ok?
            && BindAll(blank.m, Binders(blank.m), NamedTokens(ds, es, name)) ==
               Ok(NamedMessage(c, ParseMode(ds), ParseLength(es), name))
  {
    hide ParseUint, BindAll, ParseMode, ParseLength;
    var mode, length := ParseMode(ds), ParseLength(es);
    var b, m := HeaderBinders(), Blank([c]).m;
    var t5 := [END_TOKEN];
    var t4 := [Token(NameItem, name)] + t5;
    var t3 := [SPACE_TOKEN] + t4;
    var t2 := [Number(es)] + t3;
    var b5 := [b[5]];
    var b4 := [b[4]] + b5;
    var b3 := [b[3]] + b4;
    var b2 := [b[2]] + b3;
    var b1 := [b[1]] + b2;
    assert b == [b[0]] + b1;
    BindCons(m, b[0], b1, Number(ds), [SPACE_TOKEN] + t2);
    BindCons(NamedMessage(c, mode, 0, []), b[1], b2, SPACE_TOKEN, t2);
    BindCons(NamedMessage(c, mode, 0, []), b[2], b3, Number(es), t3);
    BindCons(NamedMessage(c, mode, length, []), b[3], b4, SPACE_TOKEN, t4);
    BindCons(NamedMessage(c, mode, length, []), b[4], b5, Token(NameItem, name), t5);
    assert t5 == [END_TOKEN] + [] && b5 == [b[5]] + [];
    BindCons(NamedMessage(c, mode, length, name), b[5], [], END_TOKEN, []);
    BindNothing(NamedMessage(c, mode, length, name));
  }

  lemma ModeValue(ds: bytes)
    requires InBase(ds, 8)
    ensures ParseMode(ds) == Least(Value(ds, 8), 0xFFFF_FFFF)
  {
    hide ParseUint, Value;
    ReadValue(ds, 8, 0xFFFF_FFFF);
  }

  lemma LengthValue(es: bytes)
    requires InBase(es, 10)
    ensures ParseLength(es) == Least(Value(es, 10), 0xFFFF_FFFF_FFFF_FFFF)
  {
    hide ParseUint, Value;
    ReadValue(es, 10, 0xFFFF_FFFF_FFFF_FFFF);
  }

  /** Putting the parts of a line together from the left or from the right makes the same line. */
  lemma FourFromTheRight(c: bytes, m: bytes, u: bytes, t: bytes, v: bytes)
    ensures c + m + [32] + u + [32] + t + [32] + v + [10] ==
            c + (m + ([32] + (u + ([32] + (t + ([32] + (v + [10])))))))
  {
  }

  lemma ThreeFromTheRight(c: bytes, d: bytes, e: bytes, n: bytes)
    ensures c + d + [32] + e + [32] + n + [10] == c + (d + ([32] + (e + ([32] + (n + [10])))))
  {
  }

  /** The tokens of a T line. */
  function TimedTokens(ms: bytes, us: bytes, ts: bytes, vs: bytes): seq<Token> {
    [Number(ms)] + ([SPACE_TOKEN] + ([Number(us)] + ([SPACE_TOKEN] +
    ([Number(ts)] + ([SPACE_TOKEN] + ([Number(vs)] + [END_TOKEN]))))))
  }

  /** A line of the letter T and four numbers is read as the times given by the first and the third number. */
  lemma TimesLine(ms: bytes, us: bytes, ts: bytes, vs: bytes)
    requires InBase(ms, 10) && InBase(us, 10) && InBase(ts, 10) && InBase(vs, 10)
    ensures var mTime := Least(Value(ms, 10), 0x7FFF_FFFF_FFFF_FFFF);
            var aTime := Least(Value(ts, 10), 0x7FFF_FFFF_FFFF_FFFF);
            Parse([84] + ms + [32] + us + [32] + ts + [32] + vs + [10]) == Ok(TMsg(mTime, aTime))
  {
    hide Digits, PadZero, ParseUint, ParseInt64, ParseMode, ParseLength, BindAll, Value, Parse, Items;
    var tokens := [Token(TypeItem, [84])] + TimedTokens(ms, us, ts, vs);
    TimedFits(ms, us, ts, vs);
    LexesTo(tokens);
    TimedFields(ms, us, ts, vs);
    TimeValue(ms);
    TimeValue(ts);
    FourFromTheRight([84], ms, us, ts, vs);
    assert tokens[1..] == TimedTokens(ms, us, ts, vs);
    ParsedTokens(Written(tokens, []), tokens);
  }

  lemma TimedFits(ms: bytes, us: bytes, ts: bytes, vs: bytes)
    requires InBase(ms, 10) && InBase(us, 10) && InBase(ts, 10) && InBase(vs, 10)
    ensures var tokens := [Token(TypeItem, [84])] + TimedTokens(ms, us, ts, vs);
            && Fits(Start, tokens) && After(Start, tokens) == Stopped
            && Written(tokens, []) == [84] + (ms + ([32] + (us + ([32] + (ts + ([32] + (vs + [10])))))))
  {
    hide Fits, Digits, PadZero;
    InBaseAreDigits(ms, 10);
    InBaseAreDigits(us, 10);
    InBaseAreDigits(ts, 10);
    InBaseAreDigits(vs, 10);
    var t6 := [Number(vs)] + [END_TOKEN];
    var t5 := [SPACE_TOKEN] + t6;
    var t4 := [Number(ts)] + t5;
    var t3 := [SPACE_TOKEN] + t4;
    var t2 := [Number(us)] + t3;
    var t1 := [SPACE_TOKEN] + t2;
    FitsNothing();
    FitsCons(AfterNumber, END_TOKEN, []);
    assert [END_TOKEN] == [END_TOKEN] + [];
    FitsCons(AfterSpace, Number(vs), [END_TOKEN]);
    FitsCons(AfterNumber, SPACE_TOKEN, t6);
    FitsCons(AfterSpace, Number(ts), t5);
    FitsCons(AfterNumber, SPACE_TOKEN, t4);
    FitsCons(AfterSpace, Number(us), t3);
    FitsCons(AfterNumber, SPACE_TOKEN, t2);
    FitsCons(AfterType, Number(ms), t1);
    FitsCons(Start, Token(TypeItem, [84]), [Number(ms)] + t1);
    assert Written([], []) == [] && [NEWLINE] + [] == [10];
  }

  lemma TimedFields(ms: bytes, us: bytes, ts: bytes, vs: bytes)
    ensures var blank := Blank([84]);
            && blank.Ok?
            && BindAll(blank.m, Binders(blank.m), TimedTokens(ms, us, ts, vs)) ==
               Ok(TMsg(ParseInt64(ms), ParseInt64(ts)))
  {
    hide ParseUint, BindAll, ParseInt64;
    var mTime, aTime := ParseInt64(ms), ParseInt64(ts);
    var b, m := Binders(TMsg(0, 0)), Blank([84]).m;
    var t6 := [Number(vs)] + [END_TOKEN];
    var t5 := [SPACE_TOKEN] + t6;
    var t4 := [Number(ts)] + t5;
    var t3 := [SPACE_TOKEN] + t4;
    var t2 := [Number(us)] + t3;
    var b7 := [b[7]];
    var b6 := [b[6]] + b7;
    var b5 := [b[5]] + b6;
    var b4 := [b[4]] + b5;
    var b3 := [b[3]] + b4;
    var b2 := [b[2]] + b3;
    var b1 := [b[1]] + b2;
    assert b == [b[0]] + b1;
    BindCons(m, b[0], b1, Number(ms), [SPACE_TOKEN] + t2);
    BindCons(TMsg(mTime, 0), b[1], b2, SPACE_TOKEN, t2);
    BindCons(TMsg(mTime, 0), b[2], b3, Number(us), t3);
    BindCons(TMsg(mTime, 0), b[3], b4, SPACE_TOKEN, t4);
    BindCons(TMsg(mTime, 0), b[4], b5, Number(ts), t5);
    BindCons(TMsg(mTime, aTime), b[5], b6, SPACE_TOKEN, t6);
    BindCons(TMsg(mTime, aTime), b[6], b7, Number(vs), [END_TOKEN]);
    assert [END_TOKEN] == [END_TOKEN] + [] && b7 == [b[7]] + [];
    BindCons(TMsg(mTime, aTime), b[7], [], END_TOKEN, []);
    BindNothing(TMsg(mTime, aTime));
  }

  lemma TimeValue(s: bytes)
    requires InBase(s, 10)
    ensures ParseInt64(s) == Least(Value(s, 10), 0x7FFF_FFFF_FFFF_FFFF)
  {
    hide ParseUint, Value;
    ReadValue(s, 10, 0xFFFF_FFFF_FFFF_FFFF);
  }

  /** A line that is read at all is the message its first byte says: C, D, E or T. */
  lemma KindByLetter(line: bytes)
    requires Parse(line).Ok?
    ensures var m := Parse(line).m;
            && line != []
            && (m.CMsg? <==> line[0] == 67) && (m.DMsg? <==> line[0] == 68)
            && (m.EMsg? <==> line[0] == 69) && (m.TMsg? <==> line[0] == 84)
  {
    hide BindAll, Items, Tokens;
    var items := Items(Start, line, 0);
    var tokens := Tokens(items);
    FirstIsLetter(line);
    var blank := Blank(tokens[0].val).m;
    BindKeepsKind(blank, Binders(blank), tokens[1..]);
  }

  lemma FirstIsLetter(line: bytes)
    ensures var tokens := Tokens(Items(Start, line, 0));
            tokens != [] && tokens[0].typ.TypeItem? ==> line != [] && tokens[0].val == [line[0]]
  {
    if line != [] && line[0] < 0x80 {
      assert DecodeRune(line).width == 1 && line[..1] == [line[0]];
    }
  }

  // ---- no other lines are read

  /** Digits, and bytes that are no ASCII. */
  predicate LikeNumber(s: bytes) {
    s != [] && forall c :: c in s ==> 48 <= c < 58 || c >= 128
  }

  lemma {:induction false} NumberRun(b: bytes)
    ensures forall c :: c in b[..Span(IsNumber, b)] ==> 48 <= c < 58 || c >= 128
    decreases |b|
  {
    var d := DecodeRune(b);
    if d.rune != RUNE_ERROR && IsNumber(d.rune) {
      var n, w := Span(IsNumber, b), d.width;
      NumberRun(b[w..]);
      assert b[..n] == b[..w] + b[w..][..n - w];
    }
  }

  /** What an item of a type may hold. */
  predicate ItemForm(typ: ItemType, val: bytes) {
    match typ
    case TypeItem => val in {[67], [68], [69], [84]}
    case NumberItem => LikeNumber(val)
    case SpaceItem => val == [32]
    case EndItem => val == [10]
    case _ => true
  }

  lemma OneByte(b: bytes)
    requires b != [] && DecodeRune(b).rune < 0x80
    ensures DecodeRune(b).width == 1 && b[..1] == [DecodeRune(b).rune]
  {
  }

  lemma NumberForm(b: bytes)
    requires HasRune(b) && IsNumber(DecodeRune(b).rune)
    ensures 0 < Span(IsNumber, b) && LikeNumber(b[..Span(IsNumber, b)])
  {
    NumberRun(b);
  }

  lemma ChosenForm(st: Expect, b: bytes)
    requires b != [] && HasRune(b)
    ensures var d := DecodeRune(b);
            match Choose(st, d.rune)
            case LexType => ItemForm(TypeItem, b[..d.width])
            case LexNumber => ItemForm(NumberItem, b[..Span(IsNumber, b)])
            case LexSpace => ItemForm(SpaceItem, b[..d.width])
            case LexEnd => ItemForm(EndItem, b[..d.width])
            case _ => true
  {
    hide DecodeRune, Span, LikeNumber, IsNumber;
    var r := DecodeRune(b).rune;
    if r < 0x80 {
      OneByte(b);
    }
    if Choose(st, r).LexNumber? {
      NumberForm(b);
    }
  }

  lemma NoItemsOfNothing(st: Expect, pos: nat)
    ensures Items(st, [], pos) == []
  {
  }

  /** An item holds the first bytes of the input, and the other items are those of the rest. */
  lemma FirstItem(st: Expect, b: bytes, pos: nat) returns (rest: bytes)
    requires Items(st, b, pos) != [] && !Items(st, b, pos)[0].typ.ErrorItem?
    ensures var items := Items(st, b, pos);
            var item := items[0];
            && b == item.val + rest && ItemForm(item.typ, item.val)
            && items[1..] == Items(Next(item.typ), rest, item.pos)
  {
    hide DecodeRune, Span, IsNumber, RuneCount, LikeNumber, Choose;
    var item, items := Items(st, b, pos)[0], Items(st, b, pos);
    NoItemsOfNothing(st, pos);
    rest := b[|item.val|..];
    ChosenForm(st, b);
    var n := |item.val|;
    assert item.val == b[..n];
    assert items == [item] + Items(Next(item.typ), rest, item.pos);
  }

  /** The first items of an input hold its first bytes. */
  lemma {:induction false} FirstItems(st: Expect, b: bytes, pos: nat, k: nat) returns (rest: bytes)
    requires k <= |Tokens(Items(st, b, pos))|
    requires forall i :: 0 <= i < k ==> !Tokens(Items(st, b, pos))[i].typ.ErrorItem?
    ensures var tokens := Tokens(Items(st, b, pos));
            && b == Written(tokens[..k], rest)
            && forall i :: 0 <= i < k ==> ItemForm(tokens[i].typ, tokens[i].val)
    decreases k
  {
    hide Items, ItemForm;
    var items := Items(st, b, pos);
    var tokens := Tokens(items);
    if k == 0 {
      rest := b;
    } else {
      var others := Tokens(items[1..]);
      assert tokens == [Token(items[0].typ, items[0].val)] + others;
      assert forall i :: 0 <= i < k - 1 ==> others[i] == tokens[i + 1];
      assert !tokens[0].typ.ErrorItem?;
      var b' := FirstItem(st, b, pos);
      rest := FirstItems(Next(items[0].typ), b', items[0].pos, k - 1);
      assert tokens[..k][1..] == others[..k - 1];
    }
  }

  /** What is bound are the first tokens, and they are of the types that are expected. */
  lemma {:induction false} BoundTokens(m: Message, binders: seq<Binder>, tokens: seq<Token>)
    requires BindAll(m, binders, tokens).Ok?
    ensures |binders| <= |tokens| && forall i :: 0 <= i < |binders| ==> tokens[i].typ == binders[i].typ
    ensures BindAll(m, binders, tokens[..|binders|]) == BindAll(m, binders, tokens)
    decreases |binders|
  {
    if binders != [] {
      BoundTokens(Bind(m, binders[0].field, tokens[0].val), binders[1..], tokens[1..]);
      assert tokens[..|binders|][1..] == tokens[1..][..|binders| - 1];
    }
  }

  /** The tokens of a line that is read. */
  lemma ReadTokens(line: bytes) returns (tokens: seq<Token>, rest: bytes)
    requires Parse(line).Ok?
    ensures |tokens| > 0 && tokens[0].typ.TypeItem? && line == Written(tokens, rest)
    ensures forall i :: 0 <= i < |tokens| ==> ItemForm(tokens[i].typ, tokens[i].val)
    ensures var blank := Blank(tokens[0].val);
            && blank.Ok?
            && |tokens| == 1 + |Binders(blank.m)|
            && (forall i :: 0 < i < |tokens| ==> tokens[i].typ == Binders(blank.m)[i - 1].typ)
            && BindAll(blank.m, Binders(blank.m), tokens[1..]) == Parse(line)
  {
    hide Items, ItemForm, Binders, BindAll;
    var all := Tokens(Items(Start, line, 0));
    var blank := Blank(all[0].val).m;
    var n := |Binders(blank)|;
    BoundTokens(blank, Binders(blank), all[1..]);
    tokens := all[..n + 1];
    assert tokens[1..] == all[1..][..n];
    NoErrorBound(blank);
    forall i | 0 <= i < n + 1 ensures !all[i].typ.ErrorItem? {
      if i > 0 {
        assert all[i] == all[1..][i - 1];
      }
    }
    rest := FirstItems(Start, line, 0, n + 1);
  }

  lemma NoErrorBound(m: Message)
    ensures forall i :: 0 <= i < |Binders(m)| ==> !Binders(m)[i].typ.ErrorItem?
  {
  }

  lemma WrittenCons(token: Token, tokens: seq<Token>, tail: bytes)
    ensures Written([token] + tokens, tail) == token.val + Written(tokens, tail)
  {
    assert ([token] + tokens)[1..] == tokens;
  }

  lemma NamedWritten(c: byte, ds: bytes, es: bytes, name: bytes, rest: bytes)
    ensures Written([Token(TypeItem, [c])] + NamedTokens(ds, es, name), rest) ==
            [c] + ds + [32] + es + [32] + name + [10] + rest
  {
    hide Written;
    var t5 := [END_TOKEN];
    var t4 := [Token(NameItem, name)] + t5;
    var t3 := [SPACE_TOKEN] + t4;
    var t2 := [Number(es)] + t3;
    var t1 := [SPACE_TOKEN] + t2;
    WrittenEnd(rest);
    WrittenCons(Token(NameItem, name), t5, rest);
    WrittenCons(SPACE_TOKEN, t4, rest);
    WrittenCons(Number(es), t3, rest);
    WrittenCons(SPACE_TOKEN, t2, rest);
    WrittenCons(Number(ds), t1, rest);
    WrittenCons(Token(TypeItem, [c]), [Number(ds)] + t1, rest);
    var tail := [10] + rest;
    assert [c] + ds + [32] + es + [32] + name + [10] + rest ==
           [c] + (ds + ([32] + (es + ([32] + (name + tail)))));
  }

  lemma WrittenEnd(rest: bytes)
    ensures Written([END_TOKEN], rest) == [10] + rest
  {
    assert [END_TOKEN][1..] == [];
  }

  lemma BlankByLetter(val: bytes)
    requires Blank(val).Ok?
    ensures val == [Letter(Blank(val).m)]
  {
  }

  lemma NamedShape(tokens: seq<Token>) returns (c: byte, ds: bytes, es: bytes)
    requires |tokens| == 7 && tokens[0].typ.TypeItem? && (tokens[0].val == [67] || tokens[0].val == [68])
    requires forall i :: 0 < i < 7 ==> tokens[i].typ == HeaderBinders()[i - 1].typ
    requires forall i :: 0 <= i < 7 ==> ItemForm(tokens[i].typ, tokens[i].val)
    ensures (c == 67 || c == 68) && tokens[0].val == [c] && LikeNumber(ds) && LikeNumber(es)
    ensures tokens == [Token(TypeItem, [c])] + NamedTokens(ds, es, tokens[5].val)
    ensures tokens[1..] == NamedTokens(ds, es, tokens[5].val)
  {
    hide LikeNumber;
    c, ds, es := tokens[0].val[0], tokens[1].val, tokens[3].val;
    assert ItemForm(tokens[1].typ, ds) && ItemForm(tokens[3].typ, es);
    assert ItemForm(tokens[2].typ, tokens[2].val) && ItemForm(tokens[4].typ, tokens[4].val);
    assert ItemForm(tokens[6].typ, tokens[6].val);
  }

  /** A line that is read as a C or D message is of the form that is printed, but for the look of its numbers. */
  lemma NamedLinesOnly(line: bytes) returns (ds: bytes, es: bytes, rest: bytes)
    requires Parse(line).Ok? && (Parse(line).m.CMsg? || Parse(line).m.DMsg?)
    ensures var m := Parse(line).m;
            && line == [if m.CMsg? then 67 else 68] + ds + [32] + es + [32] + m.name + [10] + rest
            && LikeNumber(ds) && LikeNumber(es) && Lexable(m.name)
            && (InBase(ds, 8) ==> m.mode == Least(Value(ds, 8), 0xFFFF_FFFF))
            && (InBase(es, 10) ==> m.length == Least(Value(es, 10), 0xFFFF_FFFF_FFFF_FFFF))
  {
    hide Value, Parse, BindAll, Lexable, LikeNumber, Written, InBase, ParseMode, ParseLength, Blank, ItemForm;
    var tokens;
    tokens, rest := ReadTokens(line);
    var blank := Blank(tokens[0].val).m;
    ParsedIsPrintable(line);
    BlankByLetter(tokens[0].val);
    BindKeepsKind(blank, Binders(blank), tokens[1..]);
    var c;
    c, ds, es := NamedShape(tokens);
    var name := tokens[5].val;
    NamedFields(c, ds, es, name);
    NamedWritten(c, ds, es, name, rest);
    if InBase(ds, 8) {
      ModeValue(ds);
    }
    if InBase(es, 10) {
      LengthValue(es);
    }
  }

  lemma TimedWritten(ms: bytes, us: bytes, ts: bytes, vs: bytes, rest: bytes)
    ensures Written([Token(TypeItem, [84])] + TimedTokens(ms, us, ts, vs), rest) ==
            [84] + ms + [32] + us + [32] + ts + [32] + vs + [10] + rest
  {
    hide Written;
    var t6 := [Number(vs)] + [END_TOKEN];
    var t5 := [SPACE_TOKEN] + t6;
    var t4 := [Number(ts)] + t5;
    var t3 := [SPACE_TOKEN] + t4;
    var t2 := [Number(us)] + t3;
    var t1 := [SPACE_TOKEN] + t2;
    WrittenEnd(rest);
    WrittenCons(Number(vs), [END_TOKEN], rest);
    WrittenCons(SPACE_TOKEN, t6, rest);
    WrittenCons(Number(ts), t5, rest);
    WrittenCons(SPACE_TOKEN, t4, rest);
    WrittenCons(Number(us), t3, rest);
    WrittenCons(SPACE_TOKEN, t2, rest);
    WrittenCons(Number(ms), t1, rest);
    WrittenCons(Token(TypeItem, [84]), [Number(ms)] + t1, rest);
    var tail := [10] + rest;
    assert [84] + ms + [32] + us + [32] + ts + [32] + vs + [10] + rest ==
           [84] + (ms + ([32] + (us + ([32] + (ts + ([32] + (vs + tail)))))));
  }

  lemma TimedShape(tokens: seq<Token>) returns (ms: bytes, us: bytes, ts: bytes, vs: bytes)
    requires |tokens| == 9 && tokens[0].typ.TypeItem? && tokens[0].val == [84]
    requires forall i :: 0 < i < 9 ==> tokens[i].typ == Binders(TMsg(0, 0))[i - 1].typ
    requires forall i :: 0 <= i < 9 ==> ItemForm(tokens[i].typ, tokens[i].val)
    ensures LikeNumber(ms) && LikeNumber(us) && LikeNumber(ts) && LikeNumber(vs)
    ensures tokens == [Token(TypeItem, [84])] + TimedTokens(ms, us, ts, vs)
    ensures tokens[1..] == TimedTokens(ms, us, ts, vs)
  {
    hide LikeNumber;
    ms, us, ts, vs := tokens[1].val, tokens[3].val, tokens[5].val, tokens[7].val;
    assert ItemForm(tokens[1].typ, ms) && ItemForm(tokens[3].typ, us);
    assert ItemForm(tokens[5].typ, ts) && ItemForm(tokens[7].typ, vs);
    assert ItemForm(tokens[2].typ, tokens[2].val) && ItemForm(tokens[4].typ, tokens[4].val);
    assert ItemForm(tokens[6].typ, tokens[6].val) && ItemForm(tokens[8].typ, tokens[8].val);
  }

  /** A line that is read as a T message has four numbers, of which the first and the third are the times. */
  lemma TimesLinesOnly(line: bytes) returns (ms: bytes, us: bytes, ts: bytes, vs: bytes, rest: bytes)
    requires Parse(line).Ok? && Parse(line).m.TMsg?
    ensures var m := Parse(line).m;
            && line == [84] + ms + [32] + us + [32] + ts + [32] + vs + [10] + rest
            && LikeNumber(ms) && LikeNumber(us) && LikeNumber(ts) && LikeNumber(vs)
            && (InBase(ms, 10) ==> m.mTime == Least(Value(ms, 10), 0x7FFF_FFFF_FFFF_FFFF))
            && (InBase(ts, 10) ==> m.aTime == Least(Value(ts, 10), 0x7FFF_FFFF_FFFF_FFFF))
  {
    hide Value, Parse, BindAll, LikeNumber, Written, InBase, ParseInt64, Blank, ItemForm;
    var tokens;
    tokens, rest := ReadTokens(line);
    var blank := Blank(tokens[0].val).m;
    BlankByLetter(tokens[0].val);
    BindKeepsKind(blank, Binders(blank), tokens[1..]);
    ms, us, ts, vs := TimedShape(tokens);
    TimedFields(ms, us, ts, vs);
    TimedWritten(ms, us, ts, vs, rest);
    if InBase(ms, 10) {
      TimeValue(ms);
    }
    if InBase(ts, 10) {
      TimeValue(ts);
    }
  }

  /** A line that is read as an E message is the letter E and a newline. */
  lemma EndLinesOnly(line: bytes) returns (rest: bytes)
    requires Parse(line).Ok? && Parse(line).m.EMsg?
    ensures line == [69, 10] + rest
  {
    hide Parse, BindAll, Written, Blank, ItemForm;
    var tokens;
    tokens, rest := ReadTokens(line);
    var blank := Blank(tokens[0].val).m;
    BlankByLetter(tokens[0].val);
    BindKeepsKind(blank, Binders(blank), tokens[1..]);
    assert ItemForm(tokens[1].typ, tokens[1].val);
    NewlineForm(tokens[1]);
    assert tokens == [Token(TypeItem, [69])] + [END_TOKEN];
    WrittenEnd(rest);
    WrittenCons(Token(TypeItem, [69]), [END_TOKEN], rest);
  }

  lemma NewlineForm(token: Token)
    requires token.typ.EndItem? && ItemForm(token.typ, token.val)
    ensures token == END_TOKEN
  {
  }

  // ---- lines that are printed

  /**
   A C or D message is printed as its letter, its mode in at least four octal digits, its length in decimal digits and
   its name, with single spaces between them and a newline at the end, and with no more zeros in front than that.
   */
  lemma PrintedNamed(m: Message) returns (ds: bytes, es: bytes)
    requires m.CMsg? || m.DMsg?
    ensures Print(m) == [if m.CMsg? then 67 else 68] + ds + [32] + es + [32] + m.name + [10]
    ensures InBase(ds, 8) && Value(ds, 8) == m.mode && |ds| >= 4 && (|ds| > 4 ==> ds[0] != 48)
    ensures InBase(es, 10) && Value(es, 10) == m.length && (|es| > 1 ==> es[0] != 48)
  {
    hide Digits, PadZero, Value;
    ds, es := PadZero(Digits(m.mode, 8), 4), Digits(m.length, 10);
    PrintedValue(m.mode, 8);
    PaddedValue(Digits(m.mode, 8), 4, 8);
    PrintedValue(m.length, 10);
    ThreeFromTheRight([if m.CMsg? then 67 else 68], ds, es, m.name);
  }

  /** s is t in decimal digits, with a minus in front of a negative number. */
  predicate Denotes(s: bytes, t: int) {
    var ds := if t < 0 && s != [] then s[1..] else s;
    && (t < 0 ==> s != [] && s[0] == 45)
    && InBase(ds, 10) && Value(ds, 10) == (if t < 0 then -t else t) && (|ds| > 1 ==> ds[0] != 48)
  }

  lemma PrintedInteger(t: int)
    ensures Denotes(Decimal(t), t)
  {
    hide Value, Digits;
    PrintedValue(if t < 0 then -t else t, 10);
    if t < 0 {
      assert Decimal(t)[1..] == Digits(-t, 10);
    }
  }

  /** A T message is printed as the letter T and four numbers: the time of modification, 0, that of access, 0. */
  lemma PrintedTimes(mTime: int64, aTime: int64) returns (ms: bytes, ts: bytes)
    ensures Print(TMsg(mTime, aTime)) == [84] + ms + [32] + [48] + [32] + ts + [32] + [48] + [10]
    ensures Denotes(ms, mTime) && Denotes(ts, aTime)
  {
    hide Digits, Decimal, Denotes;
    ms, ts := Decimal(mTime), Decimal(aTime);
    PrintedInteger(mTime);
    PrintedInteger(aTime);
    FourFromTheRight([84], ms, [48], ts, [48]);
  }

  /** An E message is the letter E and a newline. */
  lemma EndLine()
    ensures Print(EMsg) == [69, 10] && Parse([69, 10]) == Ok(EMsg)
  {
    PrintParse(EMsg);
  }

  // ---- what a source announces

  /** mode has the nine lowest bits of full and no others. */
  predicate IsPermission(mode: int, full: int) {
    0 <= mode < 512 && (full - mode) % 512 == 0
  }

  lemma PermissionOfFew(mode: int, full: int)
    requires IsPermission(mode, full) && 0 <= full < 512
    ensures mode == full
  {
  }

  /** A file is announced by a C line with its permissions, its size, as a number without a sign, and its name. */
  lemma FileLine(n: Node) returns (ds: bytes, es: bytes)
    requires n.File?
    ensures Print(FileMessage(n)) == [67] + ds + [32] + es + [32] + n.name + [10]
    ensures InBase(ds, 8) && |ds| >= 4 && IsPermission(Value(ds, 8), n.mode)
    ensures InBase(es, 10) && Value(es, 10) < 0x1_0000_0000_0000_0000
    ensures Value(es, 10) - n.size == if n.size < 0 then 0x1_0000_0000_0000_0000 else 0
  {
    hide Value;
    ds, es := PrintedNamed(FileMessage(n));
  }

  /** A directory is announced by a D line with its permissions, a zero and its name. */
  lemma DirectoryLine(n: Node) returns (ds: bytes)
    requires n.Dir?
    ensures Print(DirMessage(n)) == [68] + ds + [32] + [48] + [32] + n.name + [10]
    ensures InBase(ds, 8) && |ds| >= 4 && IsPermission(Value(ds, 8), n.mode)
  {
    hide Value;
    var es;
    ds, es := PrintedNamed(DirMessage(n));
    ZeroIsZero(es);
  }

  lemma {:induction false} ZeroIsZero(es: bytes)
    requires InBase(es, 10) && Value(es, 10) == 0 && (|es| > 1 ==> es[0] != 48)
    ensures es == [48]
  {
    assert es[0] in es;
    if |es| > 1 {
      FirstDigitCounts(es);
    } else {
      assert es[..0] == [];
    }
  }

  lemma {:induction false} FirstDigitCounts(es: bytes)
    requires InBase(es, 10) && es[0] != 48
    ensures Value(es, 10) > 0
    decreases |es|
  {
    assert es[0] in es;
    if |es| > 1 {
      var front := es[..|es| - 1];
      assert front[0] == es[0];
      forall c | c in front ensures 48 <= c < 58 {
        assert c in es;
      }
      FirstDigitCounts(front);
    } else {
      assert es[..0] == [];
    }
  }

  /** Its times are announced by a T line, the time of modification first. */
  lemma StampLine(n: Node) returns (ms: bytes, ts: bytes)
    ensures Print(TimesMessage(n)) == [84] + ms + [32] + [48] + [32] + ts + [32] + [48] + [10]
    ensures Denotes(ms, n.times.mTime) && Denotes(ts, n.times.aTime)
  {
    ms, ts := PrintedTimes(n.times.mTime, n.times.aTime);
  }
}
