/**
 The four SCP messages: how they are printed, and how the items of a line are bound to their fields.
 */
module ScpMessages {
  import opened ScpUtf8
  import opened ScpStrconv
  import opened ScpLex

  /** Times are whole seconds since the epoch. */
  datatype Message =
    | CMsg(mode: uint32, length: uint64, name: bytes)
    | DMsg(mode: uint32, length: uint64, name: bytes)
    | EMsg
    | TMsg(mTime: int64, aTime: int64)

  const LETTER_C: byte := 67
  const LETTER_D: byte := 68
  const LETTER_E: byte := 69
  const LETTER_T: byte := 84

  /** A message as the source writes it (concatenated from the right, which is how a reader consumes it). */
  function Print(m: Message): bytes {
    match m
    case CMsg(mode, length, name) => [LETTER_C] + PrintHeader(mode, length, name)
    case DMsg(mode, length, name) => [LETTER_D] + PrintHeader(mode, length, name)
    case EMsg => [LETTER_E, NEWLINE]
    case TMsg(mTime, aTime) =>
      [LETTER_T] + (Decimal(mTime) + ([SPACE] + ([DIGIT_ZERO] + ([SPACE] +
      (Decimal(aTime) + ([SPACE] + ([DIGIT_ZERO] + [NEWLINE])))))))
  }

  function PrintHeader(mode: uint32, length: uint64, name: bytes): bytes {
    PadZero(Digits(mode, 8), 4) + ([SPACE] + (Digits(length, 10) + ([SPACE] + (name + [NEWLINE]))))
  }

  datatype Field = ModeField | LengthField | NameField | MTimeField | ATimeField | NoField

  datatype Binder = Binder(typ: ItemType, field: Field)

  /** The items a message expects after its type, and what each one sets. */
  function Binders(m: Message): seq<Binder> {
    match m
    case CMsg(_, _, _) => HeaderBinders()
    case DMsg(_, _, _) => HeaderBinders()
    case EMsg => [Binder(EndItem, NoField)]
    case TMsg(_, _) =>
      [Binder(NumberItem, MTimeField), Binder(SpaceItem, NoField),
       Binder(NumberItem, NoField), Binder(SpaceItem, NoField),
       Binder(NumberItem, ATimeField), Binder(SpaceItem, NoField),
       Binder(NumberItem, NoField), Binder(EndItem, NoField)]
  }

  function HeaderBinders(): seq<Binder> {
    [Binder(NumberItem, ModeField), Binder(SpaceItem, NoField),
     Binder(NumberItem, LengthField), Binder(SpaceItem, NoField),
     Binder(NameItem, NameField), Binder(EndItem, NoField)]
  }

  /** Sets one field; a conversion error is dropped and the value that came with it stays. */
  function Bind(m: Message, field: Field, val: bytes): Message {
    match m
    case CMsg(mode, length, name) =>
      (match field
       case ModeField => CMsg(ParseMode(val), length, name)
       case LengthField => CMsg(mode, ParseLength(val), name)
       case NameField => CMsg(mode, length, val)
       case _ => m)
    case DMsg(mode, length, name) =>
      (match field
       case ModeField => DMsg(ParseMode(val), length, name)
       case LengthField => DMsg(mode, ParseLength(val), name)
       case NameField => DMsg(mode, length, val)
       case _ => m)
    case TMsg(mTime, aTime) =>
      (match field
       case MTimeField => TMsg(ParseInt64(val), aTime)
       case ATimeField => TMsg(mTime, ParseInt64(val))
       case _ => m)
    case EMsg => m
  }

  function ParseMode(val: bytes): uint32 {
    ParsedInRange(0, val, 8, TWO_TO_THE_32 - 1);
    ParseUint(val, 8, TWO_TO_THE_32 - 1).value
  }

  function ParseLength(val: bytes): uint64 {
    ParsedInRange(0, val, 10, TWO_TO_THE_64 - 1);
    ParseUint(val, 10, TWO_TO_THE_64 - 1).value
  }

  /** LineEnded is io.EOF: the lexer stopped before the message was complete. */
  datatype ParseError = LineEnded | WrongItem(want: ItemType, got: ItemType) | UnknownType(val: bytes)

  datatype ParseResult = Ok(m: Message) | Err(error: ParseError)

  /** The message a type letter stands for, with all its fields zero. */
  function Blank(val: bytes): ParseResult {
    if val == [LETTER_C] then Ok(CMsg(0, 0, []))
    else if val == [LETTER_D] then Ok(DMsg(0, 0, []))
    else if val == [LETTER_E] then Ok(EMsg)
    else if val == [LETTER_T] then Ok(TMsg(0, 0))
    else Err(UnknownType(val))
  }

  /** An item without its position, which only error texts use. */
  datatype Token = Token(typ: ItemType, val: bytes)

  function Tokens(items: seq<LexItem>): seq<Token> {
    if items == [] then [] else [Token(items[0].typ, items[0].val)] + Tokens(items[1..])
  }

  function BindAll(m: Message, binders: seq<Binder>, tokens: seq<Token>): ParseResult
    decreases |binders|
  {
    if binders == [] then Ok(m)
    else if tokens == [] then Err(LineEnded)
    else if tokens[0].typ != binders[0].typ then Err(WrongItem(binders[0].typ, tokens[0].typ))
    else BindAll(Bind(m, binders[0].field, tokens[0].val), binders[1..], tokens[1..])
  }

  function ParseTokens(tokens: seq<Token>): ParseResult {
    if tokens == [] then Err(LineEnded)
    else if !tokens[0].typ.TypeItem? then Err(WrongItem(TypeItem, tokens[0].typ))
    else
      var blank := Blank(tokens[0].val);
      if blank.Err? then blank else BindAll(blank.m, Binders(blank.m), tokens[1..])
  }

  /** What a line means. */
  function Parse(line: bytes): ParseResult {
    ParseTokens(Tokens(Items(Start, line, 0)))
  }

  /** parseSCPMessage: takes the items one by one off the lexer. */
  method ParseSCPMessage(line: bytes) returns (r: ParseResult)
    ensures r == Parse(line)
  {
    var lexer := new Lexer(line);
    lexer.Run();
    var items := lexer.items;
    assert items == Items(Start, line, 0);
    if items == [] {
      return Err(LineEnded);
    }
    if !items[0].typ.TypeItem? {
      return Err(WrongItem(TypeItem, items[0].typ));
    }
    r := Blank(items[0].val);
    if r.Err? {
      return;
    }
    var m, binders := r.m, Binders(r.m);
    items := items[1..];
    assert binders[0..] == binders;
    for i := 0 to |binders|
      invariant BindAll(m, binders[i..], Tokens(items)) == Parse(line)
    {
      if items == [] {
        return Err(LineEnded);
      }
      if items[0].typ != binders[i].typ {
        return Err(WrongItem(binders[i].typ, items[0].typ));
      }
      m := Bind(m, binders[i].field, items[0].val);
      assert Tokens(items)[1..] == Tokens(items[1..]);
      items := items[1..];
      assert binders[i..][1..] == binders[i + 1..];
    }
    r := Ok(m);
  }
}
