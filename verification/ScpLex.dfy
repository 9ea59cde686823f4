/**
 The hand-written lexer for one line of the SCP protocol: a reader that decodes runes and can step
 back one rune, and a machine that emits typed items. The items' channel is the sequence `items`.
 */
module ScpLex {
  import opened ScpUtf8

  /** The runes above U+007F that count as numbers; unspecified, so every result holds for any such table. */
  const NUMBERS_BEYOND_ASCII: set<Rune>

  predicate IsNumber(r: Rune) {
    48 <= r <= 57 || (r >= 0x80 && r in NUMBERS_BEYOND_ASCII)
  }

  predicate IsPathCharacter(r: Rune) {
    r != 10
  }

  datatype ItemType = TypeItem | NameItem | NumberItem | SpaceItem | EndItem | ErrorItem

  datatype LexItem = LexItem(typ: ItemType, val: bytes, pos: nat)

  /** Which items may come next; each value stands for one set of states. */
  datatype Expect = Start | AfterType | AfterNumber | AfterSpace | AfterName | Stopped

  /** The state function the machine picks for rune r; None when no state accepts it. */
  datatype Choice = LexType | LexNumber | LexSpace | LexName | LexEnd | NoChoice

  function Choose(st: Expect, r: Rune): Choice {
    match st
    case Start => if r == 67 || r == 84 || r == 68 || r == 69 then LexType else NoChoice  // C, T, D, E
    case AfterType => if IsNumber(r) then LexNumber else if r == 10 then LexEnd else NoChoice
    case AfterNumber => if r == 32 then LexSpace else if r == 10 then LexEnd else NoChoice
    case AfterSpace => if IsNumber(r) then LexNumber else if IsPathCharacter(r) then LexName else NoChoice
    case AfterName => if r == 10 then LexEnd else NoChoice
    case Stopped => NoChoice
  }

  /** The number of bytes in the longest run of accepted runes that starts b. */
  function Span(accept: Rune -> bool, b: bytes): (n: nat)
    ensures n <= |b|
    decreases |b|
  {
    var d := DecodeRune(b);
    if d.rune != RUNE_ERROR && accept(d.rune) then d.width + Span(accept, b[d.width..]) else 0
  }

  /** The items the lexer emits for input b, when it is in state st and has read pos runes. */
  function Items(st: Expect, b: bytes, pos: nat): (items: seq<LexItem>)
    decreases |b|
  {
    var d := DecodeRune(b);
    if st.Stopped? || d.rune == RUNE_ERROR then
      []
    else
      match Choose(st, d.rune)
      case LexType => Emit(TypeItem, AfterType, d.width, b, pos)
      case LexNumber => Emit(NumberItem, AfterNumber, Span(IsNumber, b), b, pos)
      case LexSpace => Emit(SpaceItem, AfterSpace, d.width, b, pos)
      case LexName =>
        var n := Span(IsPathCharacter, b);
        if HasRune(b[n..]) then Emit(NameItem, AfterName, n, b, pos) else []
      case LexEnd => Emit(EndItem, Stopped, d.width, b, pos)
      case NoChoice => [LexItem(ErrorItem, [], pos + 1)]
  }

  /** One item of n bytes, then the items of what follows it. */
  function Emit(typ: ItemType, next: Expect, n: nat, b: bytes, pos: nat): seq<LexItem>
    requires 0 < n <= |b|
    decreases |b|, 0
  {
    var pos' := pos + RuneCount(b[..n]);
    [LexItem(typ, b[..n], pos')] + Items(next, b[n..], pos')
  }

  /** The number of runes in that run. */
  function SpanRunes(accept: Rune -> bool, b: bytes): nat
    decreases |b|
  {
    var d := DecodeRune(b);
    if d.rune != RUNE_ERROR && accept(d.rune) then 1 + SpanRunes(accept, b[d.width..]) else 0
  }

  /** A run of accepted runes is text. */
  lemma {:induction false} SpanIsText(accept: Rune -> bool, b: bytes)
    ensures IsText(b[..Span(accept, b)])
    ensures RuneCount(b[..Span(accept, b)]) == SpanRunes(accept, b)
    decreases |b|
  {
    var d := DecodeRune(b);
    if d.rune != RUNE_ERROR && accept(d.rune) {
      SpanIsText(accept, b[d.width..]);
      var n, w := Span(accept, b), d.width;
      DecodeRuneIsLocal(b, []);
      DecodeRuneIsLocal(b[..w], b[w..n]);
      assert b[..n] == b[..w] + b[w..n];
      assert b[..n][w..] == b[w..][..n - w];
    } else {
      assert b[..0] == [];
    }
  }

  /** Appending the next whole rune keeps a token text and counts one more rune. */
  lemma OneMore(token: bytes, rest: bytes, width: nat)
    requires IsText(token) && HasRune(rest) && width == DecodeRune(rest).width
    ensures IsText(token + rest[..width])
    ensures RuneCount(token + rest[..width]) == RuneCount(token) + 1
  {
    DecodeRuneIsLocal(rest, []);
    var one := rest[..width];
    assert one[width..] == [];
    IsTextAppend(token, one);
    RuneCountAppend(token, one);
  }

  class LexReader {
    var data: bytes
    var cur: nat
    var pos: nat
    var width: nat

    constructor (b: bytes)
      ensures data == b && cur == 0 && pos == 0
    {
      data, cur, pos, width := b, 0, 0, 0;
    }

    /** Takes the bytes read so far out of the buffer. */
    method GetData() returns (token: bytes)
      requires cur <= |data|
      modifies this
      ensures token == old(data[..cur]) && data == old(data[cur..]) && cur == 0 && pos == old(pos)
    {
      token, data := data[..cur], data[cur..];
      cur := 0;
    }

    /** Reads one rune; at the end of input, or where no rune starts, nothing is read. */
    method Next() returns (r: Rune, eof: bool)
      requires cur <= |data|
      modifies this
      ensures data == old(data) && r == DecodeRune(data[old(cur)..]).rune
      ensures eof <==> !HasRune(data[old(cur)..])
      ensures eof ==> cur == old(cur) && pos == old(pos)
      ensures !eof ==> width == DecodeRune(data[old(cur)..]).width && cur == old(cur) + width && pos == old(pos) + 1
      ensures cur <= |data|
    {
      var d := DecodeRune(data[cur..]);
      r, width := d.rune, d.width;
      if r != RUNE_ERROR {
        cur := cur + width;
        pos := pos + 1;
        return r, false;
      }
      return r, true;
    }

    method Backup()
      requires width <= cur && 1 <= pos
      modifies this
      ensures data == old(data) && width == old(width) && cur == old(cur) - width && pos == old(pos) - 1
    {
      cur := cur - width;
      pos := pos - 1;
    }

    /** Reads the longest run of accepted runes. */
    method AcceptFn(accept: Rune -> bool) returns (eof: bool)
      requires cur <= |data|
      modifies this
      ensures data == old(data)
      ensures cur == old(cur) + Span(accept, data[old(cur)..])
      ensures pos == old(pos) + SpanRunes(accept, data[old(cur)..])
      ensures cur <= |data|
      ensures eof <==> !HasRune(data[cur..])
    {
      ghost var c0, b := cur, data;
      while true
        invariant c0 <= cur <= |b| && data == b
        invariant pos + SpanRunes(accept, b[cur..]) == old(pos) + SpanRunes(accept, b[c0..])
        invariant cur + Span(accept, b[cur..]) == c0 + Span(accept, b[c0..])
        decreases |b| - cur
      {
        ghost var c := cur;
        var r;
        r, eof := Next();
        if eof {
          return;
        }
        if !accept(r) {
          Backup();
          return;
        }
        assert b[c..][width..] == b[cur..];
      }
    }
  }

  class Lexer {
    const input: LexReader
    var items: seq<LexItem>

    constructor (b: bytes)
      ensures fresh(input) && input.data == b && input.cur == 0 && input.pos == 0 && items == []
    {
      input := new LexReader(b);
      items := [];
    }

    method EmitItem(typ: ItemType)
      requires input.cur <= |input.data|
      modifies this, input
      ensures items == old(items) + [LexItem(typ, old(input.data[..input.cur]), old(input.pos))]
      ensures input.data == old(input.data[input.cur..]) && input.cur == 0 && input.pos == old(input.pos)
    {
      var token := input.GetData();
      items := items + [LexItem(typ, token, input.pos)];
    }

    method Error() returns (st: Expect)
      modifies this
      ensures st == Stopped && items == old(items) + [LexItem(ErrorItem, [], input.pos)]
    {
      st := Stopped;
      items := items + [LexItem(ErrorItem, [], input.pos)];
    }

    /** Lexes the whole input. */
    method Run()
      requires input.cur == 0
      modifies this, input
      ensures items == old(items) + Items(Start, old(input.data), old(input.pos))
    {
      var st := Start;
      while !st.Stopped?
        invariant !st.Stopped? ==> input.cur == 0
        invariant items + Items(st, input.data, input.pos) == old(items) + Items(Start, old(input.data), old(input.pos))
        decreases if st.Stopped? then 0 else 1 + |input.data|
      {
        ghost var b := input.data;
        assert b[0..] == b;
        var r, eof := input.Next();
        if eof {
          return;
        }
        match Choose(st, r) {
          case LexType => st := OneRune(TypeItem, AfterType, b);
          case LexSpace => st := OneRune(SpaceItem, AfterSpace, b);
          case LexEnd => st := OneRune(EndItem, Stopped, b);
          case LexNumber => st := Number(b);
          case LexName => st := Name(b);
          case NoChoice => st := Error();
        }
      }
    }

    /** The reader has just read the first rune of b, and b is all of its buffer. */
    ghost predicate ReadOne(b: bytes)
      reads input
    {
      input.data == b && HasRune(b) && input.cur == DecodeRune(b).width && input.pos > 0
    }

    /** lexType, lexSpace and lexEnd: an item of a single rune. */
    method OneRune(typ: ItemType, next: Expect, ghost b: bytes) returns (st: Expect)
      requires ReadOne(b)
      modifies this, input
      ensures st == next && input.cur == 0 && input.data == b[DecodeRune(b).width..]
      ensures items + Items(st, input.data, input.pos) ==
              old(items) + Emit(typ, next, DecodeRune(b).width, b, old(input.pos) - 1)
    {
      OneMore([], b, input.cur);
      assert [] + b[..input.cur] == b[..input.cur];
      EmitItem(typ);
      st := next;
    }

    /** lexNumber: the end of the input ends the number too. */
    method Number(ghost b: bytes) returns (st: Expect)
      requires ReadOne(b) && IsNumber(DecodeRune(b).rune)
      modifies this, input
      ensures st == AfterNumber && input.cur == 0 && input.data == b[Span(IsNumber, b)..]
      ensures items + Items(st, input.data, input.pos) ==
              old(items) + Emit(NumberItem, AfterNumber, Span(IsNumber, b), b, old(input.pos) - 1)
    {
      var _ := ReadOn(IsNumber, b);
      EmitItem(NumberItem);
      st := AfterNumber;
    }

    /** lexName: a name that the end of the input cuts off is not emitted. */
    method Name(ghost b: bytes) returns (st: Expect)
      requires ReadOne(b) && IsPathCharacter(DecodeRune(b).rune)
      modifies this, input
      ensures input.cur == 0 ==> |input.data| < |b|
      ensures var n := Span(IsPathCharacter, b);
              if HasRune(b[n..]) then
                && st == AfterName && input.cur == 0
                && items + Items(st, input.data, input.pos) ==
                   old(items) + Emit(NameItem, AfterName, n, b, old(input.pos) - 1)
              else
                st == Stopped && items == old(items)
    {
      var end := ReadOn(IsPathCharacter, b);
      if end {
        return Stopped;
      }
      EmitItem(NameItem);
      st := AfterName;
    }

    /** Reads on from an accepted first rune to the end of the run it starts. */
    method ReadOn(accept: Rune -> bool, ghost b: bytes) returns (eof: bool)
      requires ReadOne(b) && accept(DecodeRune(b).rune)
      modifies input
      ensures input.data == b && input.cur == Span(accept, b)
      ensures input.pos == old(input.pos) - 1 + RuneCount(b[..input.cur])
      ensures eof <==> !HasRune(b[input.cur..])
    {
      ghost var w := input.cur;
      eof := input.AcceptFn(accept);
      SpanIsText(accept, b);
      assert b[w..][Span(accept, b[w..])..] == b[input.cur..];
    }
  }
}
