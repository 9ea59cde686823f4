/**
 What the lexer's items say about its input, for every byte string: they tile a prefix of it, their
 positions count its runes, and an end item closes them at the first newline.
 */
module ScpLexTiling {
  import opened ScpUtf8
  import opened ScpLex

  /** The values of the items before the first error item, one after the other. */
  function Tiles(items: seq<LexItem>): bytes {
    if items == [] || items[0].typ.ErrorItem? then [] else items[0].val + Tiles(items[1..])
  }

  /** The items form one word: types, numbers, spaces and names, then at most one end or error item. */
  ghost predicate EndsOnce(items: seq<LexItem>) {
    forall i :: 0 <= i < |items| && (items[i].typ.ErrorItem? || items[i].typ.EndItem?) ==> i == |items| - 1
  }

  ghost predicate PositionsCountRunes(items: seq<LexItem>, pos: nat) {
    forall i :: 0 <= i < |items| && !items[i].typ.ErrorItem? ==>
                  items[i].pos == pos + RuneCount(Tiles(items[..i + 1]))
  }

  ghost predicate HasEnd(items: seq<LexItem>) {
    items != [] && items[|items| - 1].typ.EndItem?
  }

  /** A run that refuses newlines holds none. */
  lemma {:induction false} SpanStopsAtNewline(accept: Rune -> bool, b: bytes)
    requires !accept(10)
    ensures NEWLINE !in b[..Span(accept, b)]
    decreases |b|
  {
    var d := DecodeRune(b);
    if d.rune != RUNE_ERROR && accept(d.rune) {
      SpanStopsAtNewline(accept, b[d.width..]);
      NewlineIsItsOwnRune(b);
      assert b[..Span(accept, b)] == b[..d.width] + b[d.width..][..Span(accept, b[d.width..])];
    }
  }

  /** What one emitted token is: text, with a newline in it only if it is the end item. */
  ghost predicate Token(typ: ItemType, b: bytes, n: nat) {
    && 0 < n <= |b| && IsText(b[..n]) && !typ.ErrorItem?
    && (if typ.EndItem? then b[..n] == [NEWLINE] else NEWLINE !in b[..n])
  }

  /** The items of b are none, an error, or one token and the items of the rest. */
  lemma FirstEmit(st: Expect, b: bytes, pos: nat) returns (typ: ItemType, next: Expect, n: nat)
    ensures n > 0 ==> Token(typ, b, n) && Items(st, b, pos) == Emit(typ, next, n, b, pos)
    ensures n > 0 && typ.EndItem? ==> next == Stopped
    ensures n == 0 ==> Items(st, b, pos) == [] || Items(st, b, pos) == [LexItem(ErrorItem, [], pos + 1)]
  {
    typ, next, n := ErrorItem, Stopped, 0;
    var d := DecodeRune(b);
    if st.Stopped? || !HasRune(b) {
      return;
    }
    DecodeRuneIsLocal(b, []);
    NewlineIsItsOwnRune(b);
    assert b[..d.width][d.width..] == [];
    match Choose(st, d.rune)
    case LexType => return TypeItem, AfterType, d.width;
    case LexSpace => return SpaceItem, AfterSpace, d.width;
    case LexEnd => return EndItem, Stopped, d.width;
    case LexNumber =>
      SpanIsText(IsNumber, b);
      SpanStopsAtNewline(IsNumber, b);
      return NumberItem, AfterNumber, Span(IsNumber, b);
    case LexName =>
      SpanIsText(IsPathCharacter, b);
      SpanStopsAtNewline(IsPathCharacter, b);
      if HasRune(b[Span(IsPathCharacter, b)..]) {
        return NameItem, AfterName, Span(IsPathCharacter, b);
      }
    case NoChoice =>
  }

  /** The same, with what the token is and what is emitted written out. */
  lemma FirstToken(st: Expect, b: bytes, pos: nat) returns (typ: ItemType, next: Expect, n: nat, pos': nat)
    ensures n <= |b|
    ensures n > 0 ==>
              && IsText(b[..n]) && !typ.ErrorItem? && pos' == pos + RuneCount(b[..n])
              && (if typ.EndItem? then b[..n] == [NEWLINE] && Items(next, b[n..], pos') == [] else NEWLINE !in b[..n])
              && Items(st, b, pos) == [LexItem(typ, b[..n], pos')] + Items(next, b[n..], pos')
    ensures n == 0 ==> Items(st, b, pos) == [] || Items(st, b, pos) == [LexItem(ErrorItem, [], pos + 1)]
  {
    hide Items, DecodeRune, IsText;
    typ, next, n := FirstEmit(st, b, pos);
    pos' := 0;
    if n > 0 {
      pos' := pos + RuneCount(b[..n]);
      if typ.EndItem? {
        NothingAfterEnd(b[n..], pos');
      }
    }
  }

  lemma NothingAfterEnd(b: bytes, pos: nat)
    ensures Items(Stopped, b, pos) == []
  {
  }

  /** Everything this module says of the items of input b, read from rune position pos on. */
  ghost predicate Tiled(items: seq<LexItem>, b: bytes, pos: nat) {
    && EndsOnce(items)
    && PositionsCountRunes(items, pos)
    && Tiles(items) <= b
    && (NEWLINE in Tiles(items) <==> HasEnd(items))
    && (HasEnd(items) ==> EndsAtFirstNewline(Tiles(items)))
  }

  ghost predicate EndsAtFirstNewline(tiles: bytes) {
    |tiles| > 0 && tiles[|tiles| - 1] == NEWLINE && NEWLINE !in tiles[..|tiles| - 1]
  }

  /** Putting a text token in front moves every later position by its rune count. */
  lemma PositionsShift(v: bytes, items: seq<LexItem>, more: seq<LexItem>, pos: nat)
    requires IsText(v) && |items| == |more| + 1 && items[1..] == more && items[0].val == v
    requires !items[0].typ.ErrorItem? && items[0].pos == pos + RuneCount(v)
    requires PositionsCountRunes(more, pos + RuneCount(v))
    ensures PositionsCountRunes(items, pos)
  {
    forall i | 0 <= i < |items| && !items[i].typ.ErrorItem?
      ensures items[i].pos == pos + RuneCount(Tiles(items[..i + 1]))
    {
      assert items[..i + 1][1..] == more[..i];
      RuneCountAppend(v, Tiles(more[..i]));
      if i > 0 {
        assert more[i - 1] == items[i];
      } else {
        assert Tiles(more[..0]) == [];
      }
    }
  }

  lemma EndsOnceShift(items: seq<LexItem>, more: seq<LexItem>)
    requires |items| == |more| + 1 && items[1..] == more && EndsOnce(more)
    requires !items[0].typ.ErrorItem? && !items[0].typ.EndItem?
    ensures EndsOnce(items) && (HasEnd(items) <==> HasEnd(more))
  {
    forall i | 0 <= i < |items| && (items[i].typ.ErrorItem? || items[i].typ.EndItem?) ensures i == |items| - 1 {
      assert more[i - 1] == items[i];
    }
  }

  /** Putting a newline-free word in front keeps where the newlines are. */
  lemma NewlineShift(v: bytes, tiles: bytes)
    requires NEWLINE !in v
    ensures NEWLINE in v + tiles <==> NEWLINE in tiles
    ensures EndsAtFirstNewline(tiles) ==> EndsAtFirstNewline(v + tiles)
  {
    if EndsAtFirstNewline(tiles) {
      assert (v + tiles)[..|v| + |tiles| - 1] == v + tiles[..|tiles| - 1];
    }
  }

  /** A token without a newline in front of tiled items. */
  lemma PrependToken(typ: ItemType, v: bytes, more: seq<LexItem>, rest: bytes, pos: nat)
    requires IsText(v) && NEWLINE !in v && !typ.ErrorItem? && !typ.EndItem?
    requires Tiled(more, rest, pos + RuneCount(v))
    ensures Tiled([LexItem(typ, v, pos + RuneCount(v))] + more, v + rest, pos)
  {
    var items := [LexItem(typ, v, pos + RuneCount(v))] + more;
    assert items[1..] == more;
    PositionsShift(v, items, more, pos);
    EndsOnceShift(items, more);
    NewlineShift(v, Tiles(more));
    assert Tiles(items) == v + Tiles(more);
  }

  /** The end item closes the items. */
  lemma LastToken(v: bytes, rest: bytes, pos: nat)
    requires v == [NEWLINE]
    ensures Tiled([LexItem(EndItem, v, pos + RuneCount(v))], v + rest, pos)
  {
    var items := [LexItem(EndItem, v, pos + RuneCount(v))];
    assert Tiles(items) == v + Tiles(items[1..]) == v;
    assert items[..0 + 1] == items;
  }

  /** No token: nothing, or only an error item. */
  lemma NoToken(items: seq<LexItem>, b: bytes, pos: nat)
    requires items == [] || items == [LexItem(ErrorItem, [], pos + 1)]
    ensures Tiled(items, b, pos)
  {
  }

  /** Every lexer state tiles what it reads. */
  lemma {:induction false} TilingFrom(st: Expect, b: bytes, pos: nat)
    ensures Tiled(Items(st, b, pos), b, pos)
    decreases |b|
  {
    hide *;
    var typ, next, n, pos' := FirstToken(st, b, pos);
    if n == 0 {
      NoToken(Items(st, b, pos), b, pos);
    } else {
      var v, rest := b[..n], b[n..];
      assert b == v + rest;
      if typ.EndItem? {
        LastToken(v, rest, pos);
        assert [LexItem(typ, v, pos')] + [] == [LexItem(typ, v, pos')];
      } else {
        TilingFrom(next, rest, pos');
        PrependToken(typ, v, Items(next, rest, pos'), rest, pos);
      }
    }
  }

  /**
   The lexer halts on every input, and the values of its items tile a prefix of it: positions count
   runes, an end or error item is the last, and an end item closes the prefix at the input's first newline.
   */
  lemma Tiling(b: bytes)
    ensures var items := Items(Start, b, 0);
            && EndsOnce(items) && PositionsCountRunes(items, 0)
            && Tiles(items) <= b
            && (NEWLINE in Tiles(items) <==> HasEnd(items))
            && (HasEnd(items) ==> b[|Tiles(items)| - 1] == NEWLINE && NEWLINE !in b[..|Tiles(items)| - 1])
  {
    TilingFrom(Start, b, 0);
    var tiles := Tiles(Items(Start, b, 0));
    if |tiles| > 0 {
      assert b[..|tiles|] == tiles;
      assert tiles[..|tiles| - 1] == b[..|tiles| - 1];
    }
  }
}
