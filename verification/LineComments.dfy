/**
 Cutting line comments off the lines of a job file, but not out of its string literals.
 */
module LineComments {

  const QUOTE := "\""
  const ESCAPED_QUOTE := "\\\""

  predicate At(line: string, i: nat, pattern: string) {
    i + |pattern| <= |line| && line[i..i + |pattern|] == pattern
  }

  /** strings.Index */
  function Index(s: string, pattern: string): (i: int)
    ensures -1 <= i < |s| + 1 && (i >= 0 ==> At(s, i, pattern))
    ensures forall j :: 0 <= j < (if i < 0 then |s| + 1 else i) ==> !At(s, j, pattern)
    decreases |s|
  {
    if At(s, 0, pattern) then 0
    else if s == "" then -1
    else
      var i := Index(s[1..], pattern);
      assert forall j :: 0 < j <= |s| ==> (At(s, j, pattern) <==> At(s[1..], j - 1, pattern)) by {
        forall j | 0 < j <= |s| ensures At(s, j, pattern) <==> At(s[1..], j - 1, pattern) {
          if j + |pattern| <= |s| {
            SliceOfRest(s, j, j + |pattern|);
          }
        }
      }
      if i < 0 then -1 else i + 1
  }

  lemma SliceOfRest(s: string, i: nat, j: nat)
    requires 0 < i <= j <= |s|
    ensures s[i..j] == s[1..][i - 1..j - 1]
  {
    assert |s[i..j]| == |s[1..][i - 1..j - 1]|;
    assert forall k :: 0 <= k < j - i ==> s[i..j][k] == s[i + k] == s[1..][i - 1..j - 1][k];
  }

  /** strings.Count, for a pattern that is not empty */
  function Count(s: string, pattern: string): nat
    requires pattern != ""
    decreases |s|
  {
    if s == "" then 0
    else if At(s, 0, pattern) then 1 + Count(s[|pattern|..], pattern)
    else Count(s[1..], pattern)
  }

  /** Double quotes in front of i, without those that follow a backslash. */
  function QuotesBefore(line: string, i: nat): int
    requires i <= |line|
  {
    Count(line[..i], QUOTE) - Count(line[..i], ESCAPED_QUOTE)
  }

  /** What the code takes for being inside a string literal. */
  predicate SeemsInString(line: string, i: nat)
    requires i <= |line|
  {
    QuotesBefore(line, i) % 2 != 0
  }

  /** A place where the line is cut. */
  predicate CutsAt(line: string, indicator: string, i: nat)
    requires i <= |line|
  {
    At(line, i, indicator) && !SeemsInString(line, i)
  }

  /** The code's indicators are "//" and "#". */
  predicate IsIndicator(indicator: string) {
    indicator != "" && '"' !in indicator && '\\' !in indicator
  }

  lemma CountFromFirst(s: string)
    requires s != ""
    ensures Count(s, QUOTE) == (if s[0] == '"' then 1 else 0) + Count(s[1..], QUOTE)
  {
    assert s[0..1] == [s[0]];
    assert At(s, 0, QUOTE) <==> s[0] == '"';
  }

  lemma CountEscapedFromFirst(s: string)
    requires |s| >= 2
    ensures Count(s, ESCAPED_QUOTE) ==
            if s[0] == '\\' && s[1] == '"' then 1 + Count(s[2..], ESCAPED_QUOTE) else Count(s[1..], ESCAPED_QUOTE)
  {
    assert s[0..2] == [s[0], s[1]];
    assert At(s, 0, ESCAPED_QUOTE) <==> s[0] == '\\' && s[1] == '"';
  }

  lemma NothingEscaped(s: string)
    requires |s| <= 1
    ensures Count(s, ESCAPED_QUOTE) == 0
  {
    if |s| == 1 {
      assert !At(s, 0, ESCAPED_QUOTE);
      assert s[1..] == "";
    }
  }

  lemma {:induction false} CountOneMore(s: string, c: char)
    ensures Count(s + [c], QUOTE) == Count(s, QUOTE) + if c == '"' then 1 else 0
    ensures Count(s + [c], ESCAPED_QUOTE) ==
            Count(s, ESCAPED_QUOTE) + if c == '"' && s != "" && s[|s| - 1] == '\\' then 1 else 0
    decreases |s|
  {
    hide Count;
    var t := s + [c];
    CountFromFirst(t);
    if s == "" {
      assert t[1..] == s;
      NothingEscaped(t);
      NothingEscaped(s);
    } else {
      assert t[1..] == s[1..] + [c];
      CountOneMore(s[1..], c);
      CountFromFirst(s);
      CountEscapedFromFirst(t);
      if |s| > 1 {
        assert t[2..] == s[2..] + [c];
        CountOneMore(s[2..], c);
        CountEscapedFromFirst(s);
      } else {
        assert t[2..] == "" && s[1..] == "";
        NothingEscaped(t[2..]);
        NothingEscaped(s);
      }
    }
  }

  /** A quote that follows no backslash turns inside to outside and outside to inside; nothing else does. */
  lemma SeemsAfter(line: string, i: nat)
    requires i < |line|
    ensures SeemsInString(line, i + 1) ==
            if line[i] == '"' && !(i > 0 && line[i - 1] == '\\') then !SeemsInString(line, i)
            else SeemsInString(line, i)
  {
    hide Count;
    assert line[..i + 1] == line[..i] + [line[i]];
    CountOneMore(line[..i], line[i]);
  }

  /** Over an indicator nothing changes. */
  lemma {:induction false} SameOverIndicator(line: string, indicator: string, i: nat, j: nat)
    requires At(line, i, indicator) && IsIndicator(indicator) && i <= j <= i + |indicator|
    ensures SeemsInString(line, j) == SeemsInString(line, i)
    decreases j
  {
    if j > i {
      SameOverIndicator(line, indicator, i, j - 1);
      SeemsAfter(line, j - 1);
      assert line[j - 1] == line[i..i + |indicator|][j - 1 - i] && line[j - 1] in indicator;
    }
  }

  /**
   The inner loop of removeLineComments: the line is cut at the first indicator that seems outside a string
   literal.
   */
  method RemoveLineComment(text: string, indicator: string) returns (line: string)
    requires IsIndicator(indicator)
    ensures exists n :: 0 <= n <= |text| && line == text[..n] && (n < |text| ==> CutsAt(text, indicator, n))
                        && forall i :: 0 <= i < n ==> !CutsAt(text, indicator, i)
  {
    line := text;
    var start := 0;
    while start < |line|
      invariant line == text && start <= |line|
      invariant forall i :: 0 <= i < start ==> !CutsAt(text, indicator, i)
      decreases |line| - start
    {
      var indicatorPos := Index(line[start..], indicator);
      AtInRest(line, start, indicator);
      if indicatorPos == -1 {
        assert forall i :: start <= i < |line| ==> !At(line, i, indicator);
        break;
      }
      indicatorPos := indicatorPos + start;
      assert At(line, indicatorPos, indicator);
      assert forall i :: start <= i < indicatorPos ==> !At(line, i, indicator);
      var numDoubleQuotes := Count(line[..indicatorPos], QUOTE) - Count(line[..indicatorPos], ESCAPED_QUOTE);
      if numDoubleQuotes % 2 == 0 {
        line := line[..indicatorPos];
        assert CutsAt(text, indicator, indicatorPos);
        return;
      }
      start := indicatorPos + |indicator|;
      forall i | indicatorPos <= i < start ensures !CutsAt(text, indicator, i) {
        SameOverIndicator(text, indicator, indicatorPos, i);
      }
    }
    assert line == text[..|text|];
  }

  lemma AtInRest(line: string, start: nat, pattern: string)
    requires start <= |line|
    ensures forall i :: start <= i <= |line| ==> (At(line, i, pattern) <==> At(line[start..], i - start, pattern))
  {
    forall i | start <= i <= |line| ensures At(line, i, pattern) <==> At(line[start..], i - start, pattern) {
      if i + |pattern| <= |line| {
        assert line[i..i + |pattern|] == line[start..][i - start..i - start + |pattern|];
      }
    }
  }

  // ---- string literals as section 7 of RFC 8259 has them

  datatype Place = Outside | Inside | AfterBackslash

  /** Where a line that starts outside a literal is after its first i characters. */
  function PlaceAt(line: string, i: nat): Place
    requires i <= |line|
  {
    if i == 0 then Outside
    else
      match PlaceAt(line, i - 1)
      case Outside => if line[i - 1] == '"' then Inside else Outside
      case Inside => if line[i - 1] == '\\' then AfterBackslash else if line[i - 1] == '"' then Outside else Inside
      case AfterBackslash => Inside
  }

  /** At i the code is right about where the line is. */
  predicate RightAt(line: string, i: nat)
    requires i <= |line|
  {
    SeemsInString(line, i) == !PlaceAt(line, i).Outside?
  }

  /** Each quote that follows a backslash is escaped by it. */
  predicate BackslashesEscape(line: string) {
    forall i :: 0 < i < |line| && line[i] == '"' && line[i - 1] == '\\' ==> PlaceAt(line, i).AfterBackslash?
  }

  lemma {:induction false} RightUpTo(line: string, i: nat)
    requires i <= |line|
    requires forall j :: 0 < j < i && line[j] == '"' && line[j - 1] == '\\' ==> PlaceAt(line, j).AfterBackslash?
    ensures RightAt(line, i)
    decreases i
  {
    if i > 0 {
      RightUpTo(line, i - 1);
      SeemsAfter(line, i - 1);
      if i > 1 {
        assert PlaceAt(line, i - 1).AfterBackslash? ==> line[i - 2] == '\\';
      }
    } else {
      assert line[..0] == "";
    }
  }

  /** The code is right everywhere in a line exactly if each backslash before a quote escapes it. */
  lemma RightExactlyIf(line: string)
    ensures (forall i :: 0 <= i <= |line| ==> RightAt(line, i)) <==> BackslashesEscape(line)
  {
    if BackslashesEscape(line) {
      forall i | 0 <= i <= |line| ensures RightAt(line, i) {
        RightUpTo(line, i);
      }
    }
    if forall i :: 0 <= i <= |line| ==> RightAt(line, i) {
      forall i | 0 < i < |line| && line[i] == '"' && line[i - 1] == '\\' ensures PlaceAt(line, i).AfterBackslash? {
        SeemsAfter(line, i);
        assert RightAt(line, i) && RightAt(line, i + 1);
      }
    }
  }

  /** No two backslashes in a row, and none outside a string literal. */
  predicate PlainBackslashes(line: string) {
    forall i :: 0 <= i < |line| && line[i] == '\\' ==>
      PlaceAt(line, i).Inside? && (i + 1 < |line| ==> line[i + 1] != '\\')
  }

  lemma PlainBackslashesEscape(line: string)
    requires PlainBackslashes(line)
    ensures BackslashesEscape(line)
  {
    forall i | 0 < i < |line| && line[i] == '"' && line[i - 1] == '\\' ensures PlaceAt(line, i).AfterBackslash? {
      assert PlaceAt(line, i - 1).Inside?;
    }
  }

  /** Where it is right, the line is cut at indicators outside of literals, and only there. */
  lemma CutsOutsideLiterals(line: string, indicator: string, i: nat)
    requires BackslashesEscape(line) && i <= |line|
    ensures CutsAt(line, indicator, i) <==> At(line, i, indicator) && PlaceAt(line, i).Outside?
  {
    RightUpTo(line, i);
  }

  lemma SeemsAtStart(line: string)
    ensures !SeemsInString(line, 0)
  {
    assert line[..0] == "";
  }

  /** A literal that ends in an escaped backslash is taken to go on, and the comment after it stays. */
  lemma EscapedBackslashFools(line: string)
    requires line == ['"', '\\', '\\', '"', '#']
    ensures PlaceAt(line, 4).Outside? && At(line, 4, "#") && !CutsAt(line, "#", 4)
  {
    hide SeemsInString, Count;
    assert PlaceAt(line, 0).Outside?;
    assert PlaceAt(line, 1).Inside?;
    assert PlaceAt(line, 2).AfterBackslash?;
    assert PlaceAt(line, 3).Inside?;
    assert PlaceAt(line, 4).Outside?;
    SeemsAtStart(line);
    SeemsAfter(line, 0);
    SeemsAfter(line, 1);
    SeemsAfter(line, 2);
    SeemsAfter(line, 3);
    assert line[4..5] == "#";
  }
}
