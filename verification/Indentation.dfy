/** Indentation tokens: how the scanner turns the indentation of lines into open, close and new line tokens. */
module Indentation {
  import opened Guards

  datatype IndentToken = IndentNone | IndentNewLine | IndentOpen | IndentClose

  const NL: char := '\n'

  predicate IsBlank(c: char) {
    c as int <= 32
  }

  // ---------------------------------------------------------------- the indentation of a position

  /** First position of the line that holds position p. */
  function LineStart(src: seq<char>, p: nat): (s: nat)
    requires p <= |src|
    ensures s <= p && (s > 0 ==> src[s - 1] == NL) && forall i :: s <= i < p ==> src[i] != NL
  {
    if p == 0 || src[p - 1] == NL then p else LineStart(src, p - 1)
  }

  /** The input ends at p. */
  predicate Ends(src: seq<char>, p: nat) {
    p >= |src| || src[p] == '\0'
  }

  /** First position from p on that is not blank or where the input ends. */
  function Skip(src: seq<char>, p: nat): (q: nat)
    requires p <= |src|
    ensures p <= q <= |src| && (q == |src| || src[q] == '\0' || src[q] as int > 32)
    ensures forall i | p <= i < q :: src[i] as int <= 32 && src[i] != '\0'
    decreases |src| - p
  {
    if !Ends(src, p) && IsBlank(src[p]) then Skip(src, p + 1) else p
  }

  function Width(s: seq<char>, tabSize: nat): nat {
    if s == [] then 0 else Width(s[1..], tabSize) + if s[0] == '\t' then tabSize else 1
  }

  predicate AllBlank(s: seq<char>) {
    forall i :: 0 <= i < |s| ==> IsBlank(s[i])
  }

  /** Width of the blanks before p if p is the first non-blank position of its line, -1 otherwise. */
  function Indent(src: seq<char>, p: nat, tabSize: nat): (r: int)
    requires p <= |src|
    ensures r >= -1
  {
    var before := src[LineStart(src, p)..p];
    if AllBlank(before) then Width(before, tabSize) else -1
  }

  /** The line of p begins at s. */
  predicate BeginsLine(src: seq<char>, s: nat, p: nat) {
    s <= p <= |src| && (s == 0 || src[s - 1] == '\n') && forall i | s <= i < p :: src[i] != '\n'
  }

  /** With nothing but blanks between the begin of the line and p, a tab counts for the tab size, any other one for 1;
      otherwise there is no count. */
  ghost predicate CountedFrom(src: seq<char>, s: nat, p: nat, tabSize: nat, count: int)
    requires s <= p <= |src|
  {
    if forall i | s <= i < p :: src[i] as int <= 32 then
      var tabs := multiset(src[s..p])['\t'];
      count == tabSize * tabs + (p - s - tabs)
    else count == -1
  }

  lemma {:induction false} WidthCounts(s: seq<char>, tabSize: nat)
    ensures multiset(s)['\t'] <= |s|
    ensures Width(s, tabSize) == tabSize * multiset(s)['\t'] + (|s| - multiset(s)['\t'])
    decreases |s|
  {
    if s != [] {
      WidthCounts(s[1..], tabSize);
      assert s == [s[0]] + s[1..];
      assert multiset(s)['\t'] == multiset(s[1..])['\t'] + if s[0] == '\t' then 1 else 0;
      if s[0] == '\t' { OneTabMore(tabSize, multiset(s[1..])['\t']); }
    }
  }

  lemma {:induction false} OneTabMore(tabSize: nat, tabs: nat)
    ensures tabSize * (tabs + 1) == tabSize * tabs + tabSize
  {
  }

  lemma {:induction false} LineBeginUnique(src: seq<char>, s: nat, p: nat)
    requires BeginsLine(src, s, p)
    ensures s == LineStart(src, p)
  {
    var t := LineStart(src, p);
    assert forall i | s <= i < p :: src[i] != NL;
    assert forall i | t <= i < p :: src[i] != NL;
  }

  lemma {:induction false} IndentCounts(src: seq<char>, s: nat, p: nat, tabSize: nat)
    requires BeginsLine(src, s, p)
    ensures CountedFrom(src, s, p, tabSize, Indent(src, p, tabSize))
  {
    LineBeginUnique(src, s, p);
    var before := src[s..p];
    WidthCounts(before, tabSize);
    assert forall i | s <= i < p :: src[i] == before[i - s];
    assert forall i | 0 <= i < |before| :: before[i] == src[s + i];
  }

  // ---------------------------------------------------------------- one token

  /** Strictly increasing and positive. */
  predicate IsIndentStack(stk: seq<int>) {
    && (forall i :: 0 <= i < |stk| ==> stk[i] > 0)
    && (forall i, j :: 0 <= i < j < |stk| ==> stk[i] < stk[j])
  }

  datatype IndentState = IndentState(stk: seq<int>, consumed: bool)

  /** One call for the next indentation token at a position with indentation cnt, -1 inside a line. */
  function IndentStep(st: IndentState, cnt: int): (IndentToken, IndentState)
    requires cnt >= -1
  {
    if st.consumed then (IndentNone, st.(consumed := false))
    else if cnt == -1 then (IndentNone, st)
    else if cnt > TopIndent(st.stk) then (IndentOpen, st.(stk := st.stk + [cnt]))
    else if cnt < TopIndent(st.stk) then (IndentClose, st.(stk := st.stk[..|st.stk| - 1]))
    else (IndentNewLine, st.(consumed := true))
  }

  /** Indentation of the innermost open block; 0 outside of all blocks. */
  function TopIndent(stk: seq<int>): int {
    if stk == [] then 0 else stk[|stk| - 1]
  }

  /** The tokens delivered before the calls have nothing more to say, n calls at most, and the state then. */
  function IndentRun(st: IndentState, cnt: int, n: nat): (seq<IndentToken>, IndentState)
    requires cnt >= -1
    decreases n
  {
    if n == 0 then ([], st)
    else
      var (tok, st') := IndentStep(st, cnt);
      if tok == IndentNone then ([], st')
      else
        var (toks, end) := IndentRun(st', cnt, n - 1);
        ([tok] + toks, end)
  }

  /** Number of entries of the stack not deeper than cnt. */
  function Kept(stk: seq<int>, cnt: int): (k: nat)
    ensures k <= |stk|
    ensures IsIndentStack(stk) ==> (forall i :: 0 <= i < k ==> stk[i] <= cnt) && forall i ::
                                   k <= i < |stk| ==> stk[i] > cnt
  {
    if stk == [] || stk[|stk| - 1] <= cnt then |stk| else Kept(stk[..|stk| - 1], cnt)
  }

  function Times(n: nat, tok: IndentToken): (s: seq<IndentToken>)
    ensures |s| == n && forall i | 0 <= i < n :: s[i] == tok
  {
    if n == 0 then [] else [tok] + Times(n - 1, tok)
  }

  /** What a line with indentation cnt does: close all deeper blocks, open one if none has this indentation, new
      line. */
  function LineTokens(stk: seq<int>, cnt: int): seq<IndentToken> {
    var k := Kept(stk, cnt);
    Times(|stk| - k, IndentClose) + (if TopIndent(stk[..k]) == cnt then [] else [IndentOpen]) + [IndentNewLine]
  }

  function LineStack(stk: seq<int>, cnt: int): seq<int> {
    var k := Kept(stk, cnt);
    if TopIndent(stk[..k]) == cnt then stk[..k] else stk[..k] + [cnt]
  }

  /** The calls at the first lexem of a line deliver exactly these tokens, at most two more than there are open
      blocks. */
  lemma {:induction false} LineRun(stk: seq<int>, cnt: int, n: nat)
    requires IsIndentStack(stk) && cnt >= 0 && n > |stk| + 2
    ensures IndentRun(IndentState(stk, false), cnt, n) == (LineTokens(stk, cnt),
        IndentState(LineStack(stk, cnt), false))
    ensures |LineTokens(stk, cnt)| <= |stk| + 2 && IsIndentStack(LineStack(stk, cnt))
        && TopIndent(LineStack(stk, cnt)) == cnt
    decreases |stk|
  {
    if TopIndent(stk) > cnt {
      var rest := stk[..|stk| - 1];
      LineRun(rest, cnt, n - 1);
      ClosesOne(stk, cnt);
    } else {
      assert stk[..|stk|] == stk && Kept(stk, cnt) == |stk|;
      assert [] + [IndentOpen] + [IndentNewLine] == [IndentOpen] + [IndentNewLine]
          && [] + [] + [IndentNewLine] == [IndentNewLine];
      SettledRun(LineStack(stk, cnt), cnt, if TopIndent(stk) == cnt then n else n - 1);
    }
  }

  lemma {:induction false} ClosesOne(stk: seq<int>, cnt: int)
    requires cnt >= 0 && TopIndent(stk) > cnt
    ensures LineTokens(stk, cnt) == [IndentClose] + LineTokens(stk[..|stk| - 1], cnt)
        && LineStack(stk, cnt) == LineStack(stk[..|stk| - 1], cnt)
  {
    var rest, k := stk[..|stk| - 1], Kept(stk, cnt);
    assert k == Kept(rest, cnt) && rest[..k] == stk[..k];
  }

  /** When the block has the indentation of the line only the new line is left. */
  lemma {:induction false} SettledRun(stk: seq<int>, cnt: int, n: nat)
    requires TopIndent(stk) == cnt >= 0 && n >= 2
    ensures IndentRun(IndentState(stk, false), cnt, n) == ([IndentNewLine], IndentState(stk, false))
  {
    var mid := IndentState(stk, true);
    assert IndentStep(IndentState(stk, false), cnt) == (IndentNewLine, mid);
    assert IndentStep(mid, cnt) == (IndentNone, IndentState(stk, false));
    assert IndentRun(mid, cnt, n - 1) == ([], IndentState(stk, false));
    assert [IndentNewLine] + [] == [IndentNewLine];
  }

  /** From p to q the line number grows by the number of line ends between them. */
  ghost predicate LinesPassed(src: seq<char>, p: nat, q: nat, line: int, line': int) {
    forall z: int {:trigger Look(z)} :: Look(z) ==> p <= q <= |src| && line' == line + multiset(src[p..q])['\n']
  }

  lemma {:induction false} LinesStart(src: seq<char>, p: nat, line: int)
    requires p <= |src|
    ensures LinesPassed(src, p, p, line, line)
  {
  }

  lemma {:induction false} LinesMore(src: seq<char>, p: nat, q: nat, line: int, line': int)
    requires LinesPassed(src, p, q, line, line') && q < |src|
    ensures LinesPassed(src, p, q + 1, line, if src[q] == '\n' then line' + 1 else line')
  {
    assert Look(0);
    assert src[p..q + 1] == src[p..q] + [src[q]];
  }

  lemma {:induction false} LinesTrans(src: seq<char>, p: nat, q: nat, r: nat, a: int, b: int, c: int)
    requires LinesPassed(src, p, q, a, b) && LinesPassed(src, q, r, b, c)
    ensures LinesPassed(src, p, r, a, c)
  {
    assert Look(0);
    assert src[p..r] == src[p..q] + src[q..r];
  }

  // ---------------------------------------------------------------- the scanner

  datatype Match = NoMatch(size: nat) | Lexem(length: nat)

  datatype Token = Indentation(token: IndentToken) | Error(start: nat) | Found(start: nat, length: nat) | EndOfInput

  class Scanner {
    const src: seq<char>
    var pos: nat
    var line: int
    var indentstk: seq<int>
    var indentConsumed: bool
    ghost var opens: nat
    ghost var closes: nat

    ghost predicate Valid()
      reads this
    {
      pos <= |src| && IsIndentStack(indentstk) && opens - closes == |indentstk|
    }

    ghost function State(): IndentState
      reads this
    {
      IndentState(indentstk, indentConsumed)
    }

    predicate AtEnd()
      reads this
    {
      Ends(src, pos)
    }

    /** What matches at a position is not empty and lies inside the source. */
    ghost predicate MatchesInside(matching: nat -> Match) {
      forall p: nat | p < |src| :: match matching(p) case NoMatch(n) =>
                                   0 < n <= |src| - p case Lexem(n) => 0 < n <= |src| - p
    }

    constructor (src: seq<char>)
      ensures Valid() && State() == IndentState([], false) && pos == 0 && line == 1 && this.src == src
    {
      this.src := src;
      pos, line, indentstk, indentConsumed, opens, closes := 0, 1, [], false, 0, 0;
    }

    /** Step over incr characters and the blanks behind them. */
    method Next(incr: nat)
      requires Valid() && pos + incr <= |src|
      modifies this`pos, this`line
      ensures Valid() && pos == Skip(src, old(pos) + incr)
      ensures LinesPassed(src, old(pos), pos, old(line), line)
    {
      StepOver(incr);
      ghost var mid, before := pos, line;
      SkipBlanks();
      LinesTrans(src, old(pos), mid, pos, old(line), before, line);
    }

    method StepOver(incr: nat)
      requires pos + incr <= |src|
      modifies this`pos, this`line
      ensures pos == old(pos) + incr && LinesPassed(src, old(pos), pos, old(line), line)
    {
      var n := incr;
      LinesStart(src, pos, line);
      while n > 0
        invariant 0 <= n <= incr && pos == old(pos) + (incr - n)
        invariant LinesPassed(src, old(pos), pos, old(line), line)
      {
        LinesMore(src, old(pos), pos, old(line), line);
        if src[pos] == NL { line := line + 1; }
        pos := pos + 1;
        n := n - 1;
      }
    }

    method SkipBlanks()
      requires pos <= |src|
      modifies this`pos, this`line
      ensures pos == Skip(src, old(pos)) && LinesPassed(src, old(pos), pos, old(line), line)
    {
      LinesStart(src, pos, line);
      while pos < |src| && src[pos] != '\0' && IsBlank(src[pos])
        invariant pos <= |src| && Skip(src, pos) == Skip(src, old(pos))
        invariant LinesPassed(src, old(pos), pos, old(line), line)
      {
        LinesMore(src, old(pos), pos, old(line), line);
        if src[pos] == NL { line := line + 1; }
        pos := pos + 1;
      }
    }

    /** Indentation of the current position by looking back. */
    method IndentCount(tabSize: nat) returns (rt: int)
      requires Valid()
      ensures rt == Indent(src, pos, tabSize)
      ensures forall s: nat | BeginsLine(src, s, pos) :: CountedFrom(src, s, pos, tabSize, rt)
    {
      forall s: nat | BeginsLine(src, s, pos) ensures CountedFrom(src, s, pos, tabSize, Indent(src, pos, tabSize)) {
        IndentCounts(src, s, pos, tabSize);
      }
      rt := 0;
      var se := pos;
      while se > 0 && src[se - 1] != NL && IsBlank(src[se - 1])
        invariant 0 <= se <= pos && rt == Width(src[se..pos], tabSize) && AllBlank(src[se..pos])
        invariant LineStart(src, se) == LineStart(src, pos)
      {
        assert src[se - 1..pos][1..] == src[se..pos];
        rt := rt + if src[se - 1] == '\t' then tabSize else 1;
        se := se - 1;
      }
      if se > 0 && src[se - 1] != NL {
        assert src[LineStart(src, pos)..pos][se - 1 - LineStart(src, pos)] == src[se - 1];
        rt := -1;
      }
    }

    method GetIndentToken(tabSize: nat) returns (tok: IndentToken)
      requires Valid()
      modifies this`indentstk, this`indentConsumed, this`opens, this`closes
      ensures Valid() && (tok, State()) == IndentStep(old(State()), Indent(src, pos, tabSize))
      ensures opens == old(opens) + (if tok == IndentOpen then 1 else 0)
          && closes == old(closes) + if tok == IndentClose then 1 else 0
    {
      if indentConsumed {
        indentConsumed := false;
        return IndentNone;
      }
      var cnt := IndentCount(tabSize);
      if cnt == -1 {
        return IndentNone;
      }
      if indentstk == [] {
        if cnt == 0 {
          indentConsumed := true;
          return IndentNewLine;
        }
        indentstk := indentstk + [cnt];
        opens := opens + 1;
        return IndentOpen;
      }
      var bk := indentstk[|indentstk| - 1];
      if bk < cnt {
        indentstk := indentstk + [cnt];
        opens := opens + 1;
        return IndentOpen;
      } else if bk > cnt {
        indentstk := indentstk[..|indentstk| - 1];
        closes := closes + 1;
        return IndentClose;
      } else {
        indentConsumed := true;
        return IndentNewLine;
      }
    }

    method GetEofIndentToken() returns (tok: IndentToken)
      requires Valid()
      modifies this`indentstk, this`closes
      ensures Valid()
      ensures if old(indentstk) == [] then tok == IndentNone && indentstk == [] && closes == old(closes)
              else tok == IndentClose && indentstk == old(indentstk)[..|old(indentstk)| - 1]
                   && closes == old(closes) + 1
    {
      if indentstk == [] {
        return IndentNone;
      }
      indentstk := indentstk[..|indentstk| - 1];
      closes := closes + 1;
      return IndentClose;
    }

    /** The next lexem of a source without comments; what matches at a position is given. */
    method NextLexem(defined: bool, tabSize: nat, matching: nat -> Match) returns (tok: Token)
      requires Valid()
      requires MatchesInside(matching)
      modifies this
      ensures Valid() && pos >= old(pos)
      ensures !defined ==> State() == old(State()) && !tok.Indentation?
      ensures var start := Skip(src, old(pos));
              match tok
              case EndOfInput => pos == start && Ends(src, start)
                                 && (defined ==> old(indentstk) == [] && opens == closes) && State() == old(State())
              case Error(p) => p == start && pos > start && !Ends(src, start) && State() == old(State())
                               && matching(start).NoMatch?
              case Found(p, length) =>
                p == start && pos >= start + length > start && !Ends(src, start) && matching(start) == Lexem(length)
                && if defined then IndentStep(old(State()), Indent(src, start, tabSize)) == (IndentNone, State()) else
                    State() == old(State())
              case Indentation(t) =>
                pos == start && t != IndentNone
                && if Ends(src, start) then
                    t == IndentClose && old(indentstk) != [] && State()
                    == old(State()).(stk := old(indentstk)[..|old(indentstk)| - 1])
                   else IndentStep(old(State()), Indent(src, start, tabSize)) == (t, State()) && matching(start).Lexem?
    {
      Next(0);
      if AtEnd() {
        if defined {
          var eof := GetEofIndentToken();
          if eof == IndentClose {
            return Indentation(IndentClose);
          }
        }
        return EndOfInput;
      }
      var start := pos;
      match matching(pos)
      case NoMatch(n) =>
        Next(n);
        tok := Error(start);
      case Lexem(n) =>
        if defined {
          var ind := GetIndentToken(tabSize);
          if ind != IndentNone {
            return Indentation(ind);
          }
        }
        Next(n);
        tok := Found(start, n);
    }

    /** Everything up to the next token that is not for indentation: a first lexem of a line is preceded by the tokens
        of its line, the end of input by the closing of all open blocks. */
    method NextConsumed(tabSize: nat, matching: nat -> Match) returns (toks: seq<IndentToken>, tok: Token)
      requires Valid() && !indentConsumed
      requires MatchesInside(matching)
      modifies this
      ensures Valid() && !indentConsumed && |toks| <= |old(indentstk)| + 2
      ensures match tok
              case Indentation(_) => false
              case Error(_) => toks == [] && indentstk == old(indentstk)
              case EndOfInput => toks == Times(|old(indentstk)|, IndentClose) && indentstk == [] && opens == closes
              case Found(start, _) =>
                start <= |src| &&
                if Indent(src, start, tabSize) == -1 then toks == [] && indentstk == old(indentstk)
                else toks == LineTokens(old(indentstk), Indent(src, start, tabSize))
                     && indentstk == LineStack(old(indentstk), Indent(src, start, tabSize))
    {
      ghost var st0 := State();
      toks := [];
      tok := NextLexem(true, tabSize, matching);
      if tok.Indentation? && AtEnd() {
        toks := CloseAll(tok, tabSize, matching, st0.stk);
        tok := EndOfInput;
      } else if tok.Indentation? {
        LineRun(st0.stk, Indent(src, pos, tabSize), |st0.stk| + 3);
        toks, tok := FinishLine(tok, tabSize, matching, st0);
      } else if tok.Found? && Indent(src, tok.start, tabSize) != -1 {
        LineRun(st0.stk, Indent(src, tok.start, tabSize), |st0.stk| + 3);
      }
    }

    /** The closing tokens at the end of input. */
    method CloseAll(first: Token, tabSize: nat, matching: nat -> Match, ghost stk: seq<int>)
      returns (toks: seq<IndentToken>)
      requires Valid() && AtEnd() && Skip(src, pos) == pos && first == Indentation(IndentClose) && stk != []
          && indentstk == stk[..|stk| - 1]
      requires MatchesInside(matching)
      modifies this
      ensures Valid() && toks == Times(|stk|, IndentClose) && indentstk == [] && opens == closes
          && indentConsumed == old(indentConsumed)
    {
      toks := [IndentClose];
      var tok := NextLexem(true, tabSize, matching);
      while tok.Indentation?
        invariant Valid() && pos == old(pos) && indentConsumed == old(indentConsumed)
        invariant if tok.Indentation? then |toks| + 1 + |indentstk| == |stk| && tok.token == IndentClose
                  else tok == EndOfInput && indentstk == [] && opens == closes && |toks| == |stk|
        invariant toks == Times(|toks|, IndentClose)
        decreases |stk| - |toks|
      {
        TimesMore(|toks|, IndentClose);
        toks := toks + [tok.token];
        tok := NextLexem(true, tabSize, matching);
      }
    }

    /** The tokens of the line of the next lexem behind the first of them, and the lexem. */
    method FinishLine(first: Token, tabSize: nat, matching: nat -> Match, ghost st0: IndentState)
      returns (toks: seq<IndentToken>, tok: Token)
      requires Valid() && !AtEnd() && Skip(src, pos) == pos && first.Indentation? && MatchesInside(matching)
          && matching(pos).Lexem?
      requires !st0.consumed && IsIndentStack(st0.stk) && Indent(src, pos, tabSize) >= 0
      requires first.token != IndentNone && IndentStep(st0, Indent(src, pos, tabSize)) == (first.token, State())
      modifies this
      ensures Valid() && tok.Found? && tok.start == old(pos)
      ensures var cnt := Indent(src, old(pos), tabSize);
              toks == LineTokens(st0.stk, cnt) && State() == IndentState(LineStack(st0.stk, cnt), false)
    {
      ghost var cnt, limit := Indent(src, pos, tabSize), |st0.stk| + 3;
      ghost var all := IndentRun(st0, cnt, limit);
      LineRun(st0.stk, cnt, limit);
      RunStart(all, st0, cnt, limit);
      toks, tok := [], first;
      while tok.Indentation?
        invariant Valid() && |toks| < limit
        invariant tok.Indentation? ==> pos == old(pos) && tok.token != IndentNone
                                       && RunsOn(all, toks + [tok.token], State(), cnt, limit - |toks| - 1)
        invariant !tok.Indentation? ==> tok.Found? && tok.start == old(pos) && all == (toks, State())
        decreases limit - |toks|, tok.Indentation?
      {
        toks := toks + [tok.token];
        ghost var before := State();
        tok := NextLexem(true, tabSize, matching);
        RunStep(all, toks, before, cnt, limit - |toks|);
      }
    }
  }

  /** The tokens so far and those of the remaining calls are all. */
  ghost predicate RunsOn(all: (seq<IndentToken>, IndentState), toks: seq<IndentToken>, st: IndentState, cnt: int,
                         n: nat)
    requires cnt >= -1
  {
    var (rest, end) := IndentRun(st, cnt, n);
    all == (toks + rest, end)
  }

  lemma {:induction false} RunStart(all: (seq<IndentToken>, IndentState), st: IndentState, cnt: int, n: nat)
    requires cnt >= -1 && n >= 1 && all == IndentRun(st, cnt, n)
    ensures var (tok, st') := IndentStep(st, cnt);
            tok != IndentNone ==> RunsOn(all, [] + [tok], st', cnt, n - 1)
  {
    assert [] + all.0 == all.0;
    RunStep(all, [], st, cnt, n);
  }

  lemma {:induction false} RunStep(all: (seq<IndentToken>, IndentState), toks: seq<IndentToken>, st: IndentState,
                                   cnt: int, n: nat)
    requires cnt >= -1 && n >= 1 && RunsOn(all, toks, st, cnt, n)
    ensures var (tok, st') := IndentStep(st, cnt);
            |toks| <= |all.0| && if tok == IndentNone then all == (toks, st') else
                RunsOn(all, toks + [tok], st', cnt, n - 1)
  {
    var (tok, st') := IndentStep(st, cnt);
    if tok == IndentNone {
      assert toks + [] == toks;
    } else {
      var (rest, end) := IndentRun(st', cnt, n - 1);
      assert toks + ([tok] + rest) == (toks + [tok]) + rest;
    }
  }

  lemma {:induction false} TimesMore(n: nat, tok: IndentToken)
    ensures Times(n, tok) + [tok] == Times(n + 1, tok)
  {
    if n > 0 { TimesMore(n - 1, tok); }
  }
}
