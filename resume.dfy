/** Tokenizing from a point in the source: the tokens of a text cut just
    before or just after a delimiter are the tokens of the two parts, the
    second moved on by the length of the first. This is what makes the text
    that `find_left` hands back tokenize to the tokens not yet read. */
module Resume {
  import opened Lexer

  /** A token without its location: its text and its offset. */
  function Key(t: Token): (string, int) { (t.value, t.where) }

  function Keys(ts: seq<Token>): seq<(string, int)> {
    if ts == [] then [] else Keys(ts[..|ts| - 1]) + [Key(ts[|ts| - 1])]
  }

  /** Every offset moved `d` characters on. */
  function Shifted(ks: seq<(string, int)>, d: int): seq<(string, int)> {
    if ks == [] then [] else Shifted(ks[..|ks| - 1], d) + [(ks[|ks| - 1].0, ks[|ks| - 1].1 + d)]
  }

  lemma {:induction false} KeysAt(ts: seq<Token>)
    ensures |Keys(ts)| == |ts|
    ensures forall i :: 0 <= i < |ts| ==> Keys(ts)[i] == Key(ts[i])
  {
    if ts != [] { KeysAt(ts[..|ts| - 1]); }
  }

  lemma {:induction false} KeysLength(ts: seq<Token>)
    ensures |Keys(ts)| == |ts|
  {
    if ts != [] { KeysLength(ts[..|ts| - 1]); }
  }

  lemma {:induction false} ShiftedAt(ks: seq<(string, int)>, d: int)
    ensures |Shifted(ks, d)| == |ks|
    ensures forall i :: 0 <= i < |ks| ==> Shifted(ks, d)[i] == (ks[i].0, ks[i].1 + d)
  {
    if ks != [] { ShiftedAt(ks[..|ks| - 1], d); }
  }

  lemma KeysSnoc(ts: seq<Token>, t: Token)
    ensures Keys(ts + [t]) == Keys(ts) + [Key(t)]
  {
    assert (ts + [t])[..|ts|] == ts;
  }

  lemma {:induction false} ShiftedAppend(ks: seq<(string, int)>, ls: seq<(string, int)>, d: int)
    ensures Shifted(ks + ls, d) == Shifted(ks, d) + Shifted(ls, d)
  {
    if ls == [] {
      assert ks + ls == ks;
    } else {
      var ls', l := ls[..|ls| - 1], ls[|ls| - 1];
      assert ks + ls == (ks + ls') + [l];
      assert (ks + ls)[..|ks + ls| - 1] == ks + ls';
      ShiftedAppend(ks, ls', d);
    }
  }

  /** The key of the run a delimiter flushes, if any. */
  function FlushKeys(where: int, pending: string): seq<(string, int)> {
    if pending != [] then [(pending, where - |pending|)] else []
  }

  /** The keys of the tokens one character adds. */
  function StepKeys(where: int, pending: string, c: char): seq<(string, int)> {
    if !IsDelimiter(c) then []
    else FlushKeys(where + 1, pending) + (if IsPunct(c) then [([c], where + 1)] else [])
  }

  lemma FlushedKeys(out: seq<Token>, pending: string, loc: Location, where: int)
    ensures Keys(Flushed(out, pending, loc, where)) == Keys(out) + FlushKeys(where, pending)
  {
    if pending != [] { KeysSnoc(out, Token(pending, loc, where - |pending|)); }
  }

  lemma LexCharKeys(st: LexState, c: char, time: int)
    ensures LexChar(st, c, time).where == st.where + 1
    ensures LexChar(st, c, time).pending == if IsDelimiter(c) then [] else st.pending + [c]
    ensures Keys(LexChar(st, c, time).out) == Keys(st.out) + StepKeys(st.where, st.pending, c)
  {
    if IsDelimiter(c) {
      DelimiterKeys(st, c, time);
    }
  }

  lemma DelimiterKeys(st: LexState, c: char, time: int)
    requires IsDelimiter(c)
    ensures Keys(LexChar(st, c, time).out) == Keys(st.out) + StepKeys(st.where, st.pending, c)
  {
    var line := if c == '\n' then st.line + 1 else st.line;
    var col := if c == '\n' then -1 else st.col + 1;
    var loc := Location(line, col - |st.pending|, time);
    var out1 := Flushed(st.out, st.pending, loc, st.where + 1);
    var t := Token([c], Location(line, col, time), st.where + 1);
    assert LexChar(st, c, time).out == if IsPunct(c) then out1 + [t] else out1;
    PunctKeys(st.out, st.pending, loc, st.where + 1, c, t);
  }

  lemma PunctKeys(out: seq<Token>, pending: string, loc: Location, where: int, c: char, t: Token)
    requires IsDelimiter(c) && t.value == [c] && t.where == where
    ensures Keys(if IsPunct(c) then Flushed(out, pending, loc, where) + [t] else Flushed(out, pending, loc, where))
            == Keys(out) + StepKeys(where - 1, pending, c)
  {
    FlushedKeys(out, pending, loc, where);
    if IsPunct(c) {
      KeysSnoc(Flushed(out, pending, loc, where), t);
    }
  }

  lemma ShiftedStepKeys(where: int, pending: string, c: char, d: int)
    ensures Shifted(StepKeys(where, pending, c), d) == StepKeys(where + d, pending, c)
  {
    if IsDelimiter(c) {
      ShiftedAppend(FlushKeys(where + 1, pending), if IsPunct(c) then [([c], where + 1)] else [], d);
      assert Shifted(FlushKeys(where + 1, pending), d) == FlushKeys(where + d + 1, pending) by {
        if pending != [] {
          assert Shifted(FlushKeys(where + 1, pending), d) == Shifted([], d) + [(pending, where + 1 - |pending| + d)];
        }
      }
      if IsPunct(c) {
        assert Shifted([([c], where + 1)], d) == Shifted([], d) + [([c], where + 1 + d)];
      }
    }
  }

  /** The state after reading `s` from the state `st`. */
  function LexFrom(st: LexState, s: string, time: int): LexState {
    if s == [] then st else LexChar(LexFrom(st, s[..|s| - 1], time), s[|s| - 1], time)
  }

  lemma {:induction false} LexPrefixThen(a: string, b: string, time: int)
    ensures LexPrefix(a + b, time) == LexFrom(LexPrefix(a, time), b, time)
  {
    if b == [] {
      assert a + b == a;
    } else {
      var b', c := b[..|b| - 1], b[|b| - 1];
      assert a + b == (a + b') + [c];
      LexPrefixSnoc(a + b', c, time);
      LexPrefixThen(a, b', time);
    }
  }

  lemma {:induction false} LexFromFront(st: LexState, c: char, r: string, time: int)
    ensures LexFrom(st, [c] + r, time) == LexFrom(LexChar(st, c, time), r, time)
  {
    if r != [] {
      var r' := r[..|r| - 1];
      assert ([c] + r)[..|r|] == [c] + r';
      LexFromFront(st, c, r', time);
    }
  }

  /** Two tokenizer states that read alike: offsets `d` apart, the same
      pending run, and the tokens of `x` are `pre` followed by those of `y`
      moved `d` on. */
  predicate Alike(x: LexState, y: LexState, d: int, pre: seq<(string, int)>) {
    && x.where == y.where + d
    && x.pending == y.pending
    && Keys(x.out) == pre + Shifted(Keys(y.out), d)
  }

  /** Two alike states stay alike when each adds the tokens of the same
      character. */
  lemma AlikeExtend(x: LexState, y: LexState, x': LexState, y': LexState,
                    d: int, pre: seq<(string, int)>, c: char)
    requires Alike(x, y, d, pre)
    requires x'.where == x.where + 1 && y'.where == y.where + 1
    requires x'.pending == y'.pending
    requires Keys(x'.out) == Keys(x.out) + StepKeys(x.where, x.pending, c)
    requires Keys(y'.out) == Keys(y.out) + StepKeys(y.where, y.pending, c)
    ensures Alike(x', y', d, pre)
  {
    ShiftedStepKeys(y.where, y.pending, c, d);
    var ky, sy := Keys(y.out), StepKeys(y.where, y.pending, c);
    assert Keys(x'.out) == (pre + Shifted(ky, d)) + Shifted(sy, d);
    ShiftTail(pre, ky, sy, d);
    assert Keys(x'.out) == pre + Shifted(Keys(y'.out), d);
  }

  lemma ShiftTail(pre: seq<(string, int)>, ks: seq<(string, int)>, ls: seq<(string, int)>, d: int)
    ensures (pre + Shifted(ks, d)) + Shifted(ls, d) == pre + Shifted(ks + ls, d)
  {
    ShiftedAppend(ks, ls, d);
  }

  lemma AlikeStep(x: LexState, y: LexState, d: int, pre: seq<(string, int)>, c: char, time: int)
    requires Alike(x, y, d, pre)
    ensures Alike(LexChar(x, c, time), LexChar(y, c, time), d, pre)
  {
    LexCharKeys(x, c, time);
    LexCharKeys(y, c, time);
    AlikeExtend(x, y, LexChar(x, c, time), LexChar(y, c, time), d, pre, c);
  }

  lemma {:induction false} AlikeRun(x: LexState, y: LexState, d: int, pre: seq<(string, int)>, s: string, time: int)
    requires Alike(x, y, d, pre)
    ensures Alike(LexFrom(x, s, time), LexFrom(y, s, time), d, pre)
  {
    if s != [] {
      AlikeRun(x, y, d, pre, s[..|s| - 1], time);
      AlikeStep(LexFrom(x, s[..|s| - 1], time), LexFrom(y, s[..|s| - 1], time), d, pre, s[|s| - 1], time);
    }
  }

  lemma ShiftedFlushKeys(where: int, pending: string, d: int)
    ensures Shifted(FlushKeys(where, pending), d) == FlushKeys(where + d, pending)
  {
    if pending != [] {
      assert Shifted(FlushKeys(where, pending), d) == Shifted([], d) + [(pending, where - |pending| + d)];
    }
  }

  lemma AlikeFlush(x: LexState, y: LexState, d: int, pre: seq<(string, int)>, time: int)
    requires Alike(x, y, d, pre)
    ensures Keys(Flush(x, time)) == pre + Shifted(Keys(Flush(y, time)), d)
  {
    FlushKeysOf(x, x.where + 1, time);
    FlushKeysOf(y, y.where + 1, time);
    ShiftedFlushKeys(y.where + 1, y.pending, d);
    var ky, fy := Keys(y.out), FlushKeys(y.where + 1, y.pending);
    assert Keys(Flush(x, time)) == (pre + Shifted(ky, d)) + Shifted(fy, d);
    ShiftTail(pre, ky, fy, d);
  }

  /** After `a` the offset is that of its last character, and nothing is
      pending when `a` is empty or ends with a delimiter. */
  lemma PrefixEnd(a: string, time: int)
    ensures LexPrefix(a, time).where == |a| - 1
    ensures a == [] || IsDelimiter(a[|a| - 1]) ==> LexPrefix(a, time).pending == []
  {
    LexPrefixGood(a, time);
  }

  lemma TokenizeKeys(a: string, time: int)
    ensures Keys(Tokenize(a, time)) == Keys(LexPrefix(a, time).out) + FlushKeys(|a|, LexPrefix(a, time).pending)
  {
    PrefixEnd(a, time);
    FlushKeysOf(LexPrefix(a, time), |a|, time);
  }

  lemma FlushKeysOf(x: LexState, w: int, time: int)
    requires x.where == w - 1
    ensures Keys(Flush(x, time)) == Keys(x.out) + FlushKeys(w, x.pending)
  {
    FlushedKeys(x.out, x.pending, Location(x.line, x.col - |x.pending| + 1, time), w);
  }

  /** The tokens the first character of `b` adds after `a`, when the two
      are cut at a delimiter: the run `a` leaves pending, then those the
      character adds on its own, moved on. */
  lemma StepKeysSplit(w: int, p: string, c: char)
    requires p == [] || IsDelimiter(c)
    ensures StepKeys(w - 1, p, c) == FlushKeys(w, p) + Shifted(StepKeys(-1, [], c), w)
  {
    if IsDelimiter(c) {
      assert FlushKeys(0, []) == [];
      if IsPunct(c) {
        assert Shifted([([c], 0)], w) == Shifted([], w) + [([c], w)];
      }
    }
  }

  /** The states after the first character of `b`, read after `a` (which
      ends at offset `w`) and alone, are alike. */
  lemma FirstAlike(x: LexState, x': LexState, y': LexState, w: int, pre: seq<(string, int)>, c: char)
    requires x.where == w - 1 && (x.pending == [] || IsDelimiter(c))
    requires pre == Keys(x.out) + FlushKeys(w, x.pending)
    requires x'.where == w && y'.where == 0 && x'.pending == y'.pending
    requires Keys(x'.out) == Keys(x.out) + StepKeys(x.where, x.pending, c)
    requires Keys(y'.out) == StepKeys(-1, [], c)
    ensures Alike(x', y', w, pre)
  {
    StepKeysSplit(w, x.pending, c);
    var kx, fk, sk := Keys(x.out), FlushKeys(w, x.pending), Shifted(StepKeys(-1, [], c), w);
    assert Keys(x'.out) == kx + (fk + sk);
    assert kx + (fk + sk) == (kx + fk) + sk;
  }

  /** After the first character of `b` the tokenizer reads `a + b` as it
      reads `b` alone, once the tokens of `a` are out of the way. */
  lemma FirstStepAlike(a: string, c: char, time: int)
    requires a == [] || IsDelimiter(a[|a| - 1]) || IsDelimiter(c)
    ensures Alike(LexChar(LexPrefix(a, time), c, time), LexChar(Initial, c, time), |a|, Keys(Tokenize(a, time)))
  {
    var x := LexPrefix(a, time);
    PrefixEnd(a, time);
    LexCharKeys(x, c, time);
    LexCharKeys(Initial, c, time);
    assert Keys(Initial.out) == [];
    assert [] + [c] == [c];
    TokenizeKeys(a, time);
    FirstAlike(x, LexChar(x, c, time), LexChar(Initial, c, time), |a|, Keys(Tokenize(a, time)), c);
  }

  /** Cutting the source just before a delimiter, or just after one, cuts
      its token stream there: the tokens of `a + b` are those of `a`
      followed by those of `b` with their offsets moved `|a|` on (only the
      lines and columns differ). */
  lemma TokenizeSplit(a: string, b: string, time: int)
    requires b != [] && (a == [] || IsDelimiter(a[|a| - 1]) || IsDelimiter(b[0]))
    ensures Keys(Tokenize(a + b, time)) == Keys(Tokenize(a, time)) + Shifted(Keys(Tokenize(b, time)), |a|)
  {
    var c, r := b[0], b[1..];
    assert b == [c] + r;
    LexPrefixThen(a, b, time);
    LexFromFront(LexPrefix(a, time), c, r, time);
    LexPrefixThen([], b, time);
    assert [] + b == b;
    LexFromFront(Initial, c, r, time);
    var x := LexChar(LexPrefix(a, time), c, time);
    var y := LexChar(Initial, c, time);
    FirstStepAlike(a, c, time);
    AlikeRun(x, y, |a|, Keys(Tokenize(a, time)), r, time);
    AlikeFlush(LexFrom(x, r, time), LexFrom(y, r, time), |a|, Keys(Tokenize(a, time)), time);
  }

  /** Cut at offset `w`, the tokens of the source are `n` tokens before
      `w` followed by those of the text from `w` on, each moved `w` on. */
  lemma SplitTokens(s: string, w: int, time: int) returns (n: nat)
    requires 0 <= w < |s| && (w == 0 || IsDelimiter(s[w - 1]) || IsDelimiter(s[w]))
    ensures |Tokenize(s, time)| == n + |Tokenize(s[w..], time)|
    ensures forall i :: 0 <= i < n ==> Tokenize(s, time)[i].where < w
    ensures forall j :: n <= j < |Tokenize(s, time)| ==>
              Tokenize(s, time)[j].value == Tokenize(s[w..], time)[j - n].value &&
              Tokenize(s, time)[j].where == Tokenize(s[w..], time)[j - n].where + w
  {
    var ts, ta, tb := Tokenize(s, time), Tokenize(s[..w], time), Tokenize(s[w..], time);
    assert s == s[..w] + s[w..];
    TokenizeSplit(s[..w], s[w..], time);
    TokensBefore(s[..w], time);
    n := |ta|;
    KeysFront(ts, ta, Shifted(Keys(tb), w));
    KeysLength(ta);
    KeysBack(ts, Keys(ta), tb, n, w);
  }

  /** Tokens whose keys are those of `ta` and then some others have the
      offsets of `ta` first. */
  lemma KeysFront(ts: seq<Token>, ta: seq<Token>, rest: seq<(string, int)>)
    requires Keys(ts) == Keys(ta) + rest
    ensures |ta| <= |ts|
    ensures forall i :: 0 <= i < |ta| ==> ts[i].where == ta[i].where
  {
    KeysAt(ts);
    KeysAt(ta);
  }

  /** Tokens whose keys end with those of `tb` moved `w` on end with the
      texts of `tb` at offsets moved `w` on. */
  lemma KeysBack(ts: seq<Token>, ka: seq<(string, int)>, tb: seq<Token>, n: nat, w: int)
    requires Keys(ts) == ka + Shifted(Keys(tb), w) && |ka| == n
    ensures |ts| == n + |tb|
    ensures forall j :: n <= j < |ts| ==>
              ts[j].value == tb[j - n].value && ts[j].where == tb[j - n].where + w
  {
    KeysAt(ts);
    KeysAt(tb);
    ShiftedAt(Keys(tb), w);
  }

  /** The tokens of `a` lie before offset `|a|`. */
  lemma TokensBefore(a: string, time: int)
    ensures forall i :: 0 <= i < |Tokenize(a, time)| ==> 0 <= Tokenize(a, time)[i].where < |a|
  {
    TokenizeFacts(a, time);
  }

  /** A token starts right after a delimiter or at one, or at the start. */
  lemma TokenCut(s: string, time: int, pos: nat)
    requires pos < |Tokenize(s, time)|
    ensures var w := Tokenize(s, time)[pos].where;
            0 <= w < |s| && (w == 0 || IsDelimiter(s[w - 1]) || IsDelimiter(s[w]))
  {
    var ts := Tokenize(s, time);
    TokenizeFacts(s, time);
    assert Placed(s, ts[pos]) && Shaped(s, ts[pos]);
    assert s[ts[pos].where] == ts[pos].value[0];
  }

  lemma TokensIncrease(s: string, time: int)
    ensures forall i, j :: 0 <= i < j < |Tokenize(s, time)| ==>
              Tokenize(s, time)[i].where < Tokenize(s, time)[j].where
  {
    TokenizeFacts(s, time);
  }

  /** Where strictly increasing offsets reach `w` at `pos` and the first
      `n` lie before `w` and the rest from `w` on, `n` is `pos`. */
  lemma CutAt(ts: seq<Token>, n: nat, w: int, pos: nat)
    requires n <= |ts| && pos < |ts| && ts[pos].where == w
    requires forall i, j :: 0 <= i < j < |ts| ==> ts[i].where < ts[j].where
    requires forall i :: 0 <= i < n ==> ts[i].where < w
    requires forall j :: n <= j < |ts| ==> ts[j].where >= w
    ensures n == pos
  {
    assert n < |ts| ==> ts[n].where >= w;
  }

  /** Cut at the offset of token `pos`, the tokens from `pos` on are
      those of the text from there on, moved on by that offset. */
  lemma CutAtToken(s: string, time: int, pos: nat)
    requires pos < |Tokenize(s, time)|
    ensures 0 <= Tokenize(s, time)[pos].where < |s|
    ensures var w := Tokenize(s, time)[pos].where;
            |Tokenize(s, time)| == pos + |Tokenize(s[w..], time)| &&
            forall j :: pos <= j < |Tokenize(s, time)| ==>
              Tokenize(s, time)[j].value == Tokenize(s[w..], time)[j - pos].value &&
              Tokenize(s, time)[j].where == Tokenize(s[w..], time)[j - pos].where + w
  {
    var ts := Tokenize(s, time);
    TokenCut(s, time, pos);
    var w := ts[pos].where;
    var n := SplitTokens(s, w, time);
    TokensIncrease(s, time);
    TokensBefore(s[w..], time);
    CutAt(ts, n, w, pos);
  }

  /** Tokenizing the source from the offset of its token `pos` on gives the
      tokens from `pos` on: the same texts, each offset less by that of
      token `pos` (lines and columns are counted afresh). */
  lemma TokenizeFrom(s: string, time: int, pos: nat)
    requires pos < |Tokenize(s, time)|
    ensures 0 <= Tokenize(s, time)[pos].where <= |s|
    ensures |Tokenize(s[Tokenize(s, time)[pos].where..], time)| == |Tokenize(s, time)| - pos
    ensures forall i :: 0 <= i < |Tokenize(s[Tokenize(s, time)[pos].where..], time)| ==>
              Tokenize(s[Tokenize(s, time)[pos].where..], time)[i].value == Tokenize(s, time)[pos + i].value
    ensures forall i :: 0 <= i < |Tokenize(s[Tokenize(s, time)[pos].where..], time)| ==>
              Tokenize(s[Tokenize(s, time)[pos].where..], time)[i].where + Tokenize(s, time)[pos].where
              == Tokenize(s, time)[pos + i].where
  {
    var ts := Tokenize(s, time);
    var w := ts[pos].where;
    CutAtToken(s, time, pos);
    forall i | 0 <= i < |Tokenize(s[w..], time)|
      ensures Tokenize(s[w..], time)[i].value == ts[pos + i].value
      ensures Tokenize(s[w..], time)[i].where + w == ts[pos + i].where
    {
      assert pos + i - pos == i;
    }
  }
}
