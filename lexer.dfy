/** The chunked character stream and the tokenizer of the reader front-end
    (`StrGen`, `TokenGen`). The lazy generators become methods that build the
    whole sequence; the tokenizer is specified by `Tokenize`, a character-by-
    character state machine over the full source text. */
module Lexer {

  /** Line, column and the number of the shell input ("cell") that produced a token. */
  datatype Location = Location(line: int, col: int, time: int)

  /** A token: its text, its location and its offset `where` in the source. */
  datatype Token = Token(value: string, location: Location, where: int)

  /** The characters that end a pending token. */
  predicate IsDelimiter(c: char) {
    c == '(' || c == ')' || c == ' ' || c == '\n' || c == '\''
  }

  /** The delimiters that are tokens themselves. */
  predicate IsPunct(c: char) {
    c == '(' || c == ')' || c == '\''
  }

  function Concat(chunks: seq<string>): string {
    if chunks == [] then [] else Concat(chunks[..|chunks| - 1]) + chunks[|chunks| - 1]
  }

  function Min(a: int, b: int): int { if a <= b then a else b }

  /** `StrGen`: cuts the source into consecutive slices of `maxIn` characters;
      the last slice holds what is left. With `maxIn < 1` the source's loop
      never advances, so callers must pass a positive length. */
  method StrGen(source: string, maxIn: int) returns (chunks: seq<string>)
    requires maxIn >= 1
    ensures Concat(chunks) == source
    ensures forall i :: 0 <= i < |chunks| ==> 1 <= |chunks[i]| <= maxIn
    ensures forall i :: 0 <= i < |chunks| - 1 ==> |chunks[i]| == maxIn
  {
    var start := 0;
    chunks := [];
    while start < |source|
      invariant 0 <= start
      invariant Concat(chunks) == source[..Min(start, |source|)]
      invariant forall i :: 0 <= i < |chunks| ==> 1 <= |chunks[i]| <= maxIn
      invariant forall i :: 0 <= i < |chunks| ==>
                  |chunks[i]| == maxIn || (i == |chunks| - 1 && start >= |source|)
      decreases |source| - start
    {
      var chunk := source[start..Min(start + maxIn, |source|)];
      assert (chunks + [chunk])[..|chunks|] == chunks;
      assert source[..Min(start + maxIn, |source|)] == source[..start] + chunk;
      chunks := chunks + [chunk];
      start := start + maxIn;
    }
    assert source[..|source|] == source;
  }

  /** The tokenizer's variables between two characters: column, line, offset
      of the last character read, the pending run of ordinary characters, and
      the tokens emitted so far. */
  datatype LexState = LexState(col: int, line: int, where: int, pending: string, out: seq<Token>)

  const Initial: LexState := LexState(-1, 1, -1, [], [])

  /** One character of `TokenGen`'s inner loop. A delimiter flushes the
      pending run; `(`, `)` and `'` are then emitted on their own. */
  function LexChar(st: LexState, c: char, time: int): LexState {
    var where := st.where + 1;
    var line := if c == '\n' then st.line + 1 else st.line;
    var col := if c == '\n' then -1 else st.col + 1;
    if IsDelimiter(c) then
      var out1 := Flushed(st.out, st.pending, Location(line, col - |st.pending|, time), where);
      var out2 := if IsPunct(c) then out1 + [Token([c], Location(line, col, time), where)] else out1;
      LexState(col, line, where, [], out2)
    else
      LexState(col, line, where, st.pending + [c], st.out)
  }

  /** The state after reading all of `s`. */
  function LexPrefix(s: string, time: int): LexState {
    if s == [] then Initial else LexChar(LexPrefix(s[..|s| - 1], time), s[|s| - 1], time)
  }

  /** Emits the pending run, if any, as a token that ends just before
      offset `where`. */
  function Flushed(out: seq<Token>, pending: string, loc: Location, where: int): seq<Token> {
    if pending != [] then out + [Token(pending, loc, where - |pending|)] else out
  }

  /** What is left over at the end of the stream is emitted as a last token. */
  function Flush(st: LexState, time: int): seq<Token> {
    Flushed(st.out, st.pending, Location(st.line, st.col - |st.pending| + 1, time), st.where + 1)
  }

  /** The token stream of a whole source text. */
  function Tokenize(s: string, time: int): seq<Token> {
    Flush(LexPrefix(s, time), time)
  }

  /** `TokenGen`: runs over the chunks character by character; the tokens
      finished within a chunk are handed out when the chunk ends, and the
      pending run carries over into the next chunk. The result is the token
      stream of the concatenated text, so it does not depend on where the
      chunks were cut. */
  method TokenGen(chunks: seq<string>, time: int) returns (tokens: seq<Token>)
    ensures tokens == Tokenize(Concat(chunks), time)
  {
    var col, line := -1, 1;
    var pending: string := [];
    var where := -1;
    tokens := [];
    ghost var seen: string := [];
    for ci := 0 to |chunks|
      invariant seen == Concat(chunks[..ci])
      invariant LexPrefix(seen, time) == LexState(col, line, where, pending, tokens)
    {
      var finished;
      col, line, where, pending, finished := LexChunk(seen, chunks[ci], time, col, line, where, pending, tokens);
      assert chunks[..ci + 1][..ci] == chunks[..ci];
      tokens := tokens + finished;
      seen := seen + chunks[ci];
    }
    assert chunks[..|chunks|] == chunks;
    if pending != [] {
      tokens := tokens + [Token(pending, Location(line, col - |pending| + 1, time), where - |pending| + 1)];
    }
  }

  /** The inner loop of `TokenGen` over one chunk: the position and the
      pending run carry over, and `finished` collects the tokens completed
      within the chunk. */
  method LexChunk(ghost seen: string, chunk: string, time: int, col0: int, line0: int, where0: int,
                  pending0: string, ghost emitted: seq<Token>)
    returns (col: int, line: int, where: int, pending: string, finished: seq<Token>)
    requires LexPrefix(seen, time) == LexState(col0, line0, where0, pending0, emitted)
    ensures LexPrefix(seen + chunk, time) == LexState(col, line, where, pending, emitted + finished)
  {
    col, line, where, pending, finished := col0, line0, where0, pending0, [];
    ghost var out := emitted;
    ghost var p := seen;
    assert seen + chunk[..0] == seen;
    for j := 0 to |chunk|
      invariant p == seen + chunk[..j]
      invariant out == emitted + finished
      invariant LexPrefix(p, time) == LexState(col, line, where, pending, out)
    {
      var c := chunk[j];
      ghost var st := LexState(col, line, where, pending, out);
      LexPrefixSnoc(p, c, time);
      PrefixSnoc(seen, chunk, j);
      p := p + [c];
      where := where + 1;
      if c == '\n' {
        line := line + 1;
        col := -1;
      } else {
        col := col + 1;
      }
      if IsDelimiter(c) {
        if pending != [] {
          var t := Token(pending, Location(line, col - |pending|, time), where - |pending|);
          AppendSnoc(emitted, finished, t);
          finished := finished + [t];
          out := out + [t];
          pending := [];
        }
        if IsPunct(c) {
          var t := Token([c], Location(line, col, time), where);
          AppendSnoc(emitted, finished, t);
          finished := finished + [t];
          out := out + [t];
        }
        DelimiterStep(st, c, time);
      } else {
        pending := pending + [c];
      }
    }
    assert chunk[..|chunk|] == chunk;
  }

  lemma PrefixSnoc(seen: string, chunk: string, j: nat)
    requires j < |chunk|
    ensures seen + chunk[..j + 1] == (seen + chunk[..j]) + [chunk[j]]
  {
  }

  lemma AppendSnoc(a: seq<Token>, b: seq<Token>, t: Token)
    ensures a + (b + [t]) == (a + b) + [t]
  {
  }

  lemma LexPrefixSnoc(s: string, c: char, time: int)
    ensures LexPrefix(s + [c], time) == LexChar(LexPrefix(s, time), c, time)
  {
    assert (s + [c])[..|s|] == s;
  }

  // ---------------------------------------------------------------------
  // Properties of the token stream

  function End(t: Token): int { t.where + |t.value| }

  /** The token's text is found in the source at its offset. */
  predicate Placed(s: string, t: Token) {
    0 <= t.where && End(t) <= |s| && s[t.where..End(t)] == t.value
  }

  /** A run of ordinary (non-delimiter) characters. */
  predicate IsRun(v: string) {
    |v| > 0 && forall i :: 0 <= i < |v| ==> !IsDelimiter(v[i])
  }

  /** A token is a single `(`, `)` or `'`, or a maximal run of ordinary
      characters: a delimiter or the text's edge on each side. */
  predicate Shaped(s: string, t: Token)
    requires Placed(s, t)
  {
    (|t.value| == 1 && IsPunct(t.value[0]))
    || (IsRun(t.value)
        && (t.where == 0 || IsDelimiter(s[t.where - 1]))
        && (End(t) == |s| || IsDelimiter(s[End(t)])))
  }

  /** Tokens follow one another without overlap. */
  predicate Ordered(ts: seq<Token>) {
    forall i, j :: 0 <= i < j < |ts| ==> End(ts[i]) <= ts[j].where
  }

  /** The token texts one after the other. */
  function Joined(ts: seq<Token>): string {
    if ts == [] then [] else Joined(ts[..|ts| - 1]) + ts[|ts| - 1].value
  }

  /** The source with spaces and newlines deleted (tabs stay). */
  function Visible(s: string): string {
    if s == [] then []
    else Visible(s[..|s| - 1]) + (if s[|s| - 1] == ' ' || s[|s| - 1] == '\n' then [] else [s[|s| - 1]])
  }

  /** A completed token in the prefix `p`: placed and shaped, and a run token
      was already ended by a delimiter inside `p`. */
  predicate Complete(p: string, t: Token) {
    Placed(p, t)
    && ((|t.value| == 1 && IsPunct(t.value[0]))
        || (IsRun(t.value) && (t.where == 0 || IsDelimiter(p[t.where - 1]))
            && End(t) < |p| && IsDelimiter(p[End(t)])))
  }

  /** The emitted tokens are complete in `p` and end at or before `bound`. */
  predicate OutOk(p: string, out: seq<Token>, bound: int) {
    && (forall i :: 0 <= i < |out| ==> Complete(p, out[i]))
    && (forall i :: 0 <= i < |out| ==> End(out[i]) <= bound)
    && Ordered(out)
  }

  /** The pending run is the suffix of `p` after its last delimiter. */
  predicate PendingOk(p: string, pending: string) {
    && |pending| <= |p|
    && p[|p| - |pending|..] == pending
    && (forall i :: 0 <= i < |pending| ==> !IsDelimiter(pending[i]))
    && (|pending| == |p| || IsDelimiter(p[|p| - |pending| - 1]))
  }

  /** The invariant of the tokenizer after reading the prefix `p`. */
  predicate Good(p: string, st: LexState) {
    && st.where == |p| - 1
    && PendingOk(p, st.pending)
    && OutOk(p, st.out, |p| - |st.pending|)
    && Joined(st.out) + st.pending == Visible(p)
  }

  lemma GoodIntro(p: string, st: LexState)
    requires st.where == |p| - 1 && PendingOk(p, st.pending)
    requires OutOk(p, st.out, |p| - |st.pending|)
    requires Joined(st.out) + st.pending == Visible(p)
    ensures Good(p, st)
  {
  }

  lemma CompleteExtends(p: string, c: char, t: Token)
    requires Complete(p, t)
    ensures Complete(p + [c], t)
  {
    assert (p + [c])[t.where..End(t)] == p[t.where..End(t)];
  }

  lemma OutExtends(p: string, c: char, out: seq<Token>, bound: int)
    requires OutOk(p, out, bound)
    ensures OutOk(p + [c], out, bound)
  {
    forall i | 0 <= i < |out| ensures Complete(p + [c], out[i]) {
      CompleteExtends(p, c, out[i]);
    }
  }

  lemma OutAppend(p: string, out: seq<Token>, bound: int, t: Token)
    requires OutOk(p, out, bound)
    requires Complete(p, t) && bound <= t.where
    ensures OutOk(p, out + [t], End(t))
  {
    var out' := out + [t];
    forall i | 0 <= i < |out'| ensures Complete(p, out'[i]) && End(out'[i]) <= End(t) {
      if i < |out| { assert out'[i] == out[i]; }
    }
    OrderedAppend(out, bound, t);
  }

  lemma OrderedAppend(out: seq<Token>, bound: int, t: Token)
    requires Ordered(out)
    requires forall i :: 0 <= i < |out| ==> End(out[i]) <= bound
    requires bound <= t.where
    ensures Ordered(out + [t])
  {
    var out' := out + [t];
    forall i, j | 0 <= i < j < |out'| ensures End(out'[i]) <= out'[j].where {
      if j < |out| { assert out'[i] == out[i] && out'[j] == out[j]; }
      else { assert out'[i] == out[i]; }
    }
  }

  lemma OutWeaken(p: string, out: seq<Token>, bound: int, bound': int)
    requires OutOk(p, out, bound) && bound <= bound'
    ensures OutOk(p, out, bound')
  {
  }

  lemma JoinedSnoc(ts: seq<Token>, t: Token)
    ensures Joined(ts + [t]) == Joined(ts) + t.value
  {
    assert (ts + [t])[..|ts|] == ts;
  }

  lemma VisibleSnoc(p: string, c: char)
    ensures Visible(p + [c]) == Visible(p) + (if c == ' ' || c == '\n' then [] else [c])
  {
    assert (p + [c])[..|p|] == p;
  }

  /** The token that a delimiter flushes out of a non-empty pending run. */
  lemma FlushedTokenComplete(p: string, pending: string, c: char, loc: Location)
    requires PendingOk(p, pending) && pending != [] && IsDelimiter(c)
    ensures Complete(p + [c], Token(pending, loc, |p| - |pending|))
  {
    var t := Token(pending, loc, |p| - |pending|);
    assert (p + [c])[t.where..End(t)] == p[|p| - |pending|..];
    assert (p + [c])[End(t)] == c;
    if t.where > 0 {
      assert (p + [c])[t.where - 1] == p[|p| - |pending| - 1];
    }
  }

  /** A non-delimiter extends the pending run. */
  lemma PendingGrows(p: string, pending: string, c: char)
    requires PendingOk(p, pending) && !IsDelimiter(c)
    ensures PendingOk(p + [c], pending + [c])
  {
    assert (p + [c])[|p + [c]| - |pending + [c]|..] == p[|p| - |pending|..] + [c];
    if |pending| < |p| {
      assert (p + [c])[|p| - |pending| - 1] == p[|p| - |pending| - 1];
    }
  }

  /** A delimiter flushes the pending run into a token. */
  lemma FlushGood(p: string, st: LexState, c: char, loc: Location) returns (out1: seq<Token>)
    requires Good(p, st) && IsDelimiter(c)
    ensures out1 == Flushed(st.out, st.pending, loc, |p|)
    ensures OutOk(p + [c], out1, |p|)
    ensures Joined(out1) == Visible(p)
  {
    if st.pending != [] {
      var t := Token(st.pending, loc, |p| - |st.pending|);
      out1 := st.out + [t];
      assert OutOk(p + [c], out1, |p|) by {
        OutExtends(p, c, st.out, |p| - |st.pending|);
        FlushedTokenComplete(p, st.pending, c, loc);
        OutAppend(p + [c], st.out, |p| - |st.pending|, t);
        assert End(t) == |p|;
      }
      assert Joined(out1) == Visible(p) by {
        JoinedSnoc(st.out, t);
      }
    } else {
      out1 := st.out;
      assert OutOk(p + [c], out1, |p|) by {
        OutExtends(p, c, st.out, |p| - |st.pending|);
      }
    }
  }

  /** The state after a delimiter, spelled out. */
  lemma DelimiterStep(st: LexState, c: char, time: int)
    requires IsDelimiter(c)
    ensures var st' := LexChar(st, c, time);
            var out1 := Flushed(st.out, st.pending, Location(st'.line, st'.col - |st.pending|, time), st.where + 1);
            st'.pending == [] && st'.where == st.where + 1
            && st'.out == if IsPunct(c) then out1 + [Token([c], Location(st'.line, st'.col, time), st'.where)] else out1
  {
  }

  lemma PunctTokenComplete(p: string, c: char, loc: Location)
    requires IsPunct(c)
    ensures Complete(p + [c], Token([c], loc, |p|))
  {
    assert (p + [c])[|p|..|p| + 1] == [c];
  }

  /** After `(`, `)` or `'` the emitted tokens are the flushed run, if any,
      and the one-character token. */
  lemma PunctOut(p: string, out1: seq<Token>, c: char, loc: Location)
    requires OutOk(p + [c], out1, |p|) && IsPunct(c)
    ensures OutOk(p + [c], out1 + [Token([c], loc, |p|)], |p| + 1)
  {
    PunctTokenComplete(p, c, loc);
    OutAppend(p + [c], out1, |p|, Token([c], loc, |p|));
  }

  lemma PunctJoined(p: string, out1: seq<Token>, c: char, loc: Location, w: int)
    requires Joined(out1) == Visible(p)
    requires IsPunct(c)
    ensures Joined(out1 + [Token([c], loc, w)]) == Visible(p + [c])
  {
    JoinedSnoc(out1, Token([c], loc, w));
    VisibleSnoc(p, c);
  }

  /** `(`, `)` and `'` keep the tokenizer's invariant: the state after one
      of them, whatever its line and column, is the flushed run followed by
      the one-character token. */
  lemma PunctGood(p: string, st: LexState, c: char, col: int, line: int, loc1: Location, loc: Location)
    requires Good(p, st) && IsPunct(c)
    ensures Good(p + [c], LexState(col, line, |p|, [], Flushed(st.out, st.pending, loc1, |p|) + [Token([c], loc, |p|)]))
  {
    var st' := LexState(col, line, |p|, [], Flushed(st.out, st.pending, loc1, |p|) + [Token([c], loc, |p|)]);
    var out1 := FlushGood(p, st, c, loc1);
    assert st'.out == out1 + [Token([c], loc, |p|)];
    assert |p + [c]| - |st'.pending| == |p| + 1;
    PunctOut(p, out1, c, loc);
    PunctJoined(p, out1, c, loc, |p|);
    assert Joined(st'.out) + st'.pending == Joined(st'.out);
    PendingEmptyAfterDelimiter(p, c);
    GoodIntro(p + [c], st');
  }

  /** A space or a newline keeps the tokenizer's invariant: it only flushes
      the pending run. */
  lemma BlankGood(p: string, st: LexState, c: char, col: int, line: int, loc1: Location)
    requires Good(p, st) && IsDelimiter(c) && !IsPunct(c)
    ensures Good(p + [c], LexState(col, line, |p|, [], Flushed(st.out, st.pending, loc1, |p|)))
  {
    var p' := p + [c];
    var st' := LexState(col, line, |p|, [], Flushed(st.out, st.pending, loc1, |p|));
    VisibleSnoc(p, c);
    var out1 := FlushGood(p, st, c, loc1);
    assert |p'| - |st'.pending| == |p'|;
    OutWeaken(p', out1, |p|, |p'|);
    assert Joined(st'.out) + st'.pending == Joined(st'.out);
    PendingEmptyAfterDelimiter(p, c);
    GoodIntro(p', st');
  }

  lemma PendingEmptyAfterDelimiter(p: string, c: char)
    requires IsDelimiter(c)
    ensures PendingOk(p + [c], [])
  {
    assert (p + [c])[|p|] == c;
  }

  /** One ordinary character keeps the tokenizer's invariant. */
  lemma OrdinaryGood(p: string, st: LexState, c: char, time: int)
    requires Good(p, st) && !IsDelimiter(c)
    ensures Good(p + [c], LexChar(st, c, time))
  {
    var st' := LexChar(st, c, time);
    VisibleSnoc(p, c);
    OutExtends(p, c, st.out, |p| - |st.pending|);
    PendingGrows(p, st.pending, c);
    assert Joined(st'.out) + st'.pending == (Joined(st.out) + st.pending) + [c];
  }

  /** One character keeps the tokenizer's invariant. */
  lemma LexCharGood(p: string, st: LexState, c: char, time: int)
    requires Good(p, st)
    ensures Good(p + [c], LexChar(st, c, time))
  {
    if IsDelimiter(c) {
      var st' := LexChar(st, c, time);
      var loc1 := Location(st'.line, st'.col - |st.pending|, time);
      DelimiterStep(st, c, time);
      var out1 := Flushed(st.out, st.pending, loc1, |p|);
      if IsPunct(c) {
        var loc := Location(st'.line, st'.col, time);
        assert st' == LexState(st'.col, st'.line, |p|, [], out1 + [Token([c], loc, |p|)]);
        PunctGood(p, st, c, st'.col, st'.line, loc1, loc);
      } else {
        assert st' == LexState(st'.col, st'.line, |p|, [], out1);
        BlankGood(p, st, c, st'.col, st'.line, loc1);
      }
    } else {
      OrdinaryGood(p, st, c, time);
    }
  }

  /** The tokenizer's invariant holds after every prefix. */
  lemma {:induction false} LexPrefixGood(s: string, time: int)
    ensures Good(s, LexPrefix(s, time))
  {
    if s != [] {
      var s', c := s[..|s| - 1], s[|s| - 1];
      assert s == s' + [c];
      LexPrefixGood(s', time);
      LexCharGood(s', LexPrefix(s', time), c, time);
      LexPrefixSnoc(s', c, time);
    }
  }

  lemma CompleteIsShaped(s: string, t: Token)
    requires Complete(s, t)
    ensures Placed(s, t) && Shaped(s, t) && |t.value| > 0
  {
  }

  /** Every token's text is found at its offset `where`; offsets strictly
      increase and tokens do not overlap; each token is a single `(`, `)` or
      `'` or a maximal run of ordinary characters; and the token texts joined
      give back the source without its spaces and newlines. */
  lemma {:induction false} TokenizeFacts(s: string, time: int)
    ensures forall i :: 0 <= i < |Tokenize(s, time)| ==>
              Placed(s, Tokenize(s, time)[i]) && Shaped(s, Tokenize(s, time)[i])
    ensures Ordered(Tokenize(s, time))
    ensures forall i, j :: 0 <= i < j < |Tokenize(s, time)| ==>
              Tokenize(s, time)[i].where < Tokenize(s, time)[j].where
    ensures Joined(Tokenize(s, time)) == Visible(s)
  {
    var st := LexPrefix(s, time);
    LexPrefixGood(s, time);
    var ts := Tokenize(s, time);
    var last := Token(st.pending, Location(st.line, st.col - |st.pending| + 1, time), st.where - |st.pending| + 1);
    if st.pending != [] {
      assert ts == st.out + [last];
      assert last.where == |s| - |st.pending|;
      assert s[last.where..End(last)] == st.pending;
      JoinedSnoc(st.out, last);
      assert Placed(s, last) && Shaped(s, last);
      OrderedAppend(st.out, |s| - |st.pending|, last);
    }
    forall i | 0 <= i < |ts| ensures Placed(s, ts[i]) && Shaped(s, ts[i]) && |ts[i].value| > 0 {
      if i < |st.out| { CompleteIsShaped(s, st.out[i]); assert ts[i] == st.out[i]; }
    }
  }
}
