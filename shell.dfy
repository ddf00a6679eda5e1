/** Editor helpers of the interactive shell: the bracket validator that decides
    whether Enter submits the input, and the indentation arithmetic of the
    space key. */
module Shell {
  import opened Wrappers

  /** Indentation unit of the shell. */
  const SPACENUM: nat := 2

  /** Contribution of one character to the bracket depth. */
  function Delta(c: char): int {
    if c == '(' then 1 else if c == ')' then -1 else 0
  }

  /** Number of `(` minus number of `)` in `s`. */
  function Depth(s: string): int {
    if s == [] then 0 else Depth(s[..|s| - 1]) + Delta(s[|s| - 1])
  }

  /** No prefix of `s` closes more brackets than it opened (stated recursively
      from the end; `NeverNegativeIffPrefixes` gives the prefix form). */
  predicate NeverNegative(s: string) {
    s == [] || (NeverNegative(s[..|s| - 1]) && Depth(s) >= 0)
  }

  /** The property `check_parentheses_balance` decides. */
  predicate Balanced(s: string) {
    NeverNegative(s) && Depth(s) == 0
  }

  /** The stack-based validator: pushes on `(`, pops on `)`, fails at once on
      a `)` with an empty stack, and accepts when the stack ends empty. */
  method CheckParenthesesBalance(text: string) returns (balanced: bool)
    ensures balanced == Balanced(text)
  {
    var stack: seq<char> := [];
    for i := 0 to |text|
      invariant |stack| == Depth(text[..i])
      invariant NeverNegative(text[..i])
    {
      var c := text[i];
      assert text[..i + 1][..i] == text[..i];
      if c == '(' {
        stack := stack + [c];
      } else if c == ')' {
        if |stack| == 0 {
          assert Depth(text[..i + 1]) < 0;
          NegativePrefixIsFinal(text[..i + 1], text[i + 1..]);
          assert text[..i + 1] + text[i + 1..] == text;
          return false;
        }
        stack := stack[..|stack| - 1];
      }
    }
    assert text[..|text|] == text;
    return |stack| == 0;
  }

  /** Depth is additive over concatenation. */
  lemma {:induction false} DepthConcat(a: string, b: string)
    ensures Depth(a + b) == Depth(a) + Depth(b)
  {
    if b != [] {
      var b' := b[..|b| - 1];
      assert (a + b)[..|a + b| - 1] == a + b';
      DepthConcat(a, b');
    } else {
      assert a + b == a;
    }
  }

  /** The recursive definition agrees with "no prefix has negative depth". */
  lemma {:induction false} NeverNegativeIffPrefixes(s: string)
    ensures NeverNegative(s) <==> forall k :: 0 <= k <= |s| ==> Depth(s[..k]) >= 0
  {
    if s != [] {
      var s' := s[..|s| - 1];
      NeverNegativeIffPrefixes(s');
      assert s[..|s|] == s;
      forall k | 0 <= k <= |s'| ensures s'[..k] == s[..k] { }
      if NeverNegative(s) {
        forall k | 0 <= k <= |s| ensures Depth(s[..k]) >= 0 {
          if k < |s| { assert s[..k] == s'[..k]; }
        }
      }
    }
  }

  /** Once a prefix has closed more than it opened, no continuation is balanced. */
  lemma {:induction false} NegativePrefixIsFinal(p: string, rest: string)
    requires Depth(p) < 0
    ensures !Balanced(p + rest)
  {
    NeverNegativeIffPrefixes(p + rest);
    assert (p + rest)[..|p|] == p;
  }

  /** A `)` that arrives while nothing is open makes the whole text unbalanced,
      whatever follows it. */
  lemma UnmatchedCloseIsFinal(p: string, rest: string)
    requires Depth(p) == 0
    ensures !Balanced(p + ")" + rest)
  {
    DepthConcat(p, ")");
    assert p + ")" + rest == (p + ")") + rest;
    NegativePrefixIsFinal(p + ")", rest);
  }

  /** Appending one character keeps the prefix condition exactly when the
      new depth is not negative. */
  lemma NeverNegativeSnoc(s: string, c: char)
    ensures NeverNegative(s + [c]) <==> NeverNegative(s) && Depth(s + [c]) >= 0
  {
    assert (s + [c])[..|s + [c]| - 1] == s;
  }

  /** The empty text is balanced, and balanced texts concatenate to a balanced text. */
  lemma {:induction false} BalancedConcat(a: string, b: string)
    requires Balanced(a) && Balanced(b)
    ensures Balanced("") && Balanced(a + b)
  {
    DepthConcat(a, b);
    NeverNegativeIffPrefixes(a);
    NeverNegativeIffPrefixes(b);
    NeverNegativeIffPrefixes(a + b);
    forall k | 0 <= k <= |a + b| ensures Depth((a + b)[..k]) >= 0 {
      if k <= |a| {
        assert (a + b)[..k] == a[..k];
      } else {
        assert (a + b)[..k] == a + b[..k - |a|];
        DepthConcat(a, b[..k - |a|]);
      }
    }
  }

  /** Only the brackets of a text. */
  function Parens(s: string): (r: string)
    ensures forall i :: 0 <= i < |r| ==> r[i] == '(' || r[i] == ')'
  {
    if s == [] then []
    else
      var c := s[|s| - 1];
      Parens(s[..|s| - 1]) + (if c == '(' || c == ')' then [c] else [])
  }

  /** Characters other than `(` and `)` never affect the verdict: a text is
      balanced exactly when its brackets alone are. */
  lemma {:induction false} OnlyBracketsMatter(s: string)
    ensures Depth(Parens(s)) == Depth(s)
    ensures NeverNegative(Parens(s)) == NeverNegative(s)
    ensures Balanced(Parens(s)) == Balanced(s)
  {
    if s != [] {
      var s' := s[..|s| - 1];
      var c := s[|s| - 1];
      OnlyBracketsMatter(s');
      assert s == s' + [c];
      NeverNegativeSnoc(s', c);
      DepthConcat(s', [c]);
      if c == '(' || c == ')' {
        assert Parens(s) == Parens(s') + [c];
        NeverNegativeSnoc(Parens(s'), c);
        DepthConcat(Parens(s'), [c]);
        assert Depth([c]) == Delta(c) by { assert [c][..0] == []; }
      } else {
        assert Parens(s) == Parens(s');
        assert Depth([c]) == 0 by { assert [c][..0] == []; }
      }
    }
  }

  /** Python's `str.isspace` for one character. */
  predicate IsSpaceChar(c: char) {
    c == ' ' || c == '\t' || c == '\n' || c == '\r' || c == '\U{0B}' || c == '\U{0C}'
    || ('\U{1C}' <= c <= '\U{1F}') || c == '\U{85}' || c == '\U{A0}' || c == '\U{1680}'
    || ('\U{2000}' <= c <= '\U{200A}') || c == '\U{2028}' || c == '\U{2029}'
    || c == '\U{202F}' || c == '\U{205F}' || c == '\U{3000}'
  }

  /** Python's `str.isspace`: non-empty and whitespace only. */
  predicate IsSpace(s: string) {
    |s| > 0 && forall i :: 0 <= i < |s| ==> IsSpaceChar(s[i])
  }

  /** `len(line) - len(line.lstrip())`: the number of leading whitespace characters. */
  function LeadingSpace(line: string): (n: nat)
    ensures n <= |line|
    ensures forall i :: 0 <= i < n ==> IsSpaceChar(line[i])
    ensures n == |line| || !IsSpaceChar(line[n])
  {
    if line == [] || !IsSpaceChar(line[0]) then 0 else 1 + LeadingSpace(line[1..])
  }

  /** `get_space_by_cursor` on the current line with the cursor at column
      `cursor`: the indentation of the line when the text before the cursor is
      whitespace only, 0 when it is empty, and nothing otherwise. */
  function GetSpaceByCursor(line: string, cursor: nat): (r: Option<nat>)
    requires cursor <= |line|
    ensures r.Some? ==> r.value <= |line|
  {
    var before := line[..cursor];
    if IsSpace(before) then Some(LeadingSpace(line))
    else if before == [] then Some(0)
    else None
  }

  /** The result of `get_space_by_cursor` in terms of the line: present exactly
      when the prefix is indentation only; 0 for an empty prefix; otherwise the
      whole leading whitespace run, which reaches at least to the cursor. */
  lemma GetSpaceByCursorMeaning(line: string, cursor: nat)
    requires cursor <= |line|
    ensures GetSpaceByCursor(line, cursor).Some?
        <==> forall i :: 0 <= i < cursor ==> IsSpaceChar(line[i])
    ensures cursor == 0 ==> GetSpaceByCursor(line, cursor) == Some(0)
    ensures cursor > 0 && GetSpaceByCursor(line, cursor).Some? ==>
              GetSpaceByCursor(line, cursor).value == LeadingSpace(line) >= cursor
  {
    assert forall i | 0 <= i < cursor :: line[..cursor][i] == line[i];
    if cursor > 0 && (forall i :: 0 <= i < cursor ==> IsSpaceChar(line[i])) {
      assert IsSpace(line[..cursor]);
    }
  }

  /** `extra_spaces = SPACENUM - (current_indent % SPACENUM)`. */
  function ExtraSpaces(indent: nat): nat {
    SPACENUM - indent % SPACENUM
  }

  /** The space key inserts between 1 and SPACENUM spaces and lands the
      indentation on a multiple of SPACENUM. */
  lemma ExtraSpacesAligns(indent: nat)
    ensures 1 <= ExtraSpaces(indent) <= SPACENUM
    ensures (indent + ExtraSpaces(indent)) % SPACENUM == 0
  {
  }

  function Spaces(n: nat): (s: string)
    ensures |s| == n && forall i :: 0 <= i < n ==> s[i] == ' '
  {
    if n == 0 then [] else Spaces(n - 1) + [' ']
  }

  /** The space key on the current line: when `get_space_by_cursor` gives an
      indentation, the cursor moves to that column and the extra spaces are
      inserted there; otherwise one space is inserted at the cursor. Returns
      the new line and the new cursor column. */
  function SpaceKey(line: string, cursor: nat): (r: (string, nat))
    requires cursor <= |line|
  {
    match GetSpaceByCursor(line, cursor)
    case Some(indent) =>
      var extra := ExtraSpaces(indent);
      (line[..indent] + Spaces(extra) + line[indent..], indent + extra)
    case None =>
      (line[..cursor] + " " + line[cursor..], cursor + 1)
  }

  /** On a non-empty indentation-only prefix the space key grows the line's
      indentation to the next multiple of SPACENUM, keeps the rest of the line
      and leaves the cursor at the end of the indentation. On an empty prefix
      it inserts SPACENUM spaces at the start. Otherwise it inserts one space. */
  lemma SpaceKeyIndents(line: string, cursor: nat)
    requires cursor <= |line|
    ensures cursor > 0 && GetSpaceByCursor(line, cursor).Some? ==>
              var n := LeadingSpace(line);
              var r := SpaceKey(line, cursor);
              LeadingSpace(r.0) == r.1 == n + ExtraSpaces(n)
              && r.1 % SPACENUM == 0 && r.1 > n && r.0[r.1..] == line[n..]
    ensures cursor == 0 ==> SpaceKey(line, cursor) == (Spaces(SPACENUM) + line, SPACENUM)
    ensures GetSpaceByCursor(line, cursor).None? ==>
              SpaceKey(line, cursor) == (line[..cursor] + " " + line[cursor..], cursor + 1)
  {
    GetSpaceByCursorMeaning(line, cursor);
    if cursor > 0 && GetSpaceByCursor(line, cursor).Some? {
      var n := LeadingSpace(line);
      ExtraSpacesAligns(n);
      LeadingSpaceOfIndented(line[..n], Spaces(ExtraSpaces(n)), line[n..]);
      var r := SpaceKey(line, cursor);
      assert r.0 == line[..n] + Spaces(ExtraSpaces(n)) + line[n..];
      assert r.0[r.1..] == line[n..];
    }
    if cursor == 0 {
      assert line[..0] + Spaces(SPACENUM) + line[0..] == Spaces(SPACENUM) + line;
    }
  }

  lemma LeadingSpaceOfIndented(a: string, b: string, c: string)
    requires forall i :: 0 <= i < |a| ==> IsSpaceChar(a[i])
    requires forall i :: 0 <= i < |b| ==> IsSpaceChar(b[i])
    requires c == [] || !IsSpaceChar(c[0])
    ensures LeadingSpace(a + b + c) == |a| + |b|
  {
    var s := a + b + c;
    assert forall i | 0 <= i < |a| + |b| :: IsSpaceChar(s[i]);
    assert |a| + |b| < |s| ==> s[|a| + |b|] == c[0];
  }
}
