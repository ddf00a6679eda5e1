/** The reader: classification of atom tokens (`prase_atom`), the
    recursive-descent reader of one form (`GenExp`) and the unread remainder
    of the source (`find_left`). The shared token generator becomes the
    sequence of token texts and an index into it; the `slot` through which
    `GenExp` hands an already consumed `(` to a nested call is the token at
    the index where the nested read starts. */
module Reader {
  import opened Wrappers
  import opened Syntax
  import Lexer
  import Resume

  // ---------------------------------------------------------------------
  // Atoms

  predicate IsDigit(c: char) { '0' <= c <= '9' }

  predicate AllDigits(s: string) { forall i :: 0 <= i < |s| ==> IsDigit(s[i]) }

  /** The value of a run of decimal digits. */
  function DigitsValue(s: string): nat
    requires AllDigits(s)
  {
    if s == [] then 0 else 10 * DigitsValue(s[..|s| - 1]) + (s[|s| - 1] as int - '0' as int)
  }

  /** The text after an optional leading sign. */
  function Unsigned(s: string): string {
    if |s| > 0 && (s[0] == '+' || s[0] == '-') then s[1..] else s
  }

  /** What `int()` accepts here: an optional sign and at least one digit. */
  predicate IsIntLiteral(s: string) {
    var u := Unsigned(s);
    |u| > 0 && AllDigits(u)
  }

  function IntValue(s: string): int
    requires IsIntLiteral(s)
  {
    var v: int := DigitsValue(Unsigned(s));
    if s[0] == '-' then -v else v
  }

  /** The first position of `c` in `s`, or `|s|`. */
  function Find(s: string, c: char): (k: nat)
    ensures k <= |s|
    ensures forall i :: 0 <= i < k ==> s[i] != c
    ensures k < |s| ==> s[k] == c
  {
    if s == [] || s[0] == c then 0 else 1 + Find(s[1..], c)
  }

  /** The first position of an exponent marker `e` or `E`, or `|s|`. */
  function FindExponent(s: string): (k: nat)
    ensures k <= |s|
  {
    var a := Find(s, 'e');
    var b := Find(s, 'E');
    if a <= b then a else b
  }

  function Lower(c: char): char {
    if 'A' <= c <= 'Z' then (c as int + 32) as char else c
  }

  function LowerAll(s: string): string {
    if s == [] then [] else [Lower(s[0])] + LowerAll(s[1..])
  }

  /** Digits with at most one decimal point and at least one digit. */
  predicate IsMantissa(m: string) {
    var k := Find(m, '.');
    if k == |m| then |m| > 0 && AllDigits(m)
    else |m| > 1 && AllDigits(m[..k]) && AllDigits(m[k + 1..])
  }

  /** What `float()` accepts here: an optional sign, then `inf`, `infinity`
      or `nan` in any case, or a decimal mantissa with an optional signed
      exponent. */
  predicate IsFloatLiteral(s: string) {
    var t := Unsigned(s);
    LowerAll(t) in {"inf", "infinity", "nan"}
    || (var e := FindExponent(t);
        if e == |t| then IsMantissa(t) else IsMantissa(t[..e]) && IsIntLiteral(t[e + 1..]))
  }

  /** The form `Fraction()` accepts beyond the float forms: an optional
      sign, digits, a slash and digits. */
  predicate IsFractionLiteral(s: string) {
    var t := Unsigned(s);
    var k := Find(t, '/');
    0 < k < |t| - 1 && AllDigits(t[..k]) && AllDigits(t[k + 1..])
  }

  function Denominator(s: string): nat
    requires IsFractionLiteral(s)
  {
    var t := Unsigned(s);
    DigitsValue(t[Find(t, '/') + 1..])
  }

  /** `prase_atom`: an integer first, then the floating-point forms, then
      `#t`/`#f`, and otherwise a symbol. `None` is the division by zero
      that a fraction with a zero denominator raises; it is not caught
      anywhere in the interpreter. */
  function ParseAtom(v: string): (r: Option<Datum>)
    ensures r.Some? ==> !r.value.List?
  {
    if IsIntLiteral(v) then Some(Int(IntValue(v)))
    else if IsFloatLiteral(v) then Some(Flt(v))
    else if IsFractionLiteral(v) then (if Denominator(v) == 0 then None else Some(Flt(v)))
    else if v == "#t" || v == "#f" then Some(Bool(v == "#t"))
    else Some(Sym(v))
  }

  /** A token is a symbol exactly when it is none of the literal forms;
      the literal forms are tried in the order integer, float, fraction,
      boolean. */
  lemma ParseAtomIsSymbol(v: string)
    ensures ParseAtom(v) == Some(Sym(v)) <==>
            !IsIntLiteral(v) && !IsFloatLiteral(v) && !IsFractionLiteral(v) && v != "#t" && v != "#f"
    ensures IsIntLiteral(v) ==> ParseAtom(v) == Some(Int(IntValue(v)))
    ensures !IsIntLiteral(v) && IsFloatLiteral(v) ==> ParseAtom(v) == Some(Flt(v))
    ensures ParseAtom(v) == None <==>
            !IsIntLiteral(v) && !IsFloatLiteral(v) && IsFractionLiteral(v) && Denominator(v) == 0
  {
  }

  /** Decimal text of a natural number. */
  function NatText(n: nat): string
    decreases n
  {
    if n < 10 then [('0' as int + n) as char]
    else NatText(n / 10) + [('0' as int + n % 10) as char]
  }

  function IntText(i: int): string {
    if i < 0 then "-" + NatText(-i) else NatText(i)
  }

  lemma {:induction false} NatTextDigits(n: nat)
    ensures |NatText(n)| > 0 && AllDigits(NatText(n))
    ensures DigitsValue(NatText(n)) == n
    decreases n
  {
    if n >= 10 {
      NatTextDigits(n / 10);
      var s := NatText(n);
      assert s[..|s| - 1] == NatText(n / 10);
    }
  }

  /** Every integer's decimal text is read back as that integer. */
  lemma IntTextRoundTrip(i: int)
    ensures IsIntLiteral(IntText(i)) && ParseAtom(IntText(i)) == Some(Int(i))
  {
    NatTextDigits(if i < 0 then -i else i);
    if i < 0 {
      assert Unsigned(IntText(i)) == NatText(-i);
    } else {
      var s := NatText(i);
      assert s[0] != '+' && s[0] != '-';
      assert Unsigned(s) == s;
    }
  }

  // ---------------------------------------------------------------------
  // Forms

  /** The outcome of reading one form from token `pos` on. */
  datatype ReadResult =
    | Parsed(d: Datum, next: nat)
      /** No token is left: the source is used up. */
    | EndOfSource
      /** The stream ended inside the list opened by token `at`. */
    | UnmatchedLeft(at: nat)
      /** Token `at` is a `)` with no list open. */
    | UnmatchedRight(at: nat)
      /** Token `at` is a `'` with nothing after it. */
    | UnmatchedQuote(at: nat)
      /** Token `at` is a fraction with a zero denominator. */
    | AtomCrash(at: nat)

  /** The reader errors that the interpreter reports (`ExpError`). */
  predicate IsExpError(r: ReadResult) {
    r.UnmatchedLeft? || r.UnmatchedRight? || r.UnmatchedQuote?
  }

  /** `GenExp` at top level: one form starting at token `pos`, with
      `parse` classifying the atom tokens. How the reader nests lists and
      quotes does not depend on how atoms are classified, so it is stated
      for any classifier; `ReadForm` is the reader with `prase_atom`. */
  function ReadFormWith(parse: string -> Option<Datum>, vals: seq<string>, pos: nat): (r: ReadResult)
    requires pos <= |vals|
    ensures r.Parsed? ==> pos < r.next <= |vals|
    decreases |vals| - pos, 1
  {
    if pos == |vals| then EndOfSource
    else if vals[pos] == "(" then ReadListWith(parse, vals, pos + 1, pos, [])
    else if vals[pos] == ")" then UnmatchedRight(pos)
    else if vals[pos] == "'" then
      if pos + 1 == |vals| then UnmatchedQuote(pos)
      else
        match ReadFormWith(parse, vals, pos + 1)
        case Parsed(d, next) => Parsed(List([Sym("quote"), d]), next)
        case r => r
    else
      match parse(vals[pos])
      case Some(a) => Parsed(a, pos + 1)
      case None => AtomCrash(pos)
  }

  /** `GenExp` inside the list opened by token `open`, with `acc` the list
      built so far. A nested `(` is read by a nested call; a `'` replaces
      the list built so far by `(quote X)`, to which later items are
      appended. */
  function ReadListWith(parse: string -> Option<Datum>, vals: seq<string>, pos: nat, open: nat, acc: seq<Datum>): (r: ReadResult)
    requires pos <= |vals|
    ensures r.Parsed? ==> pos < r.next <= |vals|
    decreases |vals| - pos, 0
  {
    if pos == |vals| then UnmatchedLeft(open)
    else if vals[pos] == "(" then
      match ReadListWith(parse, vals, pos + 1, pos, [])
      case Parsed(d, next) => ReadListWith(parse, vals, next, open, acc + [d])
      case r => r
    else if vals[pos] == ")" then Parsed(List(acc), pos + 1)
    else if vals[pos] == "'" then
      if pos + 1 == |vals| then UnmatchedQuote(pos)
      else
        match ReadFormWith(parse, vals, pos + 1)
        case Parsed(d, next) => ReadListWith(parse, vals, next, open, [Sym("quote"), d])
        case r => r
    else
      match parse(vals[pos])
      case Some(a) => ReadListWith(parse, vals, pos + 1, open, acc + [a])
      case None => AtomCrash(pos)
  }

  function ReadForm(vals: seq<string>, pos: nat): ReadResult
    requires pos <= |vals|
  {
    ReadFormWith(ParseAtom, vals, pos)
  }

  function ReadList(vals: seq<string>, pos: nat, open: nat, acc: seq<Datum>): ReadResult
    requires pos <= |vals|
  {
    ReadListWith(ParseAtom, vals, pos, open, acc)
  }

  /** `GenExp`: the loop that reads one form. A list keeps its opening
      parenthesis on the stack while items are read into it; a nested list
      is read by a nested call that is handed its `(` back through `slot`
      (here: it starts at that token); a quote reads the next form by a
      nested call. The atoms are classified by `parse`, which is
      `prase_atom` in `GenExp`. */
  method GenExpWith(parse: string -> Option<Datum>, vals: seq<string>, pos: nat) returns (r: ReadResult)
    requires pos <= |vals|
    ensures r == ReadFormWith(parse, vals, pos)
    decreases |vals| - pos
  {
    if pos == |vals| {
      return EndOfSource;
    }
    var tok := vals[pos];
    if tok == ")" {
      return UnmatchedRight(pos);
    } else if tok == "'" {
      if pos + 1 == |vals| {
        return UnmatchedQuote(pos);
      }
      var inner := GenExpWith(parse, vals, pos + 1);
      if !inner.Parsed? {
        return inner;
      }
      return Parsed(List([Sym("quote"), inner.d]), inner.next);
    } else if tok != "(" {
      AtomForm(parse, vals, pos);
      match parse(tok)
      case Some(a) => return Parsed(a, pos + 1);
      case None => return AtomCrash(pos);
    }
    var acc: seq<Datum> := [];
    var p := pos + 1;
    while true
      invariant pos < p <= |vals|
      invariant ReadListWith(parse, vals, p, pos, acc) == ReadFormWith(parse, vals, pos)
      decreases |vals| - p
    {
      if p == |vals| {
        return UnmatchedLeft(pos);
      }
      var t := vals[p];
      if t == "(" {
        var inner := GenExpWith(parse, vals, p);
        if !inner.Parsed? {
          return inner;
        }
        ReadItem(parse, vals, p, pos, acc);
        acc, p := acc + [inner.d], inner.next;
      } else if t == ")" {
        return Parsed(List(acc), p + 1);
      } else if t == "'" {
        if p + 1 == |vals| {
          return UnmatchedQuote(p);
        }
        var inner := GenExpWith(parse, vals, p + 1);
        QuotedItem(parse, vals, p, pos, acc);
        if !inner.Parsed? {
          return inner;
        }
        acc, p := [Sym("quote"), inner.d], inner.next;
      } else {
        AtomItem(parse, vals, p, pos, acc);
        match parse(t)
        case Some(a) =>
          acc, p := acc + [a], p + 1;
        case None =>
          return AtomCrash(p);
      }
    }
  }

  /** `GenExp`: the reader with `prase_atom` classifying the atoms. */
  method GenExp(vals: seq<string>, pos: nat) returns (r: ReadResult)
    requires pos <= |vals|
    ensures r == ReadForm(vals, pos)
  {
    r := GenExpWith(ParseAtom, vals, pos);
  }

  /** An atom token read on its own. */
  lemma AtomForm(parse: string -> Option<Datum>, vals: seq<string>, pos: nat)
    requires pos < |vals| && vals[pos] != "(" && vals[pos] != ")" && vals[pos] != "'"
    ensures ReadFormWith(parse, vals, pos) ==
            if parse(vals[pos]).Some? then Parsed(parse(vals[pos]).value, pos + 1) else AtomCrash(pos)
  {
  }

  /** Inside an open list, `'X` reads `X` and replaces the list built so
      far by `(quote X)`; a failure to read `X` is the list's failure. */
  lemma QuotedItem(parse: string -> Option<Datum>, vals: seq<string>, pos: nat, open: nat, acc: seq<Datum>)
    requires pos + 1 < |vals| && vals[pos] == "'"
    ensures var r := ReadFormWith(parse, vals, pos + 1);
            ReadListWith(parse, vals, pos, open, acc) ==
            if r.Parsed? then ReadListWith(parse, vals, r.next, open, [Sym("quote"), r.d]) else r
  {
  }

  /** An atom token read inside an open list. */
  lemma AtomItem(parse: string -> Option<Datum>, vals: seq<string>, pos: nat, open: nat, acc: seq<Datum>)
    requires pos < |vals| && vals[pos] != "(" && vals[pos] != ")" && vals[pos] != "'"
    ensures ReadListWith(parse, vals, pos, open, acc) ==
            if parse(vals[pos]).Some? then ReadListWith(parse, vals, pos + 1, open, acc + [parse(vals[pos]).value])
            else AtomCrash(pos)
  {
  }

  /** The token texts of the canonical spelling of a form. */
  function Tokens(d: Datum): seq<string>
    decreases d
  {
    match d
    case List(items) => ["("] + TokensOf(items) + [")"]
    case _ => [AtomText(d)]
  }

  function TokensOf(ds: seq<Datum>): seq<string>
    decreases ds
  {
    if ds == [] then [] else Tokens(ds[0]) + TokensOf(ds[1..])
  }

  function AtomText(d: Datum): string
    requires !d.List?
  {
    match d
    case Int(i) => IntText(i)
    case Flt(t) => t
    case Bool(b) => if b then "#t" else "#f"
    case Sym(n) => n
  }

  /** A form whose atoms are written as single tokens that `parse` reads
      back as themselves. */
  predicate PrintableWith(parse: string -> Option<Datum>, d: Datum)
    decreases d
  {
    match d
    case List(items) => PrintableAllWith(parse, items)
    case _ => AtomText(d) !in {"(", ")", "'"} && parse(AtomText(d)) == Some(d)
  }

  predicate PrintableAllWith(parse: string -> Option<Datum>, ds: seq<Datum>)
    decreases ds
  {
    ds == [] || (PrintableWith(parse, ds[0]) && PrintableAllWith(parse, ds[1..]))
  }

  predicate Printable(d: Datum) {
    PrintableWith(ParseAtom, d)
  }

  predicate PrintableAll(ds: seq<Datum>) {
    PrintableAllWith(ParseAtom, ds)
  }

  /** Every integer and every boolean is printable. */
  lemma NumbersArePrintable(i: int, b: bool)
    ensures Printable(Int(i)) && Printable(Bool(b))
  {
    IntPrintable(i);
    BoolReadsBack(if b then "#t" else "#f");
  }

  lemma IntPrintable(i: int)
    ensures Printable(Int(i))
  {
    IntTextRoundTrip(i);
    var s := IntText(i);
    assert s != "(" && s != ")" && s != "'" by {
      NatTextDigits(if i < 0 then -i else i);
      if i >= 0 { assert IsDigit(s[0]); }
    }
  }

  lemma BoolReadsBack(s: string)
    requires s == "#t" || s == "#f"
    ensures ParseAtom(s) == Some(Bool(s == "#t"))
  {
    assert !IsDigit('#');
    assert !IsIntLiteral(s) by {
      assert Unsigned(s) == s;
    }
    assert Find(s, '.') == 2 && Find(s, 'e') == 2 && Find(s, 'E') == 2 && Find(s, '/') == 2;
    assert !IsFloatLiteral(s) by {
      assert LowerAll(s)[0] == '#';
      assert !AllDigits(s);
    }
    assert !IsFractionLiteral(s);
  }

  /** The tokens `t` stand in `vals` from position `pos` on. */
  predicate At(vals: seq<string>, pos: nat, t: seq<string>) {
    pos + |t| <= |vals| && AtFrom(vals, pos, t)
  }

  /** `At` without the bound, one token at a time. */
  predicate AtFrom(vals: seq<string>, pos: nat, t: seq<string>)
    decreases t
  {
    t == [] || (pos < |vals| && vals[pos] == t[0] && AtFrom(vals, pos + 1, t[1..]))
  }

  lemma {:induction false} AtSplit(vals: seq<string>, pos: nat, a: seq<string>, b: seq<string>)
    requires At(vals, pos, a + b)
    ensures At(vals, pos, a) && At(vals, pos + |a|, b)
    decreases a
  {
    if a == [] {
      assert a + b == b;
    } else {
      assert (a + b)[0] == a[0];
      assert (a + b)[1..] == a[1..] + b;
      AtSplit(vals, pos + 1, a[1..], b);
    }
  }

  /** A sequence stands in any sequence that contains it, where it starts. */
  lemma {:induction false} AtInside(a: seq<string>, t: seq<string>, b: seq<string>)
    ensures At(a + t + b, |a|, t)
    decreases t
  {
    if t != [] {
      assert (a + t + b)[|a|] == t[0];
      assert a + t + b == (a + [t[0]]) + t[1..] + b;
      AtInside(a + [t[0]], t[1..], b);
    }
  }

  lemma AtPrefix(t: seq<string>, b: seq<string>)
    ensures At(t + b, 0, t)
  {
    AtInside([], t, b);
    assert [] + t + b == t + b;
  }

  lemma AtSuffix(a: seq<string>, t: seq<string>)
    ensures At(a + t, |a|, t)
  {
    AtInside(a, t, []);
    assert a + t + [] == a + t;
  }

  /** The canonical spelling of a form, followed by anything, reads back as
      that form and consumes exactly its tokens. */
  lemma {:induction false} ReadFormTokens(parse: string -> Option<Datum>, vals: seq<string>, pos: nat, d: Datum)
    requires PrintableWith(parse, d) && At(vals, pos, Tokens(d))
    ensures ReadFormWith(parse, vals, pos) == Parsed(d, pos + |Tokens(d)|)
    decreases d, 1
  {
    assert vals[pos + 0] == Tokens(d)[0];
    if d.List? {
      assert Tokens(d) == ["("] + (TokensOf(d.items) + [")"]);
      AtSplit(vals, pos, ["("], TokensOf(d.items) + [")"]);
      ReadListTokens(parse, vals, pos + 1, pos, [], d.items);
      assert [] + d.items == d.items;
    }
  }

  /** Inside an open list, an item other than a quoted one is read exactly
      as a top-level form would be, and appended to the list. */
  lemma ReadItem(parse: string -> Option<Datum>, vals: seq<string>, pos: nat, open: nat, acc: seq<Datum>)
    requires pos < |vals| && vals[pos] != ")" && vals[pos] != "'"
    requires ReadFormWith(parse, vals, pos).Parsed?
    ensures ReadListWith(parse, vals, pos, open, acc) ==
            ReadListWith(parse, vals, ReadFormWith(parse, vals, pos).next, open, acc + [ReadFormWith(parse, vals, pos).d])
  {
  }

  /** Inside an open list, the spellings of items followed by `)` close the
      list with those items appended to what was built so far. */
  lemma {:induction false} ReadListTokens(parse: string -> Option<Datum>, vals: seq<string>, pos: nat, open: nat,
                                          acc: seq<Datum>, ds: seq<Datum>)
    requires PrintableAllWith(parse, ds) && At(vals, pos, TokensOf(ds) + [")"])
    ensures ReadListWith(parse, vals, pos, open, acc) == Parsed(List(acc + ds), pos + |TokensOf(ds)| + 1)
    decreases ds, 1
  {
    if ds == [] {
      assert vals[pos + 0] == (TokensOf(ds) + [")"])[0];
      assert acc + ds == acc;
    } else {
      ReadListCons(parse, vals, pos, open, acc, ds);
    }
  }

  /** The step of `ReadListTokens` for a non-empty list of items. */
  lemma {:induction false} ReadListCons(parse: string -> Option<Datum>, vals: seq<string>, pos: nat, open: nat,
                                        acc: seq<Datum>, ds: seq<Datum>)
    requires ds != [] && PrintableAllWith(parse, ds) && At(vals, pos, TokensOf(ds) + [")"])
    ensures ReadListWith(parse, vals, pos, open, acc) == Parsed(List(acc + ds), pos + |TokensOf(ds)| + 1)
    decreases ds, 0
  {
    var d := ds[0];
    PrintableCons(parse, ds);
    ConsTokens(vals, pos, ds);
    ReadListItem(parse, vals, pos, open, acc, d);
    ReadListTokens(parse, vals, pos + |Tokens(d)|, open, acc + [d], ds[1..]);
    AppendFirst(acc, ds);
  }

  /** The first item and the rest of a list of printable items are printable. */
  lemma PrintableCons(parse: string -> Option<Datum>, ds: seq<Datum>)
    requires ds != [] && PrintableAllWith(parse, ds)
    ensures PrintableWith(parse, ds[0]) && PrintableAllWith(parse, ds[1..])
  {
  }

  /** The spelling of the first item and then of the rest, followed by `)`. */
  lemma ConsTokens(vals: seq<string>, pos: nat, ds: seq<Datum>)
    requires ds != [] && At(vals, pos, TokensOf(ds) + [")"])
    ensures At(vals, pos, Tokens(ds[0]))
    ensures At(vals, pos + |Tokens(ds[0])|, TokensOf(ds[1..]) + [")"])
    ensures |TokensOf(ds)| == |Tokens(ds[0])| + |TokensOf(ds[1..])|
  {
    assert TokensOf(ds) == Tokens(ds[0]) + TokensOf(ds[1..]);
    AtSplitClosed(vals, pos, Tokens(ds[0]), TokensOf(ds[1..]));
  }

  lemma AtSplitClosed(vals: seq<string>, pos: nat, a: seq<string>, b: seq<string>)
    requires At(vals, pos, (a + b) + [")"])
    ensures At(vals, pos, a) && At(vals, pos + |a|, b + [")"])
  {
    assert (a + b) + [")"] == a + (b + [")"]);
    AtSplit(vals, pos, a, b + [")"]);
  }

  lemma AppendFirst<T>(acc: seq<T>, ds: seq<T>)
    requires ds != []
    ensures acc + ds == (acc + [ds[0]]) + ds[1..]
  {
  }

  /** Inside an open list, the spelling of one item is read as that item
      and appended to the list. */
  lemma {:induction false} ReadListItem(parse: string -> Option<Datum>, vals: seq<string>, pos: nat, open: nat,
                                        acc: seq<Datum>, d: Datum)
    requires PrintableWith(parse, d) && At(vals, pos, Tokens(d))
    ensures ReadListWith(parse, vals, pos, open, acc) == ReadListWith(parse, vals, pos + |Tokens(d)|, open, acc + [d])
    decreases d, 2
  {
    ReadFormTokens(parse, vals, pos, d);
    FirstToken(parse, d);
    assert vals[pos + 0] == Tokens(d)[0];
    ReadItem(parse, vals, pos, open, acc);
  }

  lemma FirstToken(parse: string -> Option<Datum>, d: Datum)
    requires PrintableWith(parse, d)
    ensures |Tokens(d)| >= 1 && Tokens(d)[0] != ")" && Tokens(d)[0] != "'"
  {
  }

  /** A canonical spelling reads back as its form (`decode(encode(x)) == x`). */
  lemma ReadRoundTrip(d: Datum, rest: seq<string>)
    requires Printable(d)
    ensures ReadForm(Tokens(d) + rest, 0) == Parsed(d, |Tokens(d)|)
  {
    var vals := Tokens(d) + rest;
    AtPrefix(Tokens(d), rest);
    ReadFormTokens(ParseAtom, vals, 0, d);
  }

  /** Items that are never closed: the error names the innermost open list,
      which here is the outer one. */
  lemma {:induction false} ReadListUnclosed(parse: string -> Option<Datum>, vals: seq<string>, pos: nat, open: nat,
                                            acc: seq<Datum>, ds: seq<Datum>)
    requires PrintableAllWith(parse, ds) && At(vals, pos, TokensOf(ds)) && pos + |TokensOf(ds)| == |vals|
    ensures ReadListWith(parse, vals, pos, open, acc) == UnmatchedLeft(open)
    decreases ds
  {
    if ds != [] {
      var d := ds[0];
      assert TokensOf(ds) == Tokens(d) + TokensOf(ds[1..]);
      AtSplit(vals, pos, Tokens(d), TokensOf(ds[1..]));
      ReadListItem(parse, vals, pos, open, acc, d);
      ReadListUnclosed(parse, vals, pos + |Tokens(d)|, open, acc + [d], ds[1..]);
    }
  }

  /** An opening `(` followed by complete forms and the end of the stream is
      an unmatched left parenthesis at that `(`. */
  lemma UnclosedList(ds: seq<Datum>)
    requires PrintableAll(ds)
    ensures ReadForm(["("] + TokensOf(ds), 0) == UnmatchedLeft(0)
  {
    var vals := ["("] + TokensOf(ds);
    AtSuffix(["("], TokensOf(ds));
    ReadListUnclosed(ParseAtom, vals, 1, 0, [], ds);
  }

  /** Reading stops after the first form: a leading atom is returned after
      one token whatever follows. */
  lemma LeadingAtom(vals: seq<string>, pos: nat, a: Datum)
    requires pos < |vals| && vals[pos] !in {"(", ")", "'"}
    requires ParseAtom(vals[pos]) == Some(a)
    ensures ReadForm(vals, pos) == Parsed(a, pos + 1) && !a.List?
  {
  }

  /** The three reader errors and the end of the source. */
  lemma ReadErrors(vals: seq<string>, pos: nat)
    requires pos <= |vals|
    ensures pos == |vals| ==> ReadForm(vals, pos) == EndOfSource
    ensures pos < |vals| && vals[pos] == ")" ==> ReadForm(vals, pos) == UnmatchedRight(pos)
    ensures pos == |vals| - 1 && vals[pos] == "'" ==> ReadForm(vals, pos) == UnmatchedQuote(pos)
    ensures pos < |vals| && vals[pos] == "(" ==> ReadForm(vals, pos) != EndOfSource
  {
    if pos < |vals| && vals[pos] == "(" {
      ReadListNeverEnds(vals, pos + 1, pos, []);
    }
  }

  /** Once a list is open, the end of the stream is an error, never the end
      of the source. */
  lemma {:induction false} ReadListNeverEnds(vals: seq<string>, pos: nat, open: nat, acc: seq<Datum>)
    requires pos <= |vals|
    ensures ReadList(vals, pos, open, acc) != EndOfSource
    decreases |vals| - pos
  {
    if pos < |vals| {
      if vals[pos] == "(" {
        ReadListNeverEnds(vals, pos + 1, pos, []);
        var r := ReadList(vals, pos + 1, pos, []);
        if r.Parsed? { ReadListNeverEnds(vals, r.next, open, acc + [r.d]); }
      } else if vals[pos] == "'" && pos + 1 < |vals| {
        ReadFormNeverEndsAfter(vals, pos + 1);
        var r := ReadForm(vals, pos + 1);
        if r.Parsed? { ReadListNeverEnds(vals, r.next, open, [Sym("quote"), r.d]); }
      } else if vals[pos] != ")" && vals[pos] != "'" {
        if ParseAtom(vals[pos]).Some? {
          ReadListNeverEnds(vals, pos + 1, open, acc + [ParseAtom(vals[pos]).value]);
        }
      }
    }
  }

  lemma {:induction false} ReadFormNeverEndsAfter(vals: seq<string>, pos: nat)
    requires pos < |vals|
    ensures ReadForm(vals, pos) != EndOfSource
    decreases |vals| - pos
  {
    if vals[pos] == "(" {
      ReadListNeverEnds(vals, pos + 1, pos, []);
    } else if vals[pos] == "'" && pos + 1 < |vals| {
      ReadFormNeverEndsAfter(vals, pos + 1);
    }
  }

  /** Inside a list, a `'` discards the items read so far: what follows does
      not depend on them. */
  lemma QuoteDiscardsItems(vals: seq<string>, pos: nat, open: nat, acc: seq<Datum>, acc': seq<Datum>)
    requires pos < |vals| && vals[pos] == "'"
    ensures ReadList(vals, pos, open, acc) == ReadList(vals, pos, open, acc')
  {
  }

  /** At top level `'X` reads as `(quote X)`. */
  lemma TopLevelQuote(vals: seq<string>, pos: nat)
    requires pos + 1 < |vals| && vals[pos] == "'"
    ensures ReadForm(vals, pos + 1).Parsed? ==>
              ReadForm(vals, pos) == Parsed(List([Sym("quote"), ReadForm(vals, pos + 1).d]), ReadForm(vals, pos + 1).next)
    ensures !ReadForm(vals, pos + 1).Parsed? ==> ReadForm(vals, pos) == ReadForm(vals, pos + 1)
  {
  }

  /** Python's `s[k:]`: from offset `k` on, a negative `k` counting from
      the end. */
  function Drop(s: string, k: int): (r: string)
    ensures 0 <= k <= |s| ==> r == s[k..]
    ensures k >= |s| ==> r == []
    ensures k < 0 ==> |r| == (if -k < |s| then -k else |s|) && r == s[|s| - |r|..]
  {
    if k >= |s| then []
    else if k >= 0 then s[k..]
    else if |s| + k <= 0 then s
    else s[|s| + k..]
  }

  /** `find_left`: the source from the next unread token on, or nothing when
      every token was read. */
  function FindLeft(source: string, toks: seq<Lexer.Token>, pos: nat): (r: string)
    ensures pos >= |toks| ==> r == []
    ensures pos < |toks| && 0 <= toks[pos].where <= |source| ==> r == source[toks[pos].where..]
  {
    if pos < |toks| then Drop(source, toks[pos].where) else []
  }

  /** The text `find_left` hands back tokenizes to the tokens not yet
      read: the same texts, each offset less by where the remaining text
      starts in the source (lines and columns are counted afresh). */
  lemma FindLeftRetokenizes(source: string, time: int, pos: nat)
    requires pos < |Lexer.Tokenize(source, time)|
    ensures var toks := Lexer.Tokenize(source, time);
            Values(Lexer.Tokenize(FindLeft(source, toks, pos), time)) == Values(toks[pos..])
    ensures var toks := Lexer.Tokenize(source, time);
            var rest := Lexer.Tokenize(FindLeft(source, toks, pos), time);
            forall i :: 0 <= i < |rest| ==> rest[i].where + toks[pos].where == toks[pos + i].where
  {
    var toks := Lexer.Tokenize(source, time);
    Resume.TokenizeFrom(source, time, pos);
    var rest := Lexer.Tokenize(FindLeft(source, toks, pos), time);
    assert rest == Lexer.Tokenize(source[toks[pos].where..], time);
    var vr, vt := Values(rest), Values(toks[pos..]);
    assert |vr| == |vt|;
    forall i | 0 <= i < |vr| ensures vr[i] == vt[i] {
      assert toks[pos..][i] == toks[pos + i];
    }
  }

  /** The token texts. */
  function Values(toks: seq<Lexer.Token>): (vals: seq<string>)
    ensures |vals| == |toks| && forall i :: 0 <= i < |toks| ==> vals[i] == toks[i].value
  {
    if toks == [] then [] else Values(toks[..|toks| - 1]) + [toks[|toks| - 1].value]
  }
}
