/**
 * The printer and the reader together: printing a value built from
 * non-negative numbers, plain names and lists, and reading the text back,
 * gives the value again.
 */
module RoundTrip {
  import opened Objects
  import opened Chars
  import opened Print
  import opened Reader

  /**
   * The values whose printing reads back: non-negative numbers (the reader
   * has no minus sign), non-empty alphanumeric names that do not start
   * with a digit (those would read as numbers), and lists of such values.
   */
  predicate Printable(v: Value)
    decreases v, 1
  {
    match v
    case Num(n) => n >= 0
    case Name(s) => |s| > 0 && AllAlnum(s) && !IsDigit(s[0])
    case List(items) => AllPrintable(items)
    case _ => false
  }

  predicate AllPrintable(items: seq<Value>)
    decreases items, 0
  {
    forall k :: 0 <= k < |items| ==> Printable(items[k])
  }

  /** The printings of the elements of a list, one after the other. */
  function Elements(items: seq<Value>): string
  {
    if items == [] then "" else PrintObj(items[0]) + Elements(items[1..])
  }

  /** A list prints as its elements followed by the closing parenthesis. */
  lemma {:induction false} PrintListIsElements(items: seq<Value>)
    ensures PrintList(items) == Elements(items) + ")"
  {
    if items != [] {
      PrintListIsElements(items[1..]);
      Assoc(PrintObj(items[0]), Elements(items[1..]), ")");
    }
  }

  /** The text of the atom that `v` prints as: the numeral or the name. */
  function AtomText(v: Value): string
    requires v.Num? || v.Name?
  {
    if v.Num? then NatToString(if v.n < 0 then -v.n else v.n) else v.name
  }

  /** The tokens the printing of `v` yields when it starts at index `i`. */
  function ObjTokens(v: Value, i: nat): seq<Token>
    decreases v, 1
  {
    match v
    case Num(_) => [Token(i, i + |AtomText(v)|, Symbol(AtomText(v)))]
    case Name(_) => [Token(i, i + |AtomText(v)|, Symbol(AtomText(v)))]
    case List(items) => [OpenToken(i)] + ItemsTokens(items, i + 2) + [CloseToken(i + 2 + ItemsWidth(items))]
    case _ => []
  }

  function ItemsTokens(items: seq<Value>, i: nat): seq<Token>
    decreases items, 0
  {
    if items == [] then [] else ObjTokens(items[0], i) + ItemsTokens(items[1..], i + Width(items[0]))
  }

  /**
   * How many characters the printing of a printable value takes, counted
   * from its structure (`WidthIsLength`), so that the token positions do
   * not depend on the printed text itself.
   */
  function Width(v: Value): nat
    decreases v, 1
  {
    match v
    case Num(_) => |AtomText(v)| + 1
    case Name(_) => |AtomText(v)| + 1
    case List(items) => ItemsWidth(items) + 3
    case _ => 0
  }

  function ItemsWidth(items: seq<Value>): nat
    decreases items, 0
  {
    if items == [] then 0 else Width(items[0]) + ItemsWidth(items[1..])
  }

  lemma {:induction false} WidthIsLength(v: Value)
    requires Printable(v)
    ensures Width(v) == |PrintObj(v)|
    decreases v, 1
  {
    if v.List? {
      ListPrinting(v.items);
      ItemsWidthIsLength(v.items);
    } else {
      AtomPrinting(v, 0, |AtomText(v)|);
    }
  }

  lemma {:induction false} ItemsWidthIsLength(items: seq<Value>)
    requires AllPrintable(items)
    ensures ItemsWidth(items) == |Elements(items)|
    decreases items, 0
  {
    if items != [] {
      ElementsCons(items);
      PrintableParts(items);
      WidthIsLength(items[0]);
      ItemsWidthIsLength(items[1..]);
    }
  }

  // ---------------------------------------------------------------------
  // Tokenizing the printed text
  // ---------------------------------------------------------------------

  // Every position below is passed as a parameter of its own, tied to the
  // others by a `requires`, so that each fact a lemma hands on mentions
  // exactly the positions the next lemma asks for.

  /** `w` holds `p` from index `i` on. */
  ghost predicate At(w: string, i: nat, p: string)
  {
    i + |p| <= |w| && w[i..i + |p|] == p
  }

  lemma AtWhole(w: string)
    ensures At(w, 0, w)
  {
  }

  lemma AtSplit(w: string, i: nat, p: string, q: string, m: nat)
    requires At(w, i, p + q) && m == i + |p|
    ensures At(w, i, p) && At(w, m, q)
  {
    var j := m + |q|;
    assert w[i..m] == w[i..j][..|p|] == (p + q)[..|p|] == p;
    assert w[m..j] == w[i..j][|p|..] == (p + q)[|p|..] == q;
  }

  lemma AtChar(w: string, i: nat, p: string, k: nat)
    requires At(w, i, p) && k < |p|
    ensures w[i + k] == p[k]
  {
    assert w[i..i + |p|][k] == w[i + k];
  }

  lemma AtAlnum(w: string, i: nat, t: string, e: nat)
    requires At(w, i, t) && AllAlnum(t) && e == i + |t|
    ensures forall k :: i <= k < e ==> IsAlnum(w[k])
  {
    forall k | i <= k < e
      ensures IsAlnum(w[k])
    {
      AtChar(w, i, t, k - i);
    }
  }

  /** A maximal alphanumeric text yields one Symbol token. */
  lemma LexSymbol(w: string, i: nat, t: string, e: nat)
    requires |t| > 0 && AllAlnum(t) && At(w, i, t) && e == i + |t|
    requires e < |w| && !IsAlnum(w[e])
    ensures Lex(w, i) == [Token(i, e, Symbol(t))] + Lex(w, e)
  {
    AtAlnum(w, i, t, e);
    LexRun(w, i, e);
  }

  /** An alphanumeric text followed by a space yields one Symbol token, ending at `e`. */
  lemma LexSymbolSpace(w: string, i: nat, t: string, e: nat, j: nat)
    requires |t| > 0 && AllAlnum(t) && At(w, i, t + " ") && e == i + |t| && j == e + 1
    ensures Lex(w, i) == [Token(i, e, Symbol(t))] + Lex(w, j)
  {
    AtSplit(w, i, t, " ", e);
    AtChar(w, e, " ", 0);
    LexSymbol(w, i, t, e);
    LexSpace(w, e, j);
  }

  /** A space yields no token. */
  lemma LexSpace(w: string, e: nat, j: nat)
    requires e < |w| && w[e] == ' ' && j == e + 1
    ensures Lex(w, e) == Lex(w, j)
  {
    LexSkip(w, e);
  }

  /** `( ` yields one Open token. */
  lemma LexOpenBlank(w: string, i: nat, b: nat)
    requires b == i + 2 <= |w| && w[i] == '(' && w[i + 1] == ' '
    ensures Lex(w, i) == [OpenToken(i)] + Lex(w, b)
  {
    LexBracket(w, i);
    LexSkip(w, i + 1);
  }

  /** `)` yields one Close token. */
  lemma LexCloseParen(w: string, c: nat, j: nat)
    requires c < |w| && w[c] == ')' && j == c + 1
    ensures Lex(w, c) == [CloseToken(c)] + Lex(w, j)
  {
    LexBracket(w, c);
  }

  /** A printable number or name prints as its text and a space. */
  lemma AtomPrinting(v: Value, i: nat, e: nat)
    requires Printable(v) && (v.Num? || v.Name?) && e == i + |AtomText(v)|
    ensures |AtomText(v)| > 0 && AllAlnum(AtomText(v))
    ensures PrintObj(v) == AtomText(v) + " "
    ensures |PrintObj(v)| == |AtomText(v)| + 1
    ensures ObjTokens(v, i) == [Token(i, e, Symbol(AtomText(v)))]
  {
    if v.Num? {
      var t := NatToString(v.n);
      assert forall k :: 0 <= k < |t| ==> IsDigit(t[k]);
    }
  }

  /** A list prints as `( `, its elements, and `)`. */
  lemma ListPrinting(items: seq<Value>)
    ensures PrintObj(List(items)) == "( " + Elements(items) + ")"
    ensures |PrintObj(List(items))| == |Elements(items)| + 3
  {
    PrintListIsElements(items);
    Assoc("( ", Elements(items), ")");
  }

  /** Where `( ` + `e` + `)` is written, each of its pieces is. */
  lemma AtList(w: string, i: nat, e: string, b: nat, c: nat)
    requires At(w, i, "( " + e + ")") && b == i + 2 && c == b + |e|
    ensures c < |w|
    ensures w[i] == '(' && w[i + 1] == ' ' && At(w, b, e) && w[c] == ')'
  {
    AtSplit(w, i, "( " + e, ")", c);
    AtSplit(w, i, "( ", e, b);
    AtChar(w, i, "( ", 0);
    AtChar(w, i, "( ", 1);
    AtChar(w, c, ")", 0);
  }

  lemma ListTokensAt(ys: seq<Value>, i: nat, b: nat, c: nat)
    requires b == i + 2 && c == b + ItemsWidth(ys)
    ensures ObjTokens(List(ys), i) == [OpenToken(i)] + ItemsTokens(ys, b) + [CloseToken(c)]
  {
    assert ItemsTokens(ys, b) == ItemsTokens(ys, i + 2);
  }

  lemma PrintableParts(items: seq<Value>)
    requires items != [] && AllPrintable(items)
    ensures Printable(items[0]) && AllPrintable(items[1..])
  {
    assert forall k :: 0 <= k < |items| - 1 ==> items[1..][k] == items[k + 1];
  }

  lemma ItemsNil(items: seq<Value>, i: nat)
    requires items == []
    ensures ItemsTokens(items, i) == [] && |Elements(items)| == 0
  {
  }

  lemma ElementsCons(items: seq<Value>)
    requires items != []
    ensures Elements(items) == PrintObj(items[0]) + Elements(items[1..])
    ensures |Elements(items)| == |PrintObj(items[0])| + |Elements(items[1..])|
  {
  }

  lemma ItemsTokensCons(items: seq<Value>, i: nat, m: nat)
    requires items != [] && m == i + Width(items[0])
    ensures ItemsTokens(items, i) == ObjTokens(items[0], i) + ItemsTokens(items[1..], m)
  {
  }

  /** Three pieces glued in front of a rest, as one sequence equality. */
  lemma Glue<T>(l0: seq<T>, l1: seq<T>, l2: seq<T>, l3: seq<T>, a: seq<T>, b: seq<T>, c: seq<T>)
    requires l0 == a + l1 && l1 == b + l2 && l2 == c + l3
    ensures l0 == a + b + c + l3
  {
    assert a + (b + (c + l3)) == a + b + c + l3;
  }

  /**
   * The tokens of a printed value starting at index `i` and ending before
   * `j` are `ObjTokens`, whatever text follows it.
   */
  lemma {:induction false} LexPrinted(w: string, i: nat, v: Value, j: nat)
    requires Printable(v) && At(w, i, PrintObj(v)) && j == i + |PrintObj(v)|
    ensures j <= |w|
    ensures Lex(w, i) == ObjTokens(v, i) + Lex(w, j)
    decreases v, 3
  {
    if v.List? {
      LexPrintedList(w, i, v.items, j);
    } else {
      LexPrintedAtom(w, i, v, j);
    }
  }

  lemma LexPrintedAtom(w: string, i: nat, v: Value, j: nat)
    requires Printable(v) && (v.Num? || v.Name?)
    requires At(w, i, PrintObj(v)) && j == i + |PrintObj(v)|
    ensures j <= |w|
    ensures Lex(w, i) == ObjTokens(v, i) + Lex(w, j)
  {
    var t := AtomText(v);
    var e := i + |t|;
    AtomPrinting(v, i, e);
    LexSymbolSpace(w, i, t, e, j);
  }

  lemma {:induction false} LexPrintedList(w: string, i: nat, items: seq<Value>, j: nat)
    requires AllPrintable(items)
    requires At(w, i, PrintObj(List(items))) && j == i + |PrintObj(List(items))|
    ensures j <= |w|
    ensures Lex(w, i) == ObjTokens(List(items), i) + Lex(w, j)
    decreases items, 2
  {
    var e := Elements(items);
    var b := i + 2;
    var c := b + ItemsWidth(items);
    ListPrinting(items);
    ItemsWidthIsLength(items);
    AtList(w, i, e, b, c);
    LexOpenBlank(w, i, b);
    LexPrintedItems(w, b, items, c);
    LexCloseParen(w, c, j);
    ListTokensAt(items, i, b, c);
    Glue(Lex(w, i), Lex(w, b), Lex(w, c), Lex(w, j), [OpenToken(i)], ItemsTokens(items, b), [CloseToken(c)]);
  }

  lemma {:induction false} LexPrintedItems(w: string, i: nat, items: seq<Value>, j: nat)
    requires AllPrintable(items)
    requires At(w, i, Elements(items)) && j == i + |Elements(items)|
    ensures j <= |w|
    ensures Lex(w, i) == ItemsTokens(items, i) + Lex(w, j)
    decreases items, 1
  {
    if items == [] {
      ItemsNil(items, i);
      assert Lex(w, i) == ItemsTokens(items, i) + Lex(w, j) by {
        assert ItemsTokens(items, i) + Lex(w, j) == Lex(w, j);
      }
    } else {
      var x, rest := items[0], items[1..];
      var p, e := PrintObj(x), Elements(rest);
      var m := i + |p|;
      ElementsCons(items);
      PrintableParts(items);
      WidthIsLength(x);
      ItemsTokensCons(items, i, m);
      AtSplit(w, i, p, e, m);
      LexPrinted(w, i, x, m);
      LexPrintedItems(w, m, rest, j);
      assert Lex(w, i) == ItemsTokens(items, i) + Lex(w, j) by {
        Assoc(ObjTokens(x, i), ItemsTokens(rest, m), Lex(w, j));
      }
    }
  }

  // ---------------------------------------------------------------------
  // Parsing the printed tokens
  // ---------------------------------------------------------------------

  /** The nodes from index `k` of `rem` on hold the tokens `ts`. */
  ghost predicate NodesAt(rem: seq<Node>, k: nat, ts: seq<Token>)
    decreases ts
  {
    if ts == [] then k <= |rem|
    else k < |rem| && rem[k] == Tok(ts[0]) && NodesAt(rem, k + 1, ts[1..])
  }

  lemma {:induction false} NodesAtLength(rem: seq<Node>, k: nat, ts: seq<Token>)
    requires NodesAt(rem, k, ts)
    ensures k + |ts| <= |rem|
    decreases ts
  {
    if ts != [] {
      NodesAtLength(rem, k + 1, ts[1..]);
    }
  }

  lemma {:induction false} NodesAtSplit(rem: seq<Node>, k: nat, a: seq<Token>, b: seq<Token>, m: nat)
    requires NodesAt(rem, k, a + b) && m == k + |a|
    ensures NodesAt(rem, k, a) && NodesAt(rem, m, b)
    decreases a
  {
    if a == [] {
      assert a + b == b;
      NodesAtLength(rem, k, b);
    } else {
      assert (a + b)[0] == a[0];
      assert (a + b)[1..] == a[1..] + b;
      NodesAtSplit(rem, k + 1, a[1..], b, m);
    }
  }

  lemma NodeFirst(rem: seq<Node>, k: nat, ts: seq<Token>)
    requires NodesAt(rem, k, ts) && ts != []
    ensures k < |rem| && rem[k] == Tok(ts[0])
  {
  }

  lemma TokensLength(a: seq<Token>, b: seq<Token>, ab: seq<Token>)
    requires ab == a + b
    ensures |ab| == |a| + |b|
  {
  }

  lemma {:induction false} NodesAtFilled(ts: seq<Token>, m: nat)
    requires m <= |ts|
    ensures NodesAt(Filled(ts), m, ts[m..])
    decreases |ts| - m
  {
    if m < |ts| {
      NodesAtFilled(ts, m + 1);
      assert ts[m..][1..] == ts[m + 1..];
    }
  }

  lemma FilledAppend(a: seq<Token>, b: seq<Token>)
    ensures Filled(a + b) == Filled(a) + Filled(b)
  {
  }

  lemma Halves<T>(a: seq<T>, b: seq<T>, ab: seq<T>, m: nat)
    requires ab == a + b && m == |a|
    ensures ab[..m] == a && ab[m..] == b
  {
  }

  lemma Ends<T>(a: seq<T>, b: seq<T>, c: seq<T>, abc: seq<T>)
    requires abc == a + b + c && |a| == 1 && |c| == 1
    ensures SliceEnds(abc) == b
  {
    assert abc[1..|abc| - 1] == b;
  }

  lemma ListHead(ys: seq<Value>, i: nat)
    ensures ObjTokens(List(ys), i)[0] == OpenToken(i)
  {
  }

  lemma LexEnd(w: string, n: nat)
    requires n == |w|
    ensures Lex(w, n) == []
  {
  }

  /** The reading of the elements when the first node holds a Symbol. */
  lemma ItemsFromSymbol(rem: seq<Node>, t: Token)
    requires rem != [] && rem[0] == Tok(t) && t.kind.Symbol?
    ensures ParseItems(rem) == Prefixed(Ok(Atom(t.kind.text)), ParseItems(rem[1..]))
  {
  }

  /** The reading of the elements when the first node opens a run that closes at node `n`. */
  lemma ItemsFromRun(rem: seq<Node>, t: Token, n: nat, m: nat)
    requires rem != [] && rem[0] == Tok(t) && !t.kind.Symbol?
    requires MatchClose(rem, 0, 1) == Some(n) && m == n + 1
    ensures ParseItems(rem) == Prefixed(ParseTree(rem[..m]), ParseItems(rem[m..]))
  {
  }

  /** What a printed list ends with, and the spare node after an atom. */
  lemma NodeListEnd(w: string, ts: seq<Token>)
    requires w != [] && Lex(w, 0) == ts
    ensures w[|w| - 1] == ')' ==> NodeList(w) == Filled(ts)
    ensures w[|w| - 1] != ')' ==> NodeList(w) == Filled(ts) + [Blank]
  {
    assert Filled(ts) + [] == Filled(ts);
  }

  lemma ListEndsWithClose(ys: seq<Value>, w: string)
    requires w == PrintObj(List(ys))
    ensures w[|w| - 1] == ')'
  {
    ListPrinting(ys);
    assert w == ("( " + Elements(ys)) + ")";
  }

  /** A printed number or name reads back as itself. */
  lemma AtomReadsBack(v: Value)
    requires Printable(v) && (v.Num? || v.Name?)
    ensures Atom(AtomText(v)) == v
  {
    if v.Num? {
      DecimalOfNumeral(v.n);
    }
  }

  /**
   * Scanning from node `k` with a positive open-minus-close count, the
   * tokens of a printed value, held from node `s` = `k + 1` on, leave the
   * count where it was: the scan goes on from `e`, the last of them.
   */
  lemma {:induction false} ObjSkip(rem: seq<Node>, k: nat, s: nat, d: int, v: Value, i: nat, e: nat)
    requires Printable(v) && d > 0
    requires s == k + 1 && NodesAt(rem, s, ObjTokens(v, i)) && e == k + |ObjTokens(v, i)|
    ensures e < |rem|
    ensures MatchClose(rem, k, d) == MatchClose(rem, e, d)
    decreases v, 1
  {
    NodesAtLength(rem, s, ObjTokens(v, i));
    if v.List? {
      var ys, i2 := v.items, i + 2;
      var c := i2 + ItemsWidth(ys);
      var open, inner, close := [OpenToken(i)], ItemsTokens(ys, i2), [CloseToken(c)];
      var s1 := s + 1;
      var k2 := s + |inner|;
      var s2 := k2 + 1;
      var d1 := d + 1;
      ListTokensAt(ys, i, i2, c);
      TokensLength3(open, inner, close, ObjTokens(v, i));
      NodesAtSplit(rem, s, open + inner, close, s2);
      NodesAtSplit(rem, s, open, inner, s1);
      NodeFirst(rem, s, open);
      MatchStep(rem, k, d, OpenToken(i), s, d1);
      ItemsSkip(rem, s, s1, d1, ys, i2, k2);
      NodeFirst(rem, s2, close);
      MatchStep(rem, k2, d1, CloseToken(c), s2, d);
    } else {
      NodeFirst(rem, s, ObjTokens(v, i));
      MatchStep(rem, k, d, ObjTokens(v, i)[0], s, d);
    }
  }

  /** One step of the scan, over the token node at `s` = `k + 1`. */
  lemma MatchStep(rem: seq<Node>, k: nat, d: int, t: Token, s: nat, d': int)
    requires d > 0 && s == k + 1 && s < |rem| && rem[s] == Tok(t) && d' == d + Delta(t.kind)
    ensures MatchClose(rem, k, d) == MatchClose(rem, s, d')
  {
  }

  lemma {:induction false} ItemsSkip(rem: seq<Node>, k: nat, s: nat, d: int, items: seq<Value>, i: nat, e: nat)
    requires AllPrintable(items) && d > 0
    requires s == k + 1 && NodesAt(rem, s, ItemsTokens(items, i)) && e == k + |ItemsTokens(items, i)|
    ensures e < |rem|
    ensures MatchClose(rem, k, d) == MatchClose(rem, e, d)
    decreases items, 0
  {
    if items == [] {
      ItemsNil(items, i);
    } else {
      var x, rest := items[0], items[1..];
      var i2 := i + Width(x);
      var first, others := ObjTokens(x, i), ItemsTokens(rest, i2);
      var k2 := k + |first|;
      var s2 := k2 + 1;
      ItemsTokensCons(items, i, i2);
      TokensLength(first, others, ItemsTokens(items, i));
      PrintableParts(items);
      NodesAtSplit(rem, s, first, others, s2);
      ObjSkip(rem, k, s, d, x, i, k2);
      ItemsSkip(rem, k2, s2, d, rest, i2, e);
    }
  }

  lemma TokensLength3(a: seq<Token>, b: seq<Token>, c: seq<Token>, abc: seq<Token>)
    requires abc == a + b + c
    ensures |abc| == |a| + |b| + |c|
  {
  }

  /** The scan for the end of a printed list stops at its Close, node `n`. */
  lemma ListMatch(rem: seq<Node>, ys: seq<Value>, i: nat, n: nat)
    requires AllPrintable(ys)
    requires NodesAt(rem, 0, ObjTokens(List(ys), i)) && n + 1 == |ObjTokens(List(ys), i)|
    ensures MatchClose(rem, 0, 1) == Some(n)
  {
    var i2 := i + 2;
    var c := i2 + ItemsWidth(ys);
    var open, inner, close := [OpenToken(i)], ItemsTokens(ys, i2), [CloseToken(c)];
    var k2 := |inner|;
    ListTokensAt(ys, i, i2, c);
    TokensLength3(open, inner, close, ObjTokens(List(ys), i));
    NodesAtSplit(rem, 0, open + inner, close, n);
    NodesAtSplit(rem, 0, open, inner, 1);
    ItemsSkip(rem, 0, 1, 1, ys, i2, k2);
    NodeFirst(rem, n, close);
    MatchStep(rem, k2, 1, CloseToken(c), n, 0);
  }

  /** The tokens of printable elements read back as those elements. */
  lemma {:induction false} ItemsRoundTrip(items: seq<Value>, i: nat)
    requires AllPrintable(items)
    ensures ParseItems(Filled(ItemsTokens(items, i))) == Ok(items)
    decreases items, 1
  {
    if items == [] {
      ItemsNil(items, i);
    } else {
      var x, rest := items[0], items[1..];
      var i2 := i + Width(x);
      var ts := ItemsTokens(items, i);
      var a, b := ObjTokens(x, i), ItemsTokens(rest, i2);
      var rem, fa, fb := Filled(ts), Filled(a), Filled(b);
      ItemsTokensCons(items, i, i2);
      PrintableParts(items);
      FilledAppend(a, b);
      ItemsRoundTrip(rest, i2);
      assert items == [x] + rest;
      if x.List? {
        var n := |a| - 1;
        var m := |a|;
        ListTokensAt(x.items, i, i + 2, i + 2 + ItemsWidth(x.items));
        ListHead(x.items, i);
        NodesAtFilled(ts, 0);
        assert ts[0..] == ts;
        NodesAtSplit(rem, 0, a, b, m);
        ListMatch(rem, x.items, i, n);
        NodeFirst(rem, 0, a);
        ItemsFromRun(rem, a[0], n, m);
        Halves(fa, fb, rem, m);
        TreeRoundTrip(x, i);
      } else {
        AtomPrinting(x, i, i + |AtomText(x)|);
        AtomReadsBack(x);
        ItemsFromSymbol(rem, a[0]);
        Halves(fa, fb, rem, 1);
      }
    }
  }

  /** The tokens of a printable value read back as that value. */
  lemma {:induction false} TreeRoundTrip(v: Value, i: nat)
    requires Printable(v)
    ensures ParseTree(Filled(ObjTokens(v, i))) == Ok(v)
    decreases v, 2
  {
    var nodes := Filled(ObjTokens(v, i));
    if v.List? {
      var ys, i2 := v.items, i + 2;
      var c := i2 + ItemsWidth(ys);
      var open, inner, close := [OpenToken(i)], ItemsTokens(ys, i2), [CloseToken(c)];
      ListTokensAt(ys, i, i2, c);
      FilledAppend(open + inner, close);
      FilledAppend(open, inner);
      Ends(Filled(open), Filled(inner), Filled(close), nodes);
      ListHead(ys, i);
      ItemsRoundTrip(ys, i2);
    } else {
      AtomPrinting(v, i, i + |AtomText(v)|);
      AtomReadsBack(v);
    }
  }

  /**
   * The derived round trip: reading the printing of a value built from
   * non-negative numbers, alphanumeric names that do not start with a
   * digit, and lists of these, gives the value back.
   */
  lemma RoundTrip(v: Value)
    requires Printable(v)
    ensures ParseTree(NodeList(PrintObj(v))) == Ok(v)
  {
    var w := PrintObj(v);
    var n := |w|;
    var ts := ObjTokens(v, 0);
    AtWhole(w);
    LexPrinted(w, 0, v, n);
    LexEnd(w, n);
    assert Lex(w, 0) == ts by {
      assert ts + Lex(w, n) == ts;
    }
    NodeListEnd(w, ts);
    if v.List? {
      ListEndsWithClose(v.items, w);
      TreeRoundTrip(v, 0);
    } else {
      AtomPrinting(v, 0, |AtomText(v)|);
      AtomReadsBack(v);
      assert NodeList(w)[0] == Tok(ts[0]);
    }
  }

  /** `tokenize` then `parse` on the printing of a printable value returns that value. */
  method ReadBack(v: Value) returns (r: Parsed<Value>)
    requires Printable(v)
    ensures r == Ok(v)
  {
    var nodes := Tokenize(PrintObj(v));
    r := Parse(nodes);
    RoundTrip(v);
  }
}
