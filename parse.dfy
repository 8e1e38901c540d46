/**
 * The reader of parse.c: `tokenize`, a two-state automaton that cuts the
 * source text into Open, Close and Symbol tokens, and `parse`, which
 * rebuilds the expression tree from the token list.
 *
 * The token list is a sequence of nodes. Besides the filled nodes the C
 * list may end with one spare node whose token was never written (`Blank`);
 * reading such a token, or following the NULL `next` pointer of the last
 * node, is undefined behaviour in C and is the `Undefined` outcome here.
 */
module Reader {
  import opened Objects
  import opened Chars

  /** The kind of a token; only a Symbol carries text that `parse` reads. */
  datatype Kind = Open | Close | Symbol(text: string)

  /** A token: the offsets `[start, end)` of its characters and its kind. */
  datatype Token = Token(start: nat, end: nat, kind: Kind)

  /** A node of the token list: filled with a token, or a spare node never written. */
  datatype Node = Tok(token: Token) | Blank

  datatype Option<T> = None | Some(value: T)

  /**
   * The outcome of `parse`: a value; `Fatal`, the `exit(1)` taken on an
   * empty list; or `Undefined`, a read of an unwritten token or through a
   * NULL pointer.
   */
  datatype Parsed<T> = Ok(value: T) | Fatal | Undefined

  /** Characters that reach the OPEN branch: `(` and every character no other branch takes. */
  predicate OpensList(c: char)
  {
    !IsAlnum(c) && !IsSpace(c) && c != ')'
  }

  function OpenToken(i: nat): Token
  {
    Token(i, i + 1, Open)
  }

  function CloseToken(i: nat): Token
  {
    Token(i, i + 1, Close)
  }

  function Filled(ts: seq<Token>): (nodes: seq<Node>)
    ensures |nodes| == |ts|
    ensures forall k :: 0 <= k < |ts| ==> nodes[k] == Tok(ts[k])
  {
    seq(|ts|, k requires 0 <= k < |ts| => Tok(ts[k]))
  }

  // ---------------------------------------------------------------------
  // The tokens of a text, defined run by run
  // ---------------------------------------------------------------------

  /** The length of the maximal run of alphanumeric characters of `s` from index `i`. */
  function RunLength(s: string, i: nat): (n: nat)
    requires i <= |s|
    ensures i + n <= |s|
    decreases |s| - i
  {
    if i == |s| || !IsAlnum(s[i]) then 0 else 1 + RunLength(s, i + 1)
  }

  /** `RunLength` measures exactly the maximal run: every character in it is alphanumeric, the next one is not. */
  lemma {:induction false} RunLengthMaximal(s: string, i: nat)
    requires i <= |s|
    ensures forall k :: i <= k < i + RunLength(s, i) ==> IsAlnum(s[k])
    ensures i + RunLength(s, i) < |s| ==> !IsAlnum(s[i + RunLength(s, i)])
    decreases |s| - i
  {
    if i < |s| && IsAlnum(s[i]) {
      RunLengthMaximal(s, i + 1);
    }
  }

  lemma RunLengthIs(s: string, i: nat, n: nat)
    requires i + n <= |s|
    requires forall k :: i <= k < i + n ==> IsAlnum(s[k])
    requires i + n < |s| ==> !IsAlnum(s[i + n])
    ensures RunLength(s, i) == n
  {
    RunLengthMaximal(s, i);
  }

  /** How many characters the step at index `i` consumes: a whole run, or one character. */
  function Step(s: string, i: nat): (n: nat)
    requires i < |s|
    ensures 1 <= n && i + n <= |s|
  {
    if IsAlnum(s[i]) then RunLength(s, i) else 1
  }

  /**
   * The tokens the step at index `i` yields: a Symbol for an alphanumeric
   * run, nothing for a space or a newline, a Close for `)`, and an Open for
   * every other character.
   */
  function Head(s: string, i: nat): seq<Token>
    requires i < |s|
  {
    if IsAlnum(s[i]) then [Token(i, i + Step(s, i), Symbol(s[i..i + Step(s, i)]))]
    else if IsSpace(s[i]) then []
    else if s[i] == ')' then [CloseToken(i)]
    else [OpenToken(i)]
  }

  /** The tokens of `s` from index `i` on. */
  function Lex(s: string, i: nat): seq<Token>
    requires i <= |s|
    decreases |s| - i
  {
    if i == |s| then [] else Head(s, i) + Lex(s, i + Step(s, i))
  }

  /**
   * The node list `tokenize` returns for `expr`: none for the empty text;
   * otherwise the tokens of the text and one spare node, which is missing
   * when the last character is `)`.
   */
  function NodeList(expr: string): seq<Node>
  {
    if expr == [] then []
    else Filled(Lex(expr, 0)) + (if expr[|expr| - 1] == ')' then [] else [Blank])
  }

  /** Where a token lies in `s` and what it says about the characters it covers. */
  ghost predicate TokenFits(s: string, t: Token)
  {
    t.start < t.end <= |s| &&
    match t.kind
    case Open => t.end == t.start + 1 && OpensList(s[t.start])
    case Close => t.end == t.start + 1 && s[t.start] == ')'
    case Symbol(text) =>
      text == s[t.start..t.end] && AllAlnum(text) && (t.end == |s| || !IsAlnum(s[t.end]))
  }

  /**
   * Every token of `Lex(s, i)` starts at `i` or later and is well placed:
   * an Open or a Close is one character wide and sits on its character; a
   * Symbol's text is exactly its slice of `s`, alphanumeric, and the run is
   * maximal.
   */
  lemma {:induction false} LexTokensFit(s: string, i: nat)
    requires i <= |s|
    ensures forall k :: 0 <= k < |Lex(s, i)| ==> i <= Lex(s, i)[k].start && TokenFits(s, Lex(s, i)[k])
    decreases |s| - i
  {
    if i < |s| {
      var j := i + Step(s, i);
      LexTokensFit(s, j);
      LexUnfold(s, i, j);
      HeadFits(s, i, j);
      FitAppend(s, Head(s, i), Lex(s, j), Lex(s, i), i, j);
    }
  }

  /** The tokens come in text order and do not overlap, so their start offsets strictly increase. */
  lemma {:induction false} LexOrdered(s: string, i: nat)
    requires i <= |s|
    ensures forall j, k :: 0 <= j < k < |Lex(s, i)| ==> Lex(s, i)[j].end <= Lex(s, i)[k].start
    decreases |s| - i
  {
    if i < |s| {
      var j := i + Step(s, i);
      LexOrdered(s, j);
      LexTokensFit(s, j);
      LexUnfold(s, i, j);
      HeadFits(s, i, j);
      OrderedAppend(Head(s, i), Lex(s, j), Lex(s, i), j);
    }
  }

  /** The step at `i` yields at most one token, well placed and ending by `j`. */
  lemma HeadFits(s: string, i: nat, j: nat)
    requires i < |s| && j == i + Step(s, i)
    ensures |Head(s, i)| <= 1
    ensures forall k :: 0 <= k < |Head(s, i)| ==>
      i <= Head(s, i)[k].start && Head(s, i)[k].end <= j && TokenFits(s, Head(s, i)[k])
  {
    if IsAlnum(s[i]) {
      RunLengthMaximal(s, i);
      assert TokenFits(s, Head(s, i)[0]);
    }
  }

  lemma FitAppend(s: string, h: seq<Token>, rest: seq<Token>, all: seq<Token>, i: nat, j: nat)
    requires all == h + rest && i <= j
    requires forall k :: 0 <= k < |h| ==> i <= h[k].start && TokenFits(s, h[k])
    requires forall k :: 0 <= k < |rest| ==> j <= rest[k].start && TokenFits(s, rest[k])
    ensures forall k :: 0 <= k < |all| ==> i <= all[k].start && TokenFits(s, all[k])
  {
    forall k | 0 <= k < |all|
      ensures i <= all[k].start && TokenFits(s, all[k])
    {
      if k < |h| {
        assert all[k] == h[k];
      } else {
        assert all[k] == rest[k - |h|];
      }
    }
  }

  lemma OrderedAppend(h: seq<Token>, rest: seq<Token>, all: seq<Token>, j: nat)
    requires all == h + rest && |h| <= 1
    requires forall k :: 0 <= k < |h| ==> h[k].end <= j
    requires forall k :: 0 <= k < |rest| ==> j <= rest[k].start
    requires forall a, b :: 0 <= a < b < |rest| ==> rest[a].end <= rest[b].start
    ensures forall a, b :: 0 <= a < b < |all| ==> all[a].end <= all[b].start
  {
    forall a, b | 0 <= a < b < |all|
      ensures all[a].end <= all[b].start
    {
      assert all[b] == rest[b - |h|];
      if a < |h| {
        assert all[a] == h[a];
      } else {
        assert all[a] == rest[a - |h|];
      }
    }
  }

  /** Some token of `ts` covers character `p`. */
  ghost predicate Covered(ts: seq<Token>, p: nat)
  {
    exists k :: 0 <= k < |ts| && ts[k].start <= p < ts[k].end
  }

  /** Every character from `i` on that is not a space or a newline lies inside some token. */
  lemma LexCovers(s: string, i: nat)
    requires i <= |s|
    ensures forall p :: i <= p < |s| && !IsSpace(s[p]) ==> Covered(Lex(s, i), p)
  {
    forall p | i <= p < |s| && !IsSpace(s[p])
      ensures Covered(Lex(s, i), p)
    {
      LexCoversAt(s, i, p);
    }
  }

  lemma {:induction false} LexCoversAt(s: string, i: nat, p: nat)
    requires i <= p < |s| && !IsSpace(s[p])
    ensures Covered(Lex(s, i), p)
    decreases |s| - i
  {
    var n := Step(s, i);
    var j := i + n;
    var h, rest := Head(s, i), Lex(s, j);
    LexUnfold(s, i, j);
    if p < j {
      HeadCovers(s, i, p);
      CoveredLeft(h, rest, Lex(s, i), p);
    } else {
      LexCoversAt(s, j, p);
      CoveredRight(h, rest, Lex(s, i), p);
    }
  }

  lemma LexUnfold(s: string, i: nat, j: nat)
    requires i < |s| && j == i + Step(s, i)
    ensures Lex(s, i) == Head(s, i) + Lex(s, j)
  {
    var h, rest := Head(s, i), Lex(s, j);
    assert Lex(s, i) == h + rest;
  }

  /** The step at `i` covers every character it consumes that is not a space or a newline. */
  lemma HeadCovers(s: string, i: nat, p: nat)
    requires i <= p < |s| && p < i + Step(s, i) && !IsSpace(s[p])
    ensures Covered(Head(s, i), p)
  {
    assert Head(s, i)[0].start <= p < Head(s, i)[0].end;
  }

  lemma CoveredLeft(a: seq<Token>, b: seq<Token>, ab: seq<Token>, p: nat)
    requires ab == a + b && Covered(a, p)
    ensures Covered(ab, p)
  {
    var k :| 0 <= k < |a| && a[k].start <= p < a[k].end;
    assert ab[k] == a[k];
  }

  lemma CoveredRight(a: seq<Token>, b: seq<Token>, ab: seq<Token>, p: nat)
    requires ab == a + b && Covered(b, p)
    ensures Covered(ab, p)
  {
    var k :| 0 <= k < |b| && b[k].start <= p < b[k].end;
    assert ab[|a| + k] == b[k];
  }

  /** A maximal alphanumeric run `expr[start..i)` is one Symbol token. */
  lemma LexRun(expr: string, start: nat, i: nat)
    requires start < i <= |expr|
    requires forall k :: start <= k < i ==> IsAlnum(expr[k])
    requires i < |expr| ==> !IsAlnum(expr[i])
    ensures Lex(expr, start) == [Token(start, i, Symbol(expr[start..i]))] + Lex(expr, i)
  {
    RunLengthIs(expr, start, i - start);
  }

  /** A space or a newline yields no token. */
  lemma LexSkip(s: string, i: nat)
    requires i < |s| && IsSpace(s[i])
    ensures Lex(s, i) == Lex(s, i + 1)
  {
    var j := i + 1;
    LexUnfold(s, i, j);
    assert Head(s, i) == [];
    assert Head(s, i) + Lex(s, j) == Lex(s, j);
  }

  /** Any other character that is not alphanumeric yields one Open or Close token. */
  lemma LexBracket(s: string, i: nat)
    requires i < |s| && !IsAlnum(s[i]) && !IsSpace(s[i])
    ensures Lex(s, i) == [if s[i] == ')' then CloseToken(i) else OpenToken(i)] + Lex(s, i + 1)
  {
  }

  // ---------------------------------------------------------------------
  // tokenize
  // ---------------------------------------------------------------------

  datatype State = Ready | InSymbol

  lemma Assoc<T>(a: seq<T>, b: seq<T>, c: seq<T>)
    ensures a + (b + c) == (a + b) + c
  {
  }

  /**
   * What holds between two transitions of `tokenize`: `i` is the next
   * character to read; in `InSymbol` the characters from `start` to `i` are
   * alphanumeric and not yet a token; the tokens made so far, `done`,
   * followed by the tokens of the text from `pos` on, are all the tokens;
   * and `spare` says whether a fresh node follows the last one made, which
   * it does unless a `)` was the last character.
   */
  ghost predicate Scanning(expr: string, tokens: seq<Token>, state: State, i: nat, start: nat,
                           done: seq<Token>, spare: bool, pos: nat)
  {
    && 0 < |expr| && i <= |expr|
    && pos == (if state == InSymbol then start else i)
    && (state == InSymbol ==> start < i && forall k :: start <= k < i ==> IsAlnum(expr[k]))
    && done + Lex(expr, pos) == tokens
    && (i < |expr| ==> spare)
    && (!spare ==> done != [])
    && (i == |expr| ==> (spare <==> expr[|expr| - 1] != ')'))
  }

  /** END_TEXT: the pending symbol `expr[start..i)` becomes a token. */
  lemma ScanFlush(expr: string, tokens: seq<Token>, i: nat, start: nat, done: seq<Token>, spare: bool)
    requires Scanning(expr, tokens, InSymbol, i, start, done, spare, start)
    requires i == |expr| || !IsAlnum(expr[i])
    ensures Scanning(expr, tokens, Ready, i, start, done + [Token(start, i, Symbol(expr[start..i]))], spare, i)
  {
    LexRun(expr, start, i);
    Assoc(done, [Token(start, i, Symbol(expr[start..i]))], Lex(expr, i));
  }

  /** TEXT: an alphanumeric character starts or extends the pending symbol. */
  lemma ScanText(expr: string, tokens: seq<Token>, state: State, i: nat, start: nat,
                 done: seq<Token>, spare: bool, pos: nat, start': nat)
    requires Scanning(expr, tokens, state, i, start, done, spare, pos)
    requires i < |expr| && IsAlnum(expr[i]) && !(state == InSymbol && i == |expr|)
    requires start' == if state == Ready then i else start
    ensures Scanning(expr, tokens, InSymbol, i + 1, start', done, spare, start')
  {
  }

  /** WHITESPACE: a space or a newline is skipped. */
  lemma ScanSpace(expr: string, tokens: seq<Token>, i: nat, start: nat, done: seq<Token>, spare: bool)
    requires Scanning(expr, tokens, Ready, i, start, done, spare, i)
    requires i < |expr| && IsSpace(expr[i])
    ensures Scanning(expr, tokens, Ready, i + 1, start, done, spare, i + 1)
  {
    LexSkip(expr, i);
  }

  /** OPEN and CLOSE: any other character is one token; a `)` at the end leaves no fresh node. */
  lemma ScanBracket(expr: string, tokens: seq<Token>, i: nat, start: nat, done: seq<Token>, spare: bool,
                    t: Token, spare': bool)
    requires Scanning(expr, tokens, Ready, i, start, done, spare, i)
    requires i < |expr| && !IsAlnum(expr[i]) && !IsSpace(expr[i])
    requires t == if expr[i] == ')' then CloseToken(i) else OpenToken(i)
    requires spare' == (spare && !(expr[i] == ')' && i == |expr| - 1))
    ensures Scanning(expr, tokens, Ready, i + 1, start, done + [t], spare', i + 1)
  {
    LexBracket(expr, i);
    Assoc(done, [t], Lex(expr, i + 1));
  }

  /** When the text is used up and no symbol is pending, `done` holds every token. */
  lemma ScanEnd(expr: string, tokens: seq<Token>, i: nat, start: nat, done: seq<Token>, spare: bool)
    requires Scanning(expr, tokens, Ready, i, start, done, spare, i) && i == |expr|
    ensures done == tokens
  {
    assert done + [] == done;
  }

  /**
   * tokenize (parse.c:63-165). The goto automaton becomes one loop whose
   * body is one transition. A pending symbol is flushed (END_TEXT) without
   * advancing, so the character that ended it is read again in READY.
   */
  method Tokenize(expr: string) returns (nodes: seq<Node>)
    ensures nodes == NodeList(expr)
    ensures nodes == [] <==> expr == []
  {
    if |expr| == 0 {
      return [];
    }
    ghost var tokens := Lex(expr, 0);
    var state := Ready;
    var i := 0;
    var start := 0;
    var done: seq<Token> := [];
    var spare := true;
    // the index from which the tokens not yet in `done` are read
    ghost var pos := 0;
    while i < |expr| || state == InSymbol
      invariant Scanning(expr, tokens, state, i, start, done, spare, pos)
      decreases |expr| - i, if state == InSymbol then 1 else 0
    {
      if state == InSymbol && (i == |expr| || !IsAlnum(expr[i])) {
        // END_TEXT: the symbol is expr[start..i); a fresh node follows it
        ScanFlush(expr, tokens, i, start, done, spare);
        done := done + [Token(start, i, Symbol(expr[start..i]))];
        state := Ready;
        pos := i;
      } else if IsAlnum(expr[i]) {
        // TEXT
        var start' := if state == Ready then i else start;
        ScanText(expr, tokens, state, i, start, done, spare, pos, start');
        state := InSymbol;
        start := start';
        i := i + 1;
        pos := start;
      } else if IsSpace(expr[i]) {
        // WHITESPACE
        ScanSpace(expr, tokens, i, start, done, spare);
        i := i + 1;
        pos := i;
      } else {
        // CLOSE on `)`, with no fresh node after the last character; OPEN
        // on `(` and on every character no test above takes
        var t := if expr[i] == ')' then CloseToken(i) else OpenToken(i);
        var spare' := spare && !(expr[i] == ')' && !(i < |expr| - 1));
        ScanBracket(expr, tokens, i, start, done, spare, t, spare');
        done := done + [t];
        spare := spare';
        i := i + 1;
        pos := i;
      }
    }
    ScanEnd(expr, tokens, i, start, done, spare);
    nodes := Filled(done) + (if spare then [Blank] else []);
  }

  // ---------------------------------------------------------------------
  // List helpers: push, dock, slice_ends
  // ---------------------------------------------------------------------

  /** push (parse.c:262-271): walks to the end of the list and appends there. */
  function Push<T>(v: T, list: seq<T>): (r: seq<T>)
    ensures r == list + [v]
  {
    if list == [] then [v] else [list[0]] + Push(v, list[1..])
  }

  /** dock (parse.c:241-251): walks to the last node and removes it; the empty list stays empty. */
  function Dock<T>(list: seq<T>): (r: seq<T>)
    ensures list == [] ==> r == []
    ensures list != [] ==> r == list[..|list| - 1]
  {
    if list == [] then []
    else if |list| == 1 then []
    else [list[0]] + Dock(list[1..])
  }

  /** slice_ends (parse.c:253-259): drops the first node, then docks the rest. */
  function SliceEnds<T>(list: seq<T>): (r: seq<T>)
    requires list != []
    ensures |list| <= 2 ==> r == []
    ensures |list| >= 2 ==> r == list[1..|list| - 1]
  {
    Dock(list[1..])
  }

  // ---------------------------------------------------------------------
  // parse, as a function
  // ---------------------------------------------------------------------

  /**
   * `atoi` on a text that starts with a digit: the value of its leading
   * digits, ignoring whatever follows them (so "12ab" gives 12).
   */
  function Atoi(text: string): (n: nat)
    ensures forall k: nat :: LeadingDigits(text, k) ==> n == DecimalValue(text[..k])
    ensures AllDigits(text) ==> n == DecimalValue(text)
  {
    var k := DigitRun(text);
    LeadingDigitsUnique(text, k);
    assert AllDigits(text) ==> k == |text| && text[..k] == text;
    DecimalValue(text[..k])
  }

  /**
   * The atom a Symbol token's text denotes (parse.c:178-185): a number
   * exactly when its first character is a digit, otherwise a name with
   * that very text.
   */
  function Atom(text: string): (v: Value)
    ensures v.Num? <==> |text| > 0 && IsDigit(text[0])
    ensures v.Num? ==> v.n >= 0 && forall k: nat :: LeadingDigits(text, k) ==> v.n == DecimalValue(text[..k])
    ensures v.Num? && AllDigits(text) ==> v.n == DecimalValue(text)
    ensures !v.Num? ==> v == Name(text)
  {
    if |text| > 0 && IsDigit(text[0]) then Num(Atoi(text)) else Name(text)
  }

  function Delta(k: Kind): int
  {
    match k
    case Open => 1
    case Close => -1
    case Symbol(_) => 0
  }

  /**
   * The inner scan of parse.c:217-227 from node `k` with open-minus-close
   * count `depth`: the index of the node where the count drops to zero,
   * or `None` when the scan reads past the last node or into a spare one.
   */
  function MatchClose(rem: seq<Node>, k: nat, depth: int): (r: Option<nat>)
    requires k < |rem|
    ensures r.Some? ==> k <= r.value < |rem|
    decreases |rem| - k
  {
    if depth <= 0 then Some(k)
    else if k + 1 >= |rem| then None
    else match rem[k + 1]
      case Blank => None
      case Tok(t) => MatchClose(rem, k + 1, depth + Delta(t.kind))
  }

  /** The list that puts `v` in front of `rest`, or the first error of the two. */
  function Prefixed(v: Parsed<Value>, rest: Parsed<seq<Value>>): Parsed<seq<Value>>
  {
    match v
    case Ok(x) => Prepend([x], rest)
    case Fatal => Fatal
    case Undefined => Undefined
  }

  function Prepend(xs: seq<Value>, r: Parsed<seq<Value>>): Parsed<seq<Value>>
  {
    match r
    case Ok(ys) => Ok(xs + ys)
    case Fatal => Fatal
    case Undefined => Undefined
  }

  /**
   * What `parse` returns for `nodes` (parse.c:168-236): `Fatal` for no
   * nodes; an atom for a leading Symbol; otherwise the first and last
   * nodes are dropped and the rest is read as the list's elements.
   */
  function ParseTree(nodes: seq<Node>): Parsed<Value>
    decreases |nodes|, 0
  {
    if nodes == [] then Fatal
    else match nodes[0]
      case Blank => Undefined
      case Tok(t) =>
        if t.kind.Symbol? then Ok(Atom(t.kind.text))
        else match ParseItems(SliceEnds(nodes))
          case Ok(items) => Ok(List(items))
          case Fatal => Fatal
          case Undefined => Undefined
  }

  /**
   * The elements of a list (the loop at parse.c:197-232): a Symbol is one
   * atom; any other token opens a run that ends where the closes catch up
   * with the opens, and the run is parsed as a whole.
   */
  function ParseItems(rem: seq<Node>): Parsed<seq<Value>>
    decreases |rem|, 1
  {
    if rem == [] then Ok([])
    else match rem[0]
      case Blank => Undefined
      case Tok(t) =>
        if t.kind.Symbol? then Prefixed(Ok(Atom(t.kind.text)), ParseItems(rem[1..]))
        else match MatchClose(rem, 0, 1)
          case None => Undefined
          case Some(j) => Prefixed(ParseTree(rem[..j + 1]), ParseItems(rem[j + 1..]))
  }

  /** `parse` is fatal on the empty list only. */
  lemma {:induction false} TreeNeverFatal(nodes: seq<Node>)
    ensures ParseTree(nodes) == Fatal <==> nodes == []
    decreases |nodes|, 0
  {
    if nodes != [] && nodes[0].Tok? && !nodes[0].token.kind.Symbol? {
      ItemsNeverFatal(SliceEnds(nodes));
    }
  }

  lemma {:induction false} ItemsNeverFatal(rem: seq<Node>)
    ensures ParseItems(rem) != Fatal
    decreases |rem|, 1
  {
    if rem != [] && rem[0].Tok? {
      if rem[0].token.kind.Symbol? {
        ItemsNeverFatal(rem[1..]);
      } else if MatchClose(rem, 0, 1).Some? {
        var j := MatchClose(rem, 0, 1).value;
        TreeNeverFatal(rem[..j + 1]);
        ItemsNeverFatal(rem[j + 1..]);
      }
    }
  }

  // ---------------------------------------------------------------------
  // parse
  // ---------------------------------------------------------------------

  lemma PrependEmpty(r: Parsed<seq<Value>>)
    ensures Prepend([], r) == r
  {
    if r.Ok? {
      assert [] + r.value == r.value;
    }
  }

  lemma PrependAppend(xs: seq<Value>, x: Value, r: Parsed<seq<Value>>)
    ensures Prepend(xs, Prefixed(Ok(x), r)) == Prepend(xs + [x], r)
  {
    if r.Ok? {
      assert xs + ([x] + r.value) == (xs + [x]) + r.value;
    }
  }

  /**
   * The inner loop of parse (parse.c:217-225): from the first node of a
   * run, counting opens and closes, the index of the node at which the
   * closes catch up with the opens. Where the C code would read past the
   * last node, or into a spare node that holds no token, the model stops
   * with `None`.
   */
  method ScanToClose(remainder: seq<Node>) returns (close: Option<nat>)
    requires remainder != []
    ensures close == MatchClose(remainder, 0, 1)
  {
    var op, cp := 1, 0;
    var tail := 0;
    while op > cp
      invariant tail < |remainder|
      invariant MatchClose(remainder, tail, op - cp) == MatchClose(remainder, 0, 1)
      decreases |remainder| - tail
    {
      if tail + 1 >= |remainder| || remainder[tail + 1].Blank? {
        return None;
      }
      tail := tail + 1;
      if remainder[tail].token.kind == Open {
        op := op + 1;
      }
      if remainder[tail].token.kind == Close {
        cp := cp + 1;
      }
    }
    return Some(tail);
  }

  /**
   * parse (parse.c:168-236). Atoms inside a list are parsed by a recursive
   * call on a one-node list, and each sub-list is cut off the remainder
   * and parsed recursively, as the C code does.
   */
  method Parse(tokens: seq<Node>) returns (r: Parsed<Value>)
    ensures r == ParseTree(tokens)
    ensures r == Fatal <==> tokens == []
    decreases |tokens|
  {
    TreeNeverFatal(tokens);
    if tokens == [] {
      // "no tokens": exit(1)
      return Fatal;
    }
    if tokens[0].Blank? {
      return Undefined;
    }
    var token := tokens[0].token;
    if token.kind.Symbol? {
      return Ok(Atom(token.kind.text));
    }
    var result: seq<Value> := [];
    var remainder := SliceEnds(tokens);
    PrependEmpty(ParseItems(remainder));
    while remainder != []
      invariant |remainder| + 2 <= |tokens| || remainder == []
      invariant ParseItems(SliceEnds(tokens)) == Prepend(result, ParseItems(remainder))
      decreases |remainder|
    {
      if remainder[0].Blank? {
        return Undefined;
      }
      var first := remainder[0].token;
      if first.kind.Symbol? {
        var atom := Parse([Tok(first)]);
        assert atom == Ok(Atom(first.kind.text));
        PrependAppend(result, atom.value, ParseItems(remainder[1..]));
        result := Push(atom.value, result);
        remainder := remainder[1..];
      } else {
        var close := ScanToClose(remainder);
        if close.None? {
          return Undefined;
        }
        var tail := close.value;
        var head := remainder[..tail + 1];
        var rest := remainder[tail + 1..];
        var sub := Parse(head);
        if !sub.Ok? {
          return sub;
        }
        PrependAppend(result, sub.value, ParseItems(rest));
        result := Push(sub.value, result);
        remainder := rest;
      }
    }
    assert result + [] == result;
    return Ok(List(result));
  }

  // ---------------------------------------------------------------------
  // Consequences for particular inputs
  // ---------------------------------------------------------------------

  /** `()` is one Open and one Close with no spare node, and reads as the empty list. */
  lemma EmptyListReads()
    ensures NodeList("()") == [Tok(OpenToken(0)), Tok(CloseToken(1))]
    ensures ParseTree(NodeList("()")) == Ok(List([]))
  {
    var s := "()";
    LexBracket(s, 1);
    LexBracket(s, 0);
  }

  /**
   * `+` is not alphanumeric, so it falls through to the OPEN branch: the
   * text "(+)" has two Opens but one Close, and the scan for the end of the
   * inner run reads past the last node.
   */
  lemma OperatorOpensList()
    ensures NodeList("(+)") == [Tok(OpenToken(0)), Tok(OpenToken(1)), Tok(CloseToken(2))]
    ensures ParseTree(NodeList("(+)")) == Undefined
  {
    var s := "(+)";
    LexBracket(s, 2);
    LexBracket(s, 1);
    LexBracket(s, 0);
    var nodes := [Tok(OpenToken(0)), Tok(OpenToken(1)), Tok(CloseToken(2))];
    assert NodeList(s) == nodes;
    assert SliceEnds(nodes) == [Tok(OpenToken(1))];
  }

  /**
   * A space after the closing `)` leaves the spare node at the end, so the
   * outer Close is kept and then read as the start of another run: "() "
   * does not read as the empty list that "()" reads as.
   */
  lemma TrailingSpaceAfterList()
    ensures NodeList("() ") == [Tok(OpenToken(0)), Tok(CloseToken(1)), Blank]
    ensures ParseTree(NodeList("() ")) == Undefined
  {
    var s := "() ";
    LexSkip(s, 2);
    LexBracket(s, 1);
    LexBracket(s, 0);
    var nodes := [Tok(OpenToken(0)), Tok(CloseToken(1)), Blank];
    assert NodeList(s) == nodes;
    assert SliceEnds(nodes) == [Tok(CloseToken(1))];
  }
}
