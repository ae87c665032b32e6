/**
 * The tokenizer of the query language: a hand-written scanner that follows
 * the alternatives of the tokenizer's regular expression in their order of
 * priority, with the same backtracking, and the tokens built from each match.
 *
 * At every position the alternatives are tried in turn:
 *   1. a field query `ident:ops value`, where `ident` is a word starting with
 *      a letter or `_`, `ops` a run of `> < = ! ~` and `value` either a run
 *      of characters other than `:`, white space and parentheses, or a
 *      parenthesised text; when no value follows the whole operator run the
 *      run is shortened one character at a time;
 *   2. one of the keywords AND, OR, NOT, ORDER BY, LIMIT, GROUP BY in any
 *      letter case, between word boundaries;
 *   3. a single parenthesis;
 *   4. any run of non-space characters.
 * The regular expression also lists a quoted value `"..."`, but a quote is
 * accepted by the unquoted run of alternative 1, which comes first, so the
 * quoted form can never be the one that matches; the scanner leaves it out.
 */
module QueryLexer {
  import opened Results
  import opened JsValues
  import QueryGrammar
  import QueryValues

  /** One match of the tokenizer's regular expression, before its value is coerced. */
  datatype Lexeme =
    | FieldLexeme(ident: string, op: string, raw: string)
    | KeywordLexeme(text: string)
    | ParenLexeme(paren: char)
    | WordLexeme(text: string)

  /** A token handed to the parser. */
  datatype Token =
    | FieldQuery(field: string, operator: string, value: JsValue)
    | Logic(operator: string)
    | OrderByKw
    | LimitKw
    | GroupByKw
    | Paren(paren: string)
    | ValueTok(text: string)

  // ---------------------------------------------------------------------
  // Character classes

  predicate IsIdentStart(c: char) {
    IsAsciiLetter(c) || c == '_'
  }

  /** `[^:\s()]`: a character of an unquoted value. */
  predicate IsValueChar(c: char) {
    c != ':' && !IsSpace(c) && c != '(' && c != ')'
  }

  predicate IsNotCloseParen(c: char) {
    c != ')'
  }

  predicate IsNotSpace(c: char) {
    !IsSpace(c)
  }

  /** The end of the longest run of characters satisfying `p` that starts at `i`. */
  function RunEnd(s: string, i: nat, p: char -> bool): (j: nat)
    requires i <= |s|
    ensures i <= j <= |s|
    ensures forall k | i <= k < j :: p(s[k])
    ensures j == |s| || !p(s[j])
    decreases |s| - i
  {
    if i < |s| && p(s[i]) then RunEnd(s, i + 1, p) else i
  }

  /** `\b`: a word character on exactly one side of position `j`. */
  predicate WordBoundary(s: string, j: nat)
    requires j <= |s|
  {
    (j > 0 && IsWordChar(s[j - 1])) != (j < |s| && IsWordChar(s[j]))
  }

  // ---------------------------------------------------------------------
  // Alternative 1: field queries

  /**
   * The end of a value starting at `p`: the longest run of value characters,
   * or else `(`, at least one character other than `)`, and `)`.
   */
  function ValueEnd(s: string, p: nat): (r: Option<nat>)
    requires p <= |s|
    ensures r.Some? ==> p < r.value <= |s|
    ensures r.Some? && IsValueChar(s[p]) ==> forall k | p <= k < r.value :: IsValueChar(s[k])
    ensures r.Some? && !IsValueChar(s[p]) ==> s[p] == '(' && s[r.value - 1] == ')'
    ensures p < |s| && IsValueChar(s[p]) ==> r.Some?
  {
    if p < |s| && IsValueChar(s[p]) then Some(RunEnd(s, p, IsValueChar))
    else if p < |s| && s[p] == '(' then
      var q := RunEnd(s, p + 1, IsNotCloseParen);
      if p + 1 < q < |s| then Some(q + 1) else None
    else None
  }

  /**
   * The operator run `s[k..p]` shortened from the right until a value
   * follows it: the split point and the end of the value.
   */
  function Backtrack(s: string, k: nat, p: nat): (r: Option<(nat, nat)>)
    requires k <= p <= |s|
    ensures r.Some? ==> k <= r.value.0 <= p && ValueEnd(s, r.value.0) == Some(r.value.1)
    ensures r.Some? ==> forall p' | r.value.0 < p' <= p :: ValueEnd(s, p').None?
    ensures r.None? ==> forall p' | k <= p' <= p :: ValueEnd(s, p').None?
    decreases p - k
  {
    match ValueEnd(s, p)
    case Some(end) => Some((p, end))
    case None => if p == k then None else Backtrack(s, k, p - 1)
  }

  /** The field-query match at `i`, with its end, if there is one. */
  function FieldAt(s: string, i: nat): (r: Option<(Lexeme, nat)>)
    requires i < |s|
    ensures r.Some? ==> r.value.0.FieldLexeme? && i < r.value.1 <= |s|
    ensures r.Some? ==> var (l, e) := r.value;
      s[i..e] == l.ident + ":" + l.op + l.raw
  {
    if !IsIdentStart(s[i]) then None
    else
      var e := RunEnd(s, i, IsWordChar);
      if e == |s| || s[e] != ':' then None
      else
        var k := e + 1;
        var q := RunEnd(s, k, QueryGrammar.IsOperatorChar);
        match Backtrack(s, k, q)
        case None => None
        case Some((p, end)) =>
          FieldSlices(s, i, e, p, end);
          Some((FieldLexeme(s[i..e], s[k..p], s[p..end]), end))
  }

  /** A field query's text is its identifier, the colon, its operator and its value. */
  lemma FieldSlices(s: string, i: nat, e: nat, p: nat, end: nat)
    requires i <= e < p <= end <= |s| && s[e] == ':'
    ensures s[i..end] == s[i..e] + ":" + s[e + 1..p] + s[p..end]
  {
    assert s[e..e + 1] == ":";
    assert s[i..end] == s[i..e] + s[e..e + 1] + s[e + 1..p] + s[p..end];
  }

  // ---------------------------------------------------------------------
  // Alternative 2: keywords

  /** The text at `i` spells the upper-case word `w`, in any letter case. */
  predicate SpellsAt(s: string, i: nat, w: string) {
    i + |w| <= |s| && Upper(s[i..i + |w|]) == w
  }

  /** `\bW\b` at `i` for the single word `w`, given the boundary before it. */
  function WordEnd(s: string, i: nat, w: string): (r: Option<nat>)
    requires i <= |s|
    ensures r.Some? ==> r.value == i + |w| <= |s|
  {
    if SpellsAt(s, i, w) && WordBoundary(s, i + |w|) then Some(i + |w|) else None
  }

  /** `\bW1\s+W2\b` at `i`, given the boundary before it. */
  function PairEnd(s: string, i: nat, w1: string, w2: string): (r: Option<nat>)
    requires i <= |s|
    ensures r.Some? ==> i + |w1| + |w2| < r.value <= |s|
  {
    if SpellsAt(s, i, w1) then
      var j := RunEnd(s, i + |w1|, IsSpace);
      if j > i + |w1| then WordEnd(s, j, w2) else None
    else None
  }

  function OrElse(a: Option<nat>, b: Option<nat>): Option<nat> {
    if a.Some? then a else b
  }

  /** The end of the keyword match at `i`, if there is one. */
  function KeywordEnd(s: string, i: nat): (r: Option<nat>)
    requires i < |s|
    ensures r.Some? ==> i < r.value <= |s|
  {
    if !WordBoundary(s, i) then None
    else
      OrElse(WordEnd(s, i, "AND"),
      OrElse(WordEnd(s, i, "OR"),
      OrElse(WordEnd(s, i, "NOT"),
      OrElse(PairEnd(s, i, "ORDER", "BY"),
      OrElse(WordEnd(s, i, "LIMIT"),
        PairEnd(s, i, "GROUP", "BY"))))))
  }

  // ---------------------------------------------------------------------
  // One match

  /** The match at a non-space position `i`: its lexeme and where it ends. */
  function MatchAt(s: string, i: nat): (r: (Lexeme, nat))
    requires i < |s| && !IsSpace(s[i])
    ensures i < r.1 <= |s|
  {
    match FieldAt(s, i)
    case Some(m) => m
    case None =>
      match KeywordEnd(s, i)
      case Some(e) => (KeywordLexeme(s[i..e]), e)
      case None =>
        if s[i] == '(' || s[i] == ')' then (ParenLexeme(s[i]), i + 1)
        else
          var e := RunEnd(s, i, IsNotSpace);
          (WordLexeme(s[i..e]), e)
  }

  /** `text.replace(/\s+/g, '_')`: every run of white space becomes one `_`. */
  function UnderscoreSpaces(s: string): (r: string)
    decreases |s|
  {
    if s == [] then []
    else if IsSpace(s[0]) then
      var j := RunEnd(s, 0, IsSpace);
      "_" + UnderscoreSpaces(s[j..])
    else [s[0]] + UnderscoreSpaces(s[1..])
  }

  /** The token built from a lexeme, the value coerced with the clock reading `now`. */
  function ToToken(l: Lexeme, now: int): (t: Token) {
    match l
    case FieldLexeme(ident, op, raw) =>
      FieldQuery(Lower(ident), if op == "" then "=" else op, QueryValues.ParseValue(raw, now))
    case KeywordLexeme(text) =>
      var keyword := UnderscoreSpaces(Upper(text));
      if keyword == "ORDER_BY" then OrderByKw
      else if keyword == "GROUP_BY" then GroupByKw
      else if keyword == "LIMIT" then LimitKw
      else Logic(keyword)
    case ParenLexeme(c) => Paren([c])
    case WordLexeme(text) => ValueTok(text)
  }

  /** The tokens of `s` from position `i`: white space is skipped between matches. */
  function Tokens(s: string, i: nat, now: int): (ts: seq<Token>)
    requires i <= |s|
    ensures |ts| <= |s| - i
    decreases |s| - i
  {
    var j := RunEnd(s, i, IsSpace);
    if j == |s| then []
    else
      var (l, e) := MatchAt(s, j);
      [ToToken(l, now)] + Tokens(s, e, now)
  }

  /**
   * `tokenize(queryString)`: every field query has a lower-case identifier,
   * an operator made of `> < = ! ~` only and never a relative-time value;
   * every logic token is AND, OR or NOT.
   */
  function Lex(s: string, now: int): (ts: seq<Token>)
    ensures forall t | t in ts :: TokenShape(t)
  {
    TokensShape(s, 0, now);
    Tokens(s, 0, now)
  }

  /** What every token of the tokenizer satisfies. */
  predicate TokenShape(t: Token) {
    match t
    case FieldQuery(field, operator, value) =>
      && field != [] && (forall c | c in field :: IsWordChar(c) && !('A' <= c <= 'Z'))
      && operator != [] && (forall c | c in operator :: QueryGrammar.IsOperatorChar(c))
      && !(value.Obj? && "relativeTime" in value.props)
    case Logic(op) => op == "AND" || op == "OR" || op == "NOT"
    case Paren(p) => p == "(" || p == ")"
    case ValueTok(text) => text != [] && forall c | c in text :: !IsSpace(c)
    case _ => true
  }

  // ---------------------------------------------------------------------
  // Lemmas

  /** A run that is known to stop at `j` is the run `RunEnd` finds. */
  lemma RunEndAt(s: string, i: nat, j: nat, p: char -> bool)
    requires i <= j <= |s|
    requires forall k | i <= k < j :: p(s[k])
    requires j == |s| || !p(s[j])
    ensures RunEnd(s, i, p) == j
  {
  }

  /** Every character of a slice whose positions all satisfy `p` satisfies `p`. */
  lemma SliceAll(s: string, a: nat, b: nat, p: char -> bool)
    requires a <= b <= |s|
    requires forall k | a <= k < b :: p(s[k])
    ensures forall c | c in s[a..b] :: p(c)
  {
    forall c | c in s[a..b] ensures p(c) {
      var m :| 0 <= m < b - a && s[a..b][m] == c;
      assert c == s[a + m];
    }
  }

  /** What a field query looks like, as a token would see it. */
  predicate FieldShape(l: Lexeme)
    requires l.FieldLexeme?
  {
    && l.ident != [] && IsIdentStart(l.ident[0])
    && (forall c | c in l.ident :: IsWordChar(c))
    && (forall c | c in l.op :: QueryGrammar.IsOperatorChar(c))
    && l.raw != []
    && (|l.raw| == 1 || !QueryGrammar.IsOperatorChar(l.raw[0]))
    && ((l.raw[0] == '(' && l.raw[|l.raw| - 1] == ')') || forall c | c in l.raw :: IsValueChar(c))
  }

  /**
   * A field-query match is an identifier, an operator made of `> < = ! ~`
   * only, and a non-empty value that is either a parenthesised text or free
   * of `:`, white space and parentheses. The value starts with an operator
   * character only when it is that single character, given up by the
   * operator run so that a value could follow.
   */
  lemma FieldAtShape(s: string, i: nat)
    requires i < |s| && FieldAt(s, i).Some?
    ensures FieldShape(FieldAt(s, i).value.0)
  {
    var e := RunEnd(s, i, IsWordChar);
    var k := e + 1;
    var q := RunEnd(s, k, QueryGrammar.IsOperatorChar);
    var (p, end) := Backtrack(s, k, q).value;
    assert FieldAt(s, i) == Some((FieldLexeme(s[i..e], s[k..p], s[p..end]), end));
    RawShape(s, k, q, p, end);
    PartsShape(s, i, e, k, p, end);
  }

  /** The three parts of a field query cut at the runs the lexer finds have the field shape. */
  lemma PartsShape(s: string, i: nat, e: nat, k: nat, p: nat, end: nat)
    requires i < e < k <= p < end <= |s| && IsIdentStart(s[i])
    requires forall m | i <= m < e :: IsWordChar(s[m])
    requires forall m | k <= m < p :: QueryGrammar.IsOperatorChar(s[m])
    requires end - p == 1 || !QueryGrammar.IsOperatorChar(s[p])
    requires (s[p] == '(' && s[end - 1] == ')') || forall c | c in s[p..end] :: IsValueChar(c)
    ensures FieldShape(FieldLexeme(s[i..e], s[k..p], s[p..end]))
  {
    SliceAll(s, i, e, IsWordChar);
    SliceAll(s, k, p, QueryGrammar.IsOperatorChar);
  }

  /** The value after the operator run `s[k..q]`, as `Backtrack` settles it. */
  lemma RawShape(s: string, k: nat, q: nat, p: nat, end: nat)
    requires k <= q <= |s| && q == RunEnd(s, k, QueryGrammar.IsOperatorChar)
    requires Backtrack(s, k, q) == Some((p, end))
    ensures p < end && s[p..end] != []
    ensures end - p == 1 || !QueryGrammar.IsOperatorChar(s[p])
    ensures (s[p] == '(' && s[end - 1] == ')') || forall c | c in s[p..end] :: IsValueChar(c)
  {
    if p < q {
      assert ValueEnd(s, q - 1).Some?;
      assert p == q - 1;
      RunEndAt(s, p, q, IsValueChar);
    }
    if IsValueChar(s[p]) {
      SliceAll(s, p, end, IsValueChar);
    }
  }

  /** `Upper` works character by character. */
  lemma UpperAppend(a: string, b: string)
    ensures Upper(a + b) == Upper(a) + Upper(b)
  {
  }

  /** Upper-casing leaves white space alone. */
  lemma UpperSpaces(sp: string)
    requires forall c | c in sp :: IsSpace(c)
    ensures Upper(sp) == sp
  {
    forall m | 0 <= m < |sp| ensures Upper(sp)[m] == sp[m] {
      assert sp[m] in sp;
    }
  }

  /** A word without white space passes through `UnderscoreSpaces` unchanged. */
  lemma {:induction false} UnderscoreWord(w: string, rest: string)
    requires forall c | c in w :: !IsSpace(c)
    ensures UnderscoreSpaces(w + rest) == w + UnderscoreSpaces(rest)
    decreases |w|
  {
    if w != [] {
      var s := w + rest;
      assert w[0] in w;
      assert s[0] == w[0] && s[1..] == w[1..] + rest;
      assert forall c | c in w[1..] :: c in w;
      UnderscoreWord(w[1..], rest);
      calc {
        UnderscoreSpaces(s);
        [w[0]] + UnderscoreSpaces(w[1..] + rest);
        [w[0]] + (w[1..] + UnderscoreSpaces(rest));
        { assert [w[0]] + w[1..] == w; }
        w + UnderscoreSpaces(rest);
      }
    } else {
      assert w + rest == rest;
    }
  }

  lemma UnderscoreKeyword(w: string)
    requires forall c | c in w :: !IsSpace(c)
    ensures UnderscoreSpaces(w) == w
  {
    UnderscoreWord(w, "");
    assert w + "" == w;
  }

  /** A run of white space becomes a single `_`. */
  lemma UnderscoreRun(sp: string, rest: string)
    requires sp != [] && forall c | c in sp :: IsSpace(c)
    requires rest == [] || !IsSpace(rest[0])
    ensures UnderscoreSpaces(sp + rest) == "_" + UnderscoreSpaces(rest)
  {
    var s := sp + rest;
    forall m | 0 <= m < |sp| ensures IsSpace(s[m]) {
      assert s[m] == sp[m] && sp[m] in sp;
    }
    RunEndAt(s, 0, |sp|, IsSpace);
    assert s[|sp|..] == rest;
  }

  /** The text of a keyword match is one of the six keywords once upper-cased and joined by `_`. */
  lemma KeywordText(s: string, i: nat)
    requires i < |s| && KeywordEnd(s, i).Some?
    ensures UnderscoreSpaces(Upper(s[i..KeywordEnd(s, i).value]))
      in ["AND", "OR", "NOT", "ORDER_BY", "LIMIT", "GROUP_BY"]
  {
    var e := KeywordEnd(s, i);
    KeywordWords();
    if WordEnd(s, i, "AND").Some? {
      assert e == WordEnd(s, i, "AND");
      WordText(s, i, "AND");
    } else if WordEnd(s, i, "OR").Some? {
      assert e == WordEnd(s, i, "OR");
      WordText(s, i, "OR");
    } else if WordEnd(s, i, "NOT").Some? {
      assert e == WordEnd(s, i, "NOT");
      WordText(s, i, "NOT");
    } else if PairEnd(s, i, "ORDER", "BY").Some? {
      assert e == PairEnd(s, i, "ORDER", "BY");
      PairText(s, i, "ORDER", "BY");
      assert "ORDER" + "_" + "BY" == "ORDER_BY";
    } else if WordEnd(s, i, "LIMIT").Some? {
      assert e == WordEnd(s, i, "LIMIT");
      WordText(s, i, "LIMIT");
    } else {
      assert e == PairEnd(s, i, "GROUP", "BY");
      PairText(s, i, "GROUP", "BY");
      assert "GROUP" + "_" + "BY" == "GROUP_BY";
    }
  }


  /** A word of capital letters. */
  predicate Capitals(w: string) {
    forall k | 0 <= k < |w| :: 'A' <= w[k] <= 'Z'
  }

  /** A word of capital letters has no white space. */
  lemma CapitalsNoSpace(w: string)
    requires Capitals(w)
    ensures forall c | c in w :: !IsSpace(c)
    ensures w != [] ==> !IsSpace(w[0])
  {
    forall c | c in w ensures !IsSpace(c) {
      var k :| 0 <= k < |w| && w[k] == c;
    }
  }

  /** The keyword words are capital letters. */
  lemma KeywordWords()
    ensures Capitals("AND") && Capitals("OR") && Capitals("NOT") && Capitals("ORDER")
    ensures Capitals("BY") && Capitals("LIMIT") && Capitals("GROUP")
  {
  }

  /** The text of a one-word keyword match is the word, upper-cased. */
  lemma WordText(s: string, i: nat, w: string)
    requires i <= |s| && WordEnd(s, i, w).Some? && Capitals(w)
    ensures UnderscoreSpaces(Upper(s[i..WordEnd(s, i, w).value])) == w
  {
    CapitalsNoSpace(w);
    UnderscoreKeyword(w);
  }

  /** The text of a two-word keyword match is the two words joined by `_`, upper-cased. */
  lemma PairText(s: string, i: nat, w1: string, w2: string)
    requires i <= |s| && PairEnd(s, i, w1, w2).Some?
    requires w2 != [] && Capitals(w1) && Capitals(w2)
    ensures UnderscoreSpaces(Upper(s[i..PairEnd(s, i, w1, w2).value])) == w1 + "_" + w2
  {
    var j := RunEnd(s, i + |w1|, IsSpace);
    var e := j + |w2|;
    assert PairEnd(s, i, w1, w2).value == e;
    SliceAll(s, i + |w1|, j, IsSpace);
    assert s[i..e] == s[i..i + |w1|] + s[i + |w1|..j] + s[j..e];
    CapitalsNoSpace(w1);
    CapitalsNoSpace(w2);
    PairPieces(s[i..i + |w1|], s[i + |w1|..j], s[j..e], w1, w2);
  }

  /** Two words that upper-case to `w1` and `w2`, with white space between, become `w1_w2`. */
  lemma PairPieces(a: string, sp: string, b: string, w1: string, w2: string)
    requires Upper(a) == w1 && Upper(b) == w2
    requires sp != [] && forall c | c in sp :: IsSpace(c)
    requires w2 != [] && !IsSpace(w2[0])
    requires forall c | c in w1 :: !IsSpace(c)
    requires forall c | c in w2 :: !IsSpace(c)
    ensures UnderscoreSpaces(Upper(a + sp + b)) == w1 + "_" + w2
  {
    PairUpper(a, sp, b, w1, w2);
    UnderscoreWord(w1, sp + w2);
    UnderscoreRun(sp, w2);
    UnderscoreKeyword(w2);
    assert w1 + ("_" + w2) == w1 + "_" + w2;
  }


  lemma PairUpper(a: string, sp: string, b: string, w1: string, w2: string)
    requires Upper(a) == w1 && Upper(b) == w2
    requires forall c | c in sp :: IsSpace(c)
    ensures Upper(a + sp + b) == w1 + (sp + w2)
  {
    UpperAppend(a + sp, b);
    UpperAppend(a, sp);
    UpperSpaces(sp);
  }

  /** Lower-casing a word leaves a word with no upper-case letter. */
  lemma LowerWord(ident: string)
    requires forall c | c in ident :: IsWordChar(c)
    ensures forall c | c in Lower(ident) :: IsWordChar(c) && !('A' <= c <= 'Z')
  {
    forall c | c in Lower(ident) ensures IsWordChar(c) && !('A' <= c <= 'Z') {
      var m :| 0 <= m < |ident| && Lower(ident)[m] == c;
      assert ident[m] in ident;
    }
  }

  /** A value that starts with `<` or `>` only when it is that one character is never a relative time. */
  lemma NoRelativeTime(raw: string, now: int)
    requires raw != [] && (|raw| == 1 || !QueryGrammar.IsOperatorChar(raw[0]))
    ensures var v := QueryValues.ParseValue(raw, now); !(v.Obj? && "relativeTime" in v.props)
  {
  }

  /** The token of any single match has the shape `TokenShape` describes. */
  lemma MatchToken(s: string, i: nat, now: int)
    requires i < |s| && !IsSpace(s[i])
    ensures TokenShape(ToToken(MatchAt(s, i).0, now))
  {
    if FieldAt(s, i).Some? {
      var l := FieldAt(s, i).value.0;
      FieldAtShape(s, i);
      LowerWord(l.ident);
      NoRelativeTime(l.raw, now);
    } else if KeywordEnd(s, i).Some? {
      KeywordText(s, i);
    } else if s[i] != '(' && s[i] != ')' {
      var e := RunEnd(s, i, IsNotSpace);
      SliceAll(s, i, e, IsNotSpace);
    }
  }

  lemma {:induction false} TokensShape(s: string, i: nat, now: int)
    requires i <= |s|
    ensures forall t | t in Tokens(s, i, now) :: TokenShape(t)
    decreases |s| - i
  {
    var j := RunEnd(s, i, IsSpace);
    if j < |s| {
      var (l, e) := MatchAt(s, j);
      MatchToken(s, j, now);
      TokensShape(s, e, now);
    }
  }

  /**
   * A quoted value is cut at its first space: `ident:"word rest` matches
   * as the field query `ident` with the value `"word`, quote included, and
   * scanning resumes at the space.
   */
  lemma QuotedValueCut(ident: string, word: string, rest: string)
    requires ident != [] && IsIdentStart(ident[0]) && forall c | c in ident :: IsWordChar(c)
    requires forall c | c in word :: IsValueChar(c)
    requires rest != [] && IsSpace(rest[0])
    ensures var s := ident + ":\"" + word + rest;
      MatchAt(s, 0) == (FieldLexeme(ident, "", "\"" + word), |ident| + 2 + |word|)
  {
    var s := ident + ":\"" + word + rest;
    var n := |ident|;
    QuotedChars(s, ident, word, rest);
    RunEndAt(s, 0, n, IsWordChar);
    RunEndAt(s, n + 1, n + 1, QueryGrammar.IsOperatorChar);
    RunEndAt(s, n + 1, n + 2 + |word|, IsValueChar);
    MatchField(s, 0, n, n + 1, n + 2 + |word|);
  }

  /** The characters of `ident:"word rest`, position by position. */
  lemma QuotedChars(s: string, ident: string, word: string, rest: string)
    requires s == ident + ":\"" + word + rest
    requires forall c | c in ident :: IsWordChar(c)
    requires forall c | c in word :: IsValueChar(c)
    requires rest != []
    ensures forall k | 0 <= k < |ident| :: IsWordChar(s[k])
    ensures s[|ident|] == ':' && s[|ident| + 1] == '"' && s[|ident| + 2 + |word|] == rest[0]
    ensures forall k | |ident| + 1 <= k < |ident| + 2 + |word| :: IsValueChar(s[k])
    ensures s[0..|ident|] == ident && s[|ident| + 1..|ident| + 1] == ""
    ensures s[|ident| + 1..|ident| + 2 + |word|] == "\"" + word
  {
    var n := |ident|;
    forall k | 0 <= k < n ensures IsWordChar(s[k]) {
      assert s[k] == ident[k] && ident[k] in ident;
    }
    forall k | n + 1 <= k < n + 2 + |word| ensures IsValueChar(s[k]) {
      if k > n + 1 {
        assert s[k] == word[k - n - 2] && word[k - n - 2] in word;
      }
    }
  }


  /**
   * Where the identifier run stops at a colon, the operator run stops at
   * `p` and a value runs from `p` to `end`, the match is that field query.
   */
  lemma MatchField(s: string, i: nat, e: nat, p: nat, end: nat)
    requires i < e < |s| && IsIdentStart(s[i]) && RunEnd(s, i, IsWordChar) == e && s[e] == ':'
    requires e + 1 <= p <= |s| && RunEnd(s, e + 1, QueryGrammar.IsOperatorChar) == p
    requires ValueEnd(s, p) == Some(end)
    ensures MatchAt(s, i) == (FieldLexeme(s[i..e], s[e + 1..p], s[p..end]), end)
  {
    FieldAtIs(s, i, e, p, end);
  }

  /** The field-query match of `MatchField`, before `MatchAt` picks it. */
  lemma FieldAtIs(s: string, i: nat, e: nat, p: nat, end: nat)
    requires i < e < |s| && IsIdentStart(s[i]) && RunEnd(s, i, IsWordChar) == e && s[e] == ':'
    requires e + 1 <= p <= |s| && RunEnd(s, e + 1, QueryGrammar.IsOperatorChar) == p
    requires ValueEnd(s, p) == Some(end)
    ensures FieldAt(s, i) == Some((FieldLexeme(s[i..e], s[e + 1..p], s[p..end]), end))
  {
    assert Backtrack(s, e + 1, p) == Some((p, end));
  }


  /**
   * A text that is one field query, `ident:op value` with a value of plain
   * characters that does not start with an operator character, is that one
   * field-query token.
   */
  lemma SingleFieldQuery(ident: string, op: string, word: string, now: int)
    requires ident != [] && IsIdentStart(ident[0]) && forall c | c in ident :: IsWordChar(c)
    requires forall c | c in op :: QueryGrammar.IsOperatorChar(c)
    requires word != [] && !QueryGrammar.IsOperatorChar(word[0]) && forall c | c in word :: IsValueChar(c)
    ensures Lex(ident + ":" + op + word, now) == [ToToken(FieldLexeme(ident, op, word), now)]
  {
    var s := ident + ":" + op + word;
    var l := FieldLexeme(ident, op, word);
    SingleFieldMatch(ident, op, word);
    assert !IsSpace(s[0]);
    assert MatchAt(s, 0) == (l, |s|);
    RunEndAt(s, |s|, |s|, IsSpace);
    assert Tokens(s, |s|, now) == [];
    RunEndAt(s, 0, 0, IsSpace);
    assert Tokens(s, 0, now) == [ToToken(l, now)] + Tokens(s, |s|, now);
  }

  lemma SingleFieldMatch(ident: string, op: string, word: string)
    requires ident != [] && IsIdentStart(ident[0]) && forall c | c in ident :: IsWordChar(c)
    requires forall c | c in op :: QueryGrammar.IsOperatorChar(c)
    requires word != [] && !QueryGrammar.IsOperatorChar(word[0]) && forall c | c in word :: IsValueChar(c)
    ensures var s := ident + ":" + op + word;
      FieldAt(s, 0) == Some((FieldLexeme(ident, op, word), |s|))
  {
    var s := ident + ":" + op + word;
    var n := |ident|;
    var k := n + 1;
    var q := k + |op|;
    forall m | 0 <= m < n ensures IsWordChar(s[m]) {
      assert s[m] == ident[m] && ident[m] in ident;
    }
    RunEndAt(s, 0, n, IsWordChar);
    forall m | k <= m < q ensures QueryGrammar.IsOperatorChar(s[m]) {
      assert s[m] == op[m - k] && op[m - k] in op;
    }
    assert s[q] == word[0];
    RunEndAt(s, k, q, QueryGrammar.IsOperatorChar);
    forall m | q <= m < |s| ensures IsValueChar(s[m]) {
      assert s[m] == word[m - q] && word[m - q] in word;
    }
    RunEndAt(s, q, |s|, IsValueChar);
    assert s[0..n] == ident && s[k..q] == op && s[q..|s|] == word;
  }
}
