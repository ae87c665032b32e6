/** Worked cases of the tokenizer on inputs from the query language's documentation. */
module LexerCases {
  import opened JsValues
  import QueryLexer
  import QueryCases

  /** `milestone:"Sprint 3"`: the value is cut at the space and `3"` is left as a token of its own. */
  lemma QuotedWithSpace(now: int)
    ensures QueryLexer.Lex("milestone:\"Sprint 3\"", now)
      == [QueryLexer.FieldQuery("milestone", "=", Str("\"Sprint")), QueryLexer.ValueTok("3\"")]
  {
    QuotedWithSpaceIn("milestone:\"Sprint 3\"", now);
  }

  lemma QuotedWithSpaceIn(s: string, now: int)
    requires s == "milestone:\"Sprint 3\""
    ensures QueryLexer.Lex(s, now)
      == [QueryLexer.FieldQuery("milestone", "=", Str("\"Sprint")), QueryLexer.ValueTok("3\"")]
  {
    QuotedFirstMatch(s);
    QueryLexer.RunEndAt(s, 0, 0, IsSpace);
    assert QueryLexer.Tokens(s, 0, now)
      == [QueryLexer.ToToken(QueryLexer.FieldLexeme("milestone", "", "\"Sprint"), now)] + QueryLexer.Tokens(s, 17, now);
    SprintToken(now);
    StrayQuoteToken(s, now);
  }

  lemma QuotedFirstMatch(s: string)
    requires s == "milestone:\"Sprint 3\""
    ensures QueryLexer.MatchAt(s, 0) == (QueryLexer.FieldLexeme("milestone", "", "\"Sprint"), 17)
  {
    QuotedCut(s, "milestone", "Sprint", " 3\"");
    assert "\"" + "Sprint" == "\"Sprint";
  }

  lemma QuotedCut(s: string, ident: string, word: string, rest: string)
    requires s == "milestone:\"Sprint 3\"" && ident == "milestone" && word == "Sprint" && rest == " 3\""
    ensures QueryLexer.MatchAt(s, 0) == (QueryLexer.FieldLexeme(ident, "", "\"" + word), 17)
  {
    assert s == ident + ":\"" + word + rest;
    QueryLexer.QuotedValueCut(ident, word, rest);
  }

  lemma SprintToken(now: int)
    ensures QueryLexer.ToToken(QueryLexer.FieldLexeme("milestone", "", "\"Sprint"), now)
      == QueryLexer.FieldQuery("milestone", "=", Str("\"Sprint"))
  {
    assert Lower("milestone") == "milestone";
    QueryCases.ParseValueUnclosed("\"Sprint", now);
  }

  lemma StrayQuoteToken(s: string, now: int)
    requires s == "milestone:\"Sprint 3\""
    ensures QueryLexer.Tokens(s, 17, now) == [QueryLexer.ValueTok("3\"")]
  {
    QueryLexer.RunEndAt(s, 17, 18, IsSpace);
    assert QueryLexer.FieldAt(s, 18).None?;
    assert QueryLexer.KeywordEnd(s, 18).None?;
    QueryLexer.RunEndAt(s, 18, 20, QueryLexer.IsNotSpace);
    QueryLexer.RunEndAt(s, 20, 20, IsSpace);
    assert s[18..20] == "3\"";
  }
}
