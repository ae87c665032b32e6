/** Worked cases of the query engine on the inputs its documentation and tests use. */
module QueryCases {
  import opened JsValues
  import opened Results
  import opened QueryValues
  import QueryGrammar
  import Calendar
  /** Quoted values lose their quotes; a lone quote leaves the empty string. */
  lemma ParseValueQuoted(now: int)
    ensures ParseValue("\"API\"", now) == Str("API")
    ensures ParseValue("\"", now) == Str("")
    ensures ParseValue("'bug'", now) == Str("bug")
  {
    StartsWithChar("\"API\"", '"'); EndsWithChar("\"API\"", '"');
    StartsWithChar("\"", '"'); EndsWithChar("\"", '"');
    StartsWithChar("'bug'", '"'); StartsWithChar("'bug'", '\''); EndsWithChar("'bug'", '\'');
  }

  lemma SplitListExample()
    ensures SplitOn("a, b ,c", ",") == ["a", " b ", "c"]
  {
    assert SplitOn("c", ",") == ["c"] by {
      assert SplitOn("", ",") == [""];
      assert "c"[1..] == "" && ['c'] + "" == "c";
    }
    assert SplitOn(",c", ",") == ["", "c"];
    assert SplitOn(" ,c", ",") == [" ", "c"] by {
      assert " ,c"[1..] == ",c" && [' '] + "" == " ";
    }
    assert SplitOn("b ,c", ",") == ["b ", "c"] by {
      assert "b ,c"[1..] == " ,c" && ['b'] + " " == "b ";
    }
    assert SplitOn(" b ,c", ",") == [" b ", "c"] by {
      assert " b ,c"[1..] == "b ,c" && [' '] + "b " == " b ";
    }
    assert SplitOn(", b ,c", ",") == ["", " b ", "c"];
    assert "a, b ,c"[1..] == ", b ,c" && ['a'] + "" == "a";
  }

  lemma TrimListExample()
    ensures TrimAll(["a", " b ", "c"]) == [Str("a"), Str("b"), Str("c")]
  {
    TrimAllThree("a", " b ", "c");
    TrimSpacedExample();
    TrimUnspaced("a");
    TrimUnspaced("c");
  }

  lemma TrimAllThree(x: string, y: string, z: string)
    ensures TrimAll([x, y, z]) == [Str(Trim(x)), Str(Trim(y)), Str(Trim(z))]
  {
    assert [x, y, z][1..] == [y, z] && [y, z][1..] == [z] && [z][1..] == [];
    assert TrimAll([z]) == [Str(Trim(z))];
    assert TrimAll([y, z]) == [Str(Trim(y)), Str(Trim(z))];
  }

  lemma TrimSpacedExample()
    ensures Trim(" b ") == "b"
  {
    TrimStartExample();
    TrimEndExample();
  }

  lemma TrimStartExample()
    ensures TrimStart(" b ") == "b "
  {
  }

  lemma TrimEndExample()
    ensures TrimEnd("b ") == "b"
  {
  }

  /** A parenthesised list becomes its trimmed comma-separated items. */
  lemma ParseValueList(now: int)
    ensures ParseValue("(a, b ,c)", now) == Arr([Str("a"), Str("b"), Str("c")])
  {
    var raw := "(a, b ,c)";
    StartsWithChar(raw, '"'); StartsWithChar(raw, '\''); StartsWithChar(raw, '('); EndsWithChar(raw, ')');
    assert Inner(raw) == "a, b ,c";
    SplitListExample();
    TrimListExample();
  }

  lemma SplitRangeExample()
    ensures SplitOn("3..8", "..") == ["3", "8"]
  {
    assert SplitOn("8", "..") == ["8"] by {
      assert SplitOn("", "..") == [""];
      assert "8"[1..] == "" && ['8'] + "" == "8";
    }
    assert SplitOn("..8", "..") == ["", "8"];
    assert "3..8"[1..] == "..8" && ['3'] + "" == "3";
  }

  /** `3..8` becomes a range of two numbers. */
  lemma ParseValueRange(now: int)
    ensures ParseValue("3..8", now) == Obj(map["range" := Arr([Num(3), Num(8)])])
  {
    var raw := "3..8";
    StartsWithChar(raw, '"'); StartsWithChar(raw, '\''); StartsWithChar(raw, '(');
    RangeIncluded();
    SplitRangeExample();
    NumeralDigit("3", 3);
    NumeralDigit("8", 8);
  }

  lemma RangeIncluded()
    ensures Includes("3..8", "..")
  {
    assert "3..8"[1..] == "..8" && StartsWith("..8", "..");
  }

  /** A one-digit numeral other than 0 denotes its digit. */
  lemma NumeralDigit(s: string, d: nat)
    requires |s| == 1 && '1' <= s[0] <= '9' && d == s[0] as int - '0' as int
    ensures ParseNumericValue(s) == Num(d)
  {
    TrimUnspaced(s);
    assert s == [s[0]];
    assert forall c | c in s :: IsDigitIn(c, 10);
    assert DigitsValue(s, 10) == d by {
      assert s[..0] == [];
    }
  }

  /** A numeral becomes a number. */
  lemma ParseValueNumber(now: int)
    ensures ParseValue("5", now) == Num(5)
  {
    PlainText("5");
    NumeralFive();
  }

  lemma NumeralFive()
    ensures StringToNumber("5") == Some(5)
  {
    NumeralDigit("5", 5);
  }

  /** Text that is neither quoted, parenthesised nor a range. */
  predicate Plain(raw: string) {
    !StartsWith(raw, "\"") && !StartsWith(raw, "'") && !StartsWith(raw, "(") && !Includes(raw, "..")
  }

  lemma PlainText(raw: string)
    requires raw != [] && raw[0] != '"' && raw[0] != '\'' && raw[0] != '('
    requires forall k | 0 <= k < |raw| :: raw[k] != '.'
    ensures Plain(raw)
  {
    StartsWithChar(raw, '"'); StartsWithChar(raw, '\''); StartsWithChar(raw, '(');
    NoDotNoRange(raw);
  }

  lemma {:induction false} NoDotNoRange(s: string)
    requires forall k | 0 <= k < |s| :: s[k] != '.'
    ensures !Includes(s, "..")
    decreases |s|
  {
    if s != [] {
      assert !StartsWith(s, "..") by {
        if |s| >= 2 { assert s[..2][0] == s[0]; }
      }
      NoDotNoRange(s[1..]);
    }
  }

  /** Text that starts with neither a digit nor a sign is not a numeral. */
  lemma NotNumeral(s: string)
    requires s != [] && !IsSpace(s[0]) && !IsSpace(s[|s| - 1])
    requires !IsDigit(s[0]) && s[0] != '+' && s[0] != '-'
    ensures StringToNumber(s) == None
  {
    TrimUnspaced(s);
    assert !IsDigitIn(s[0], 10);
  }

  /** Text with a non-digit after a leading digit other than 0 is not a numeral. */
  lemma NotDigitsAt(s: string, k: nat)
    requires k < |s| && !IsSpace(s[0]) && !IsSpace(s[|s| - 1])
    requires '1' <= s[0] <= '9' && !IsDigitIn(s[k], 10)
    ensures StringToNumber(s) == None
  {
    TrimUnspaced(s);
    assert s[k] in s;
  }

  /** A word that is nothing else stays text. */
  lemma ParseValueWord(now: int)
    ensures ParseValue("open", now) == Str("open")
  {
    PlainText("open");
    NotNumeral("open");
    OpenNotKeyword();
  }

  lemma OpenNotKeyword()
    ensures !QueryGrammar.IsTimeKeyword("open") && MatchRelativeTime("open") == None
  {
  }

  /** A date keyword becomes the date it stands for. */
  lemma ParseValueKeyword(now: int)
    ensures ParseValue("7d", now) == DateVal(now - 7 * Calendar.MsPerDay)
  {
    PlainText("7d");
    SevenDaysNotNumeral();
    assert QueryGrammar.IsTimeKeyword("7d");
  }

  lemma SevenDaysNotNumeral()
    ensures StringToNumber("7d") == None
  {
    NotDigitsAt("7d", 1);
  }

  /** A relative time becomes its comparison and the date that many units back. */
  lemma ParseValueRelative(now: int)
    ensures ParseValue("<7d", now)
      == Obj(map["relativeTime" := Str("<"), "date" := DateVal(now - 7 * Calendar.MsPerDay)])
  {
    PlainText("<7d");
    NotNumeral("<7d");
    RelativeNotKeyword();
    RelativeMatch();
  }

  lemma RelativeNotKeyword()
    ensures !QueryGrammar.IsTimeKeyword("<7d")
  {
  }

  lemma RelativeMatch()
    ensures MatchRelativeTime("<7d") == Some(RelativeTime("<", 7, 'd'))
  {
    assert "<7d"[1..2] == "7" && "<7d"[..1] == "<";
    assert DigitsValue("7", 10) == 7 by {
      assert "7"[..0] == [];
    }
  }

  /** A value with an opening quote and no closing one stays text, quote included. */
  lemma ParseValueUnclosed(raw: string, now: int)
    requires |raw| >= 2 && raw[0] == '"' && raw[|raw| - 1] != '"' && !IsSpace(raw[|raw| - 1])
    requires forall k | 0 <= k < |raw| :: raw[k] != '.'
    ensures ParseValue(raw, now) == Str(raw)
  {
    StartsWithChar(raw, '\''); StartsWithChar(raw, '('); NoDotNoRange(raw);
    EndsWithChar(raw, '"');
    NotNumeral(raw);
    assert !QueryGrammar.IsTimeKeyword(raw);
  }
}
