/** What written and read scalars of lesson frontmatter are, said of their texts. */
module ScalarLaws {
  import opened Prelude
  import opened Decimal
  import opened LessonScalars

  // ---- White space ------------------------------------------------------------------------------

  ghost predicate AllSpace(s: string) {
    forall c :: c in s ==> IsSpace(c)
  }

  ghost predicate IsTrimmed(s: string) {
    s != "" ==> !IsSpace(s[0]) && !IsSpace(s[|s| - 1])
  }

  lemma {:induction false} TrimStartMeans(before: string, s: string)
    requires AllSpace(before) && (s != "" ==> !IsSpace(s[0]))
    ensures TrimStart(before + s) == s
  {
    if before == "" {
      assert before + s == s;
    } else {
      TrimStartMeans(before[1..], s);
      assert (before + s)[1..] == before[1..] + s;
    }
  }

  lemma {:induction false} TrimEndMeans(s: string, after: string)
    requires AllSpace(after) && (s != "" ==> !IsSpace(s[|s| - 1]))
    ensures TrimEnd(s + after) == s
  {
    if after == "" {
      assert s + after == s;
    } else {
      var n := |after| - 1;
      TrimEndMeans(s, after[..n]);
      assert (s + after)[..|s + after| - 1] == s + after[..n];
      assert IsSpace(after[n]);
    }
  }

  /** Trimming takes the white space from both ends and nothing else. */
  lemma TrimMeans(before: string, s: string, after: string)
    requires AllSpace(before) && AllSpace(after) && IsTrimmed(s)
    ensures Trim(before + s + after) == s
  {
    if s == "" {
      assert before + s + after == (before + after) + "";
      TrimStartMeans(before + after, "");
      TrimEndMeans("", "");
    } else {
      assert before + s + after == before + (s + after);
      TrimStartMeans(before, s + after);
      TrimEndMeans(s, after);
    }
  }

  lemma {:induction false} TrimStartSplits(s: string) returns (before: string)
    ensures s == before + TrimStart(s) && AllSpace(before) && (TrimStart(s) != "" ==> !IsSpace(TrimStart(s)[0]))
  {
    before := "";
    if s != "" && IsSpace(s[0]) {
      before := TrimStartSplits(s[1..]);
      before := [s[0]] + before;
    }
  }

  lemma {:induction false} TrimEndSplits(s: string) returns (after: string)
    ensures s == TrimEnd(s) + after && AllSpace(after) && (TrimEnd(s) != "" ==> !IsSpace(TrimEnd(s)[|TrimEnd(s)| - 1]))
  {
    after := "";
    if s != "" && IsSpace(s[|s| - 1]) {
      after := TrimEndSplits(s[..|s| - 1]);
      after := after + [s[|s| - 1]];
    }
  }

  /** What trimming takes away is white space. */
  lemma TrimSplits(s: string) returns (before: string, after: string)
    ensures s == before + Trim(s) + after && AllSpace(before) && AllSpace(after) && IsTrimmed(Trim(s))
  {
    before := TrimStartSplits(s);
    after := TrimEndSplits(TrimStart(s));
    if Trim(s) != "" {
      assert Trim(s)[0] == TrimStart(s)[0];
    }
  }

  /** White space around a scalar makes no difference. */
  lemma SpaceDoesNotMatter(n: Numbers, before: string, s: string, after: string)
    requires AllSpace(before) && AllSpace(after) && IsTrimmed(s)
    ensures ParseScalar(n, before + s + after) == ParseScalar(n, s)
  {
    TrimMeans(before, s, after);
    TrimMeans("", s, "");
    assert "" + s + "" == s;
  }

  // ---- Escapes ----------------------------------------------------------------------------------

  /** The six escape sequences; every other character stands for itself. */
  lemma EscapesAre()
    ensures Escape("\n") == "\\n" && Escape("\r") == "\\r" && Escape("\t") == "\\t" && Escape("\0") == "\\0"
    ensures Escape("\"") == "\\\"" && Escape("\\") == "\\\\"
    ensures forall c :: c !in "\n\r\t\0\"\\" ==> Escape([c]) == [c]
  {
    assert forall c :: Escape([c]) == EscapeChar(c) + Escape("");
  }

  /** Texts are escaped character by character. */
  lemma {:induction false} EscapeConcat(a: string, b: string)
    ensures Escape(a + b) == Escape(a) + Escape(b)
  {
    if a == "" {
      assert a + b == b;
    } else {
      EscapeConcat(a[1..], b);
      assert (a + b)[1..] == a[1..] + b;
    }
  }

  /** Every text can be given between double quotes, escaped. */
  lemma DoubleQuotedIsRead(n: Numbers, s: string)
    ensures ParseScalar(n, "\"" + Escape(s) + "\"") == Text(s)
  {
    DecodeUndoesEscape(s);
    ReadQuoted(n, Escape(s));
    assert "\"" + Escape(s) + "\"" == Quote(Escape(s));
  }

  /** Every single quote twice. */
  function Doubled(s: string): string {
    if s == "" then "" else (if s[0] == '\'' then "''" else [s[0]]) + Doubled(s[1..])
  }

  lemma {:induction false} DoubledIsRead(s: string)
    ensures QuotesPaired(Doubled(s)) && DecodeSingle(Doubled(s)) == s
  {
    if s != "" {
      DoubledIsRead(s[1..]);
      var d := Doubled(s);
      if s[0] == '\'' {
        assert d[2..] == Doubled(s[1..]);
      } else {
        assert d[1..] == Doubled(s[1..]);
      }
    }
  }

  /** Every text can be given between single quotes, its own single quotes doubled. */
  lemma SingleQuotedIsRead(n: Numbers, s: string)
    ensures ParseScalar(n, "'" + Doubled(s) + "'") == Text(s)
  {
    var q := "'" + Doubled(s) + "'";
    DoubledIsRead(s);
    TrimmedStays(q);
    assert q[1..|q| - 1] == Doubled(s) && q[0] == '\'' && q[|q| - 1] == '\'';
  }

  // ---- Truth values and numbers ------------------------------------------------------------------

  ghost predicate IsDigits(s: string) {
    s != "" && forall i :: 0 <= i < |s| ==> '0' <= s[i] <= '9'
  }

  /** An optional sign, digits, and an optional fraction. */
  ghost predicate IsNumeral(s: string, sign: string, whole: string, fraction: string) {
    && s == sign + whole + fraction && (sign == "" || sign == "-") && IsDigits(whole)
    && (fraction == "" || (fraction[0] == '.' && IsDigits(fraction[1..])))
  }

  lemma DigitsMean(s: string)
    ensures IsUnsignedInteger(s) <==> IsDigits(s)
  {
    assert IsUnsignedInteger(s) <==> s != "" && AllDigits(s);
  }

  lemma WholeIsNumeral(s: string)
    requires IsUnsignedInteger(s)
    ensures IsNumeral(s, "", s, "")
  {
    DigitsMean(s);
  }

  lemma DecimalIsNumeral(s: string, dot: nat)
    requires IsDecimalAt(s, dot)
    ensures IsNumeral(s, "", s[..dot], s[dot..])
  {
    DigitsMean(s[..dot]);
    DigitsMean(s[dot + 1..]);
    assert s[dot..][1..] == s[dot + 1..] && s == "" + s[..dot] + s[dot..];
  }

  lemma NumeralIsUnsigned(s: string, whole: string, fraction: string)
    requires IsNumeral(s, "", whole, fraction)
    ensures IsUnsignedInteger(s) || IsUnsignedDecimal(s)
  {
    DigitsMean(whole);
    if fraction == "" {
      assert s == whole;
    } else {
      DigitsMean(fraction[1..]);
      assert s[..|whole|] == whole && s[|whole| + 1..] == fraction[1..] && s[|whole|] == '.';
      assert IsDecimalAt(s, |whole|);
    }
  }

  ghost predicate IsUnsignedNumeral(s: string) {
    exists whole, fraction :: IsNumeral(s, "", whole, fraction)
  }

  lemma UnsignedMeans(s: string)
    ensures IsUnsignedInteger(s) || IsUnsignedDecimal(s) <==> IsUnsignedNumeral(s)
  {
    if IsUnsignedInteger(s) {
      WholeIsNumeral(s);
    } else if IsUnsignedDecimal(s) {
      var dot :| 0 <= dot < |s| && IsDecimalAt(s, dot);
      DecimalIsNumeral(s, dot);
    }
    if IsUnsignedNumeral(s) {
      var whole, fraction :| IsNumeral(s, "", whole, fraction);
      NumeralIsUnsigned(s, whole, fraction);
    }
  }

  lemma NumeralMeans(s: string)
    ensures LooksNumeric(s) <==> exists sign, whole, fraction :: IsNumeral(s, sign, whole, fraction)
  {
    UnsignedMeans(Magnitude(s));
    if LooksNumeric(s) {
      var whole, fraction :| IsNumeral(Magnitude(s), "", whole, fraction);
      var sign := if s[0] == '-' then "-" else "";
      assert s == sign + Magnitude(s);
      assert IsNumeral(s, sign, whole, fraction);
    }
    if exists sign, whole, fraction :: IsNumeral(s, sign, whole, fraction) {
      var sign, whole, fraction :| IsNumeral(s, sign, whole, fraction);
      assert s[|sign|] == whole[0];
      assert s[|sign|..] == "" + whole + fraction;
      assert Magnitude(s) == s[|sign|..];
      assert IsNumeral(Magnitude(s), "", whole, fraction);
    }
  }

  /** An unquoted scalar is a truth value, a number or the text as it stands. */
  lemma PlainScalarMeans(n: Numbers, s: string)
    requires s != "" && IsTrimmed(s) && s[0] != '"' && s[0] != '\''
    ensures ParseScalar(n, s) == Flag(true) <==> s == "true"
    ensures ParseScalar(n, s) == Flag(false) <==> s == "false"
    ensures forall m :: ParseScalar(n, s) == Number(m) <==>
                        n.read(s) == Some(m) && exists sign, whole, fraction :: IsNumeral(s, sign, whole, fraction)
    ensures ParseScalar(n, s).Text? ==> ParseScalar(n, s) == Text(s)
  {
    TrimmedStays(s);
    NumeralMeans(s);
    if s == "true" || s == "false" {
      assert s[0] != '-' && !('0' <= s[0] <= '9');
      assert !LooksNumeric(s);
    }
  }

  // ---- Writing ----------------------------------------------------------------------------------

  ghost predicate IsWordChar(c: char) {
    'A' <= c <= 'Z' || 'a' <= c <= 'z' || '0' <= c <= '9' || c in "._:/+-"
  }

  /** Word characters with single blanks between them allowed, and no hyphen in front. */
  ghost predicate IsBare(s: string) {
    && s != "" && IsWordChar(s[0]) && s[0] != '-' && IsWordChar(s[|s| - 1])
    && forall c :: c in s ==> IsWordChar(c) || c == ' '
  }

  /** A text is written as it stands exactly if it is bare, and escaped between double quotes otherwise. */
  lemma WrittenAs(s: string)
    ensures EncodeText(s) == if IsBare(s) then s else "\"" + Escape(s) + "\""
  {
    PlainIff(s);
    if IsPlainText(s) && IsIndicator(s[0]) {
      NothingEscaped(s);
    }
  }

  lemma PlainIff(s: string)
    ensures IsPlainText(s) && !IsIndicator(s[0]) <==> IsBare(s)
    ensures IsPlainText(s) ==> forall c :: c in s ==> IsWordChar(c) || c == ' '
  {
    if IsBare(s) {
      forall i | 0 < i < |s| ensures IsPlainStart(s[i]) || s[i] == ' ' {
        assert s[i] in s;
      }
    }
    assert IsSpace(' ');
  }

  lemma {:induction false} NothingEscaped(s: string)
    requires forall c :: c in s ==> IsWordChar(c) || c == ' '
    ensures Escape(s) == s && EscapeQuotes(s) == s
  {
    if s != "" {
      NothingEscaped(s[1..]);
      assert s[0] in s;
    }
  }
}
