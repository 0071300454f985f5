/** The scalars of lesson frontmatter: how they are written and what is read back. */
module LessonScalars {
  import opened Prelude
  import opened Decimal

  /** `show` prints a number; `read` gives the number a decimal text denotes, or `None` beyond the finite ones. */
  datatype Numbers = Numbers(show: real -> string, read: string -> Option<real>)

  datatype Scalar = Text(text: string) | Number(number: real) | Flag(flag: bool)

  // ---- White space ------------------------------------------------------------------

  /** White space and line terminators of JavaScript. */
  predicate IsSpace(c: char) {
    || '\U{0009}' <= c <= '\U{000d}' || c == ' ' || c == '\U{00a0}' || c == '\U{1680}' || '\U{2000}' <= c <= '\U{200a}'
    || c == '\U{2028}' || c == '\U{2029}' || c == '\U{202f}' || c == '\U{205f}' || c == '\U{3000}' || c == '\U{feff}'
  }

  function TrimStart(s: string): string {
    if s != "" && IsSpace(s[0]) then TrimStart(s[1..]) else s
  }

  function TrimEnd(s: string): string {
    if s != "" && IsSpace(s[|s| - 1]) then TrimEnd(s[..|s| - 1]) else s
  }

  function Trim(s: string): string {
    TrimEnd(TrimStart(s))
  }

  lemma TrimmedStays(s: string)
    requires s != "" ==> !IsSpace(s[0]) && !IsSpace(s[|s| - 1])
    ensures Trim(s) == s
  {
  }

  // ---- Quoted text ----------------------------------------------------------------------

  /** The characters that may follow a backslash. */
  predicate IsEscape(c: char) {
    c in {'"', '\\', 'n', 'r', 't', '0'}
  }

  /** The inside of a double-quoted scalar. */
  predicate IsEscaped(s: string) {
    if s == "" then true
    else if s[0] == '\\' then |s| >= 2 && IsEscape(s[1]) && IsEscaped(s[2..])
    else s[0] != '"' && IsEscaped(s[1..])
  }

  predicate IsDoubleQuoted(s: string) {
    |s| >= 2 && s[0] == '"' && s[|s| - 1] == '"' && IsEscaped(s[1..|s| - 1])
  }

  function Unescaped(c: char): char {
    match c
    case 'n' => '\n'
    case 'r' => '\r'
    case 't' => '\t'
    case '0' => '\0'
    case _ => c
  }

  /** Replaces every escape sequence, from left to right. */
  function Decode(s: string): string {
    if s == "" then ""
    else if s[0] == '\\' && |s| >= 2 && IsEscape(s[1]) then [Unescaped(s[1])] + Decode(s[2..])
    else [s[0]] + Decode(s[1..])
  }

  /** The inside of a single-quoted scalar: quotes come in pairs. */
  predicate QuotesPaired(s: string) {
    if s == "" then true
    else if s[0] == '\'' then |s| >= 2 && s[1] == '\'' && QuotesPaired(s[2..])
    else QuotesPaired(s[1..])
  }

  predicate IsSingleQuoted(s: string) {
    |s| >= 2 && s[0] == '\'' && s[|s| - 1] == '\'' && QuotesPaired(s[1..|s| - 1])
  }

  function DecodeSingle(s: string): string {
    if s == "" then ""
    else if s[0] == '\'' && |s| >= 2 && s[1] == '\'' then ['\''] + DecodeSingle(s[2..])
    else [s[0]] + DecodeSingle(s[1..])
  }

  // ---- Reading -------------------------------------------------------------------------------

  predicate IsUnsignedInteger(s: string) {
    s != "" && AllDigits(s)
  }

  predicate IsUnsignedDecimal(s: string) {
    exists dot :: 0 <= dot < |s| && IsDecimalAt(s, dot)
  }

  predicate IsDecimalAt(s: string, dot: nat) {
    dot < |s| && s[dot] == '.' && IsUnsignedInteger(s[..dot]) && IsUnsignedInteger(s[dot + 1..])
  }

  function Magnitude(s: string): string {
    if s != "" && s[0] == '-' then s[1..] else s
  }

  /** An integer or decimal, possibly negative. */
  predicate LooksNumeric(s: string) {
    IsUnsignedInteger(Magnitude(s)) || IsUnsignedDecimal(Magnitude(s))
  }

  function ParseScalar(n: Numbers, raw: string): Scalar {
    var s := Trim(raw);
    if s == "" then Text("")
    else if IsDoubleQuoted(s) then Text(Decode(s[1..|s| - 1]))
    else if IsSingleQuoted(s) then Text(DecodeSingle(s[1..|s| - 1]))
    else if s == "true" then Flag(true)
    else if s == "false" then Flag(false)
    else if LooksNumeric(s) && n.read(s).Some? then Number(n.read(s).value)
    else Text(s)
  }

  // ---- Writing --------------------------------------------------------------------------------

  predicate IsPlainStart(c: char) {
    'A' <= c <= 'Z' || 'a' <= c <= 'z' || '0' <= c <= '9' || c in {'.', '_', ':', '/', '+', '-'}
  }

  predicate IsPlainText(s: string) {
    && s != "" && IsPlainStart(s[0]) && (forall i :: 0 < i < |s| ==> IsPlainStart(s[i]) || s[i] == ' ')
    && !IsSpace(s[0]) && !IsSpace(s[|s| - 1])
  }

  predicate IsIndicator(c: char) {
    c in {'?', '*', '&', '!', '|', '>', '%', '@', '`', '#', '-'}
  }

  function EscapeChar(c: char): string {
    match c
    case '\n' => "\\n"
    case '\r' => "\\r"
    case '\t' => "\\t"
    case '\0' => "\\0"
    case '"' => "\\\""
    case '\\' => "\\\\"
    case _ => [c]
  }

  function Escape(s: string): string {
    if s == "" then "" else EscapeChar(s[0]) + Escape(s[1..])
  }

  function EscapeQuoteChar(c: char): string {
    if c == '"' || c == '\\' then ['\\', c] else [c]
  }

  /** Escapes only quotes and backslashes. */
  function EscapeQuotes(s: string): string {
    if s == "" then "" else EscapeQuoteChar(s[0]) + EscapeQuotes(s[1..])
  }

  function Quote(inner: string): string {
    ['"'] + inner + ['"']
  }

  function EncodeText(s: string): string {
    if s == "" then Quote("")
    else if IsPlainText(s) then (if IsIndicator(s[0]) then Quote(EscapeQuotes(s)) else s)
    else Quote(Escape(s))
  }

  function EncodeScalar(n: Numbers, v: Scalar): string {
    match v
    case Text(s) => EncodeText(s)
    case Number(m) => n.show(m)
    case Flag(b) => if b then "true" else "false"
  }

  // ---- The round trip ---------------------------------------------------------------------------

  lemma DecodeEscapedChar(c: char, rest: string)
    ensures Decode(EscapeChar(c) + rest) == [c] + Decode(rest)
    ensures IsEscaped(EscapeChar(c) + rest) <==> IsEscaped(rest)
  {
    var s := EscapeChar(c) + rest;
    if |EscapeChar(c)| == 2 {
      assert s[0] == '\\' && s[2..] == rest;
    } else {
      assert s[1..] == rest;
    }
  }

  /** Decoding undoes escaping, for every text. */
  lemma {:induction false} DecodeUndoesEscape(s: string)
    ensures Decode(Escape(s)) == s && IsEscaped(Escape(s))
  {
    if s != "" {
      DecodeUndoesEscape(s[1..]);
      DecodeEscapedChar(s[0], Escape(s[1..]));
    }
  }

  lemma {:induction false} NothingToEscape(s: string)
    requires '"' !in s && '\\' !in s
    ensures EscapeQuotes(s) == s && Decode(s) == s && IsEscaped(s)
  {
    if s != "" {
      NothingToEscape(s[1..]);
    }
  }

  lemma ReadQuoted(n: Numbers, inner: string)
    requires IsEscaped(inner)
    ensures ParseScalar(n, Quote(inner)) == Text(Decode(inner))
  {
    var s := Quote(inner);
    TrimmedStays(s);
    assert s[1..|s| - 1] == inner;
  }

  /** The texts that are not read back as texts: they look like a truth value or an unsigned number. */
  predicate IsMisread(n: Numbers, s: string) {
    s == "true" || s == "false" || ((IsUnsignedInteger(s) || IsUnsignedDecimal(s)) && n.read(s).Some?)
  }

  lemma MisreadIsPlain(s: string)
    requires s == "true" || s == "false" || IsUnsignedInteger(s) || IsUnsignedDecimal(s)
    ensures IsPlainText(s) && !IsIndicator(s[0])
  {
    if IsUnsignedInteger(s) {
      assert forall i :: 0 <= i < |s| ==> IsDigit(s[i]);
    } else if IsUnsignedDecimal(s) {
      var dot :| 0 <= dot < |s| && IsDecimalAt(s, dot);
      forall i | 0 <= i < |s| ensures IsDigit(s[i]) || s[i] == '.' {
        if i < dot {
          assert IsDigit(s[..dot][i]);
        } else if i > dot {
          assert IsDigit(s[dot + 1..][i - dot - 1]);
        }
      }
      assert IsDigit(s[..dot][0]) && IsDigit(s[dot + 1..][|s| - dot - 2]);
    }
  }

  lemma PlainReads(n: Numbers, s: string)
    requires IsPlainText(s) && !IsIndicator(s[0])
    ensures ParseScalar(n, s) == if s == "true" then Flag(true) else if s == "false" then Flag(false)
                                 else if IsMisread(n, s) then Number(n.read(s).value) else Text(s)
  {
    TrimmedStays(s);
    assert s[0] != '"' && s[0] != '\'' && Magnitude(s) == s;
  }

  /** A text is read back as itself exactly if it is not one of the misread ones, and never as another text. */
  lemma TextRoundTrip(n: Numbers, s: string)
    ensures ParseScalar(n, EncodeText(s)) == Text(s) <==> !IsMisread(n, s)
    ensures IsMisread(n, s) ==> !ParseScalar(n, EncodeText(s)).Text?
  {
    if s == "true" || s == "false" || IsUnsignedInteger(s) || IsUnsignedDecimal(s) {
      MisreadIsPlain(s);
    }
    if IsPlainText(s) && !IsIndicator(s[0]) {
      PlainReads(n, s);
    } else if IsPlainText(s) {
      NothingToEscape(s);
      ReadQuoted(n, EscapeQuotes(s));
    } else {
      DecodeUndoesEscape(s);
      ReadQuoted(n, Escape(s));
    }
  }

  /** The number text has no exponent and no sign. */
  predicate IsPlainNumber(s: string) {
    IsUnsignedInteger(s) || IsUnsignedDecimal(s)
  }

  /** Numbers beyond 10^21 and below 10^-6 are printed with an exponent. */
  predicate IsExponential(s: string) {
    s != "" && IsDigit(s[0]) && IsDigit(s[|s| - 1]) && 'e' in s && forall c :: c in s ==> IsDigit(c) || c in {'.', 'e', '+', '-'}
  }

  /** What the language promises of printing a number that is not negative. */
  predicate ShowsWell(n: Numbers, m: real) {
    n.read(n.show(m)) == Some(m) && (IsPlainNumber(n.show(m)) || IsExponential(n.show(m)))
  }

  /** A number is read back exactly if it is printed without an exponent, and otherwise as a text. */
  lemma NumberRoundTrip(n: Numbers, m: real)
    requires ShowsWell(n, m)
    ensures ParseScalar(n, n.show(m)) == if IsPlainNumber(n.show(m)) then Number(m) else Text(n.show(m))
  {
    var s := n.show(m);
    if IsPlainNumber(s) {
      MisreadIsPlain(s);
      PlainReads(n, s);
    } else {
      TrimmedStays(s);
      assert s != "true" && s != "false" && Magnitude(s) == s;
    }
  }

  // ---- Shape of what is written -------------------------------------------------------------------

  lemma {:induction false} EscapeHasNoBreaks(s: string)
    ensures '\n' !in Escape(s) && '\r' !in Escape(s)
  {
    if s != "" {
      EscapeHasNoBreaks(s[1..]);
    }
  }

  /** Fits on a line, and is neither empty nor surrounded by white space. */
  predicate IsWritten(e: string) {
    e != "" && '\n' !in e && '\r' !in e && !IsSpace(e[0]) && !IsSpace(e[|e| - 1])
  }

  lemma QuoteIsWritten(inner: string)
    requires '\n' !in inner && '\r' !in inner
    ensures IsWritten(Quote(inner))
  {
    var q := Quote(inner);
    assert q[0] == '"' && q[|q| - 1] == '"';
  }

  lemma PlainIsWritten(s: string)
    requires IsPlainText(s)
    ensures IsWritten(s)
  {
    forall i | 0 <= i < |s| ensures s[i] != '\n' && s[i] != '\r' {
      assert IsPlainStart(s[i]) || s[i] == ' ';
    }
  }

  lemma EncodedIsWritten(s: string)
    ensures IsWritten(EncodeText(s))
  {
    EscapeHasNoBreaks(s);
    if s == "" {
      QuoteIsWritten("");
    } else if IsPlainText(s) {
      PlainIsWritten(s);
      NothingToEscape(s);
      QuoteIsWritten(s);
    } else {
      QuoteIsWritten(Escape(s));
    }
  }

  lemma NumberIsWritten(n: Numbers, m: real)
    requires ShowsWell(n, m)
    ensures IsWritten(n.show(m))
  {
    if IsPlainNumber(n.show(m)) {
      MisreadIsPlain(n.show(m));
      PlainIsWritten(n.show(m));
    }
  }
}
