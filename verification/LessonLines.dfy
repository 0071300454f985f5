/** Text as lines, and the frontmatter block: what is written and what a reader takes from it. */
module LessonLines {
  import opened Prelude
  import opened LessonScalars

  const FENCE := "---"

  // ---- Lines ----------------------------------------------------------------------------

  function IndexOf(s: string, c: char): (r: Option<nat>)
    ensures r.Some? ==> r.value < |s| && s[r.value] == c && c !in s[..r.value]
    ensures r.None? ==> c !in s
  {
    if s == "" then None
    else if s[0] == c then Some(0)
    else
      match IndexOf(s[1..], c)
      case None => None
      case Some(k) =>
        assert s[..k + 1] == [s[0]] + s[1..][..k];
        Some(k + 1)
  }

  function Split(text: string): (r: seq<string>)
    ensures r != []
    decreases |text|
  {
    match IndexOf(text, '\n')
    case None => [text]
    case Some(k) => [text[..k]] + Split(text[k + 1..])
  }

  function Join(lines: seq<string>): string {
    if lines == [] then ""
    else if |lines| == 1 then lines[0]
    else lines[0] + "\n" + Join(lines[1..])
  }

  /** Every line with its end. */
  function Unlines(lines: seq<string>): string {
    if lines == [] then "" else lines[0] + "\n" + Unlines(lines[1..])
  }

  lemma {:induction false} JoinUndoesSplit(text: string)
    ensures Join(Split(text)) == text
    decreases |text|
  {
    var k := IndexOf(text, '\n');
    if k.Some? {
      JoinUndoesSplit(text[k.value + 1..]);
      assert text == text[..k.value] + "\n" + text[k.value + 1..];
    }
  }

  lemma {:induction false} IndexBehind(line: string, c: char, rest: string)
    requires c !in line
    ensures IndexOf(line + [c] + rest, c) == Some(|line|)
  {
    if line != "" {
      IndexBehind(line[1..], c, rest);
      assert (line + [c] + rest)[1..] == line[1..] + [c] + rest;
    }
  }

  lemma SplitLine(line: string, rest: string)
    requires '\n' !in line
    ensures Split(line + "\n" + rest) == [line] + Split(rest)
  {
    var text := line + "\n" + rest;
    IndexBehind(line, '\n', rest);
    assert text[..|line|] == line && text[|line| + 1..] == rest;
  }

  function Ended(line: string, tail: string): string {
    line + "\n" + tail
  }

  /** `split` takes one line off. */
  ghost predicate TakesLines(split: string -> seq<string>) {
    forall line, tail :: '\n' !in line ==> split(Ended(line, tail)) == [line] + split(tail)
  }

  lemma {:induction false} UnlinesTaken(split: string -> seq<string>, lines: seq<string>, body: string)
    requires TakesLines(split) && forall l :: l in lines ==> '\n' !in l
    ensures split(Unlines(lines) + body) == lines + split(body)
  {
    if lines == [] {
      assert Unlines(lines) + body == body;
    } else {
      var rest := lines[1..];
      UnlinesTaken(split, rest, body);
      assert Unlines(lines) + body == Ended(lines[0], Unlines(rest) + body);
      assert lines == [lines[0]] + rest;
    }
  }

  lemma SplitUnlines(lines: seq<string>, body: string)
    requires forall l :: l in lines ==> '\n' !in l
    ensures Split(Unlines(lines) + body) == lines + Split(body)
  {
    forall line, tail | '\n' !in line ensures Split(Ended(line, tail)) == [line] + Split(tail) {
      SplitLine(line, tail);
    }
    UnlinesTaken(Split, lines, body);
  }

  lemma {:induction false} JoinLast(lines: seq<string>)
    ensures Join(lines + [""]) == Unlines(lines)
  {
    if lines != [] {
      JoinLast(lines[1..]);
      assert (lines + [""])[1..] == lines[1..] + [""];
    }
  }

  // ---- One line ----------------------------------------------------------------------------

  datatype Fault =
    | CarriageReturn
    | MissingOpeningFence
    | Indented
    | MissingColon
    | InvalidKey
    | DuplicateKey
    | MissingSpace
    | MissingClosingFence
    | MissingField
    | WrongType
    | UnsupportedSchema
    | InvariantBroken

  datatype Rest = ListFollows | Given(scalar: Scalar) | NoSpace

  datatype Line = Fence | Blank | Broken(fault: Fault) | Keyed(key: string, rest: Rest)

  predicate IsKeyStart(c: char) {
    'A' <= c <= 'Z' || 'a' <= c <= 'z' || c == '_'
  }

  predicate IsKeyChar(c: char) {
    IsKeyStart(c) || '0' <= c <= '9' || c == '-'
  }

  predicate IsBareKey(s: string) {
    s != "" && IsKeyStart(s[0]) && forall c :: c in s ==> IsKeyChar(c)
  }

  function Classify(n: Numbers, line: string): Line {
    if line == FENCE then Fence
    else if line == "" then Blank
    else if line[0] == ' ' || line[0] == '\t' then Broken(Indented)
    else
      match IndexOf(line, ':')
      case None => Broken(MissingColon)
      case Some(colon) =>
        var key := Trim(line[..colon]);
        var remainder := line[colon + 1..];
        if !IsBareKey(key) then Broken(InvalidKey)
        else if Trim(remainder) == "" then Keyed(key, ListFollows)
        else if remainder[0] != ' ' then Keyed(key, NoSpace)
        else Keyed(key, Given(ParseScalar(n, remainder[1..])))
  }

  function ItemOf(n: Numbers, line: string): Option<Scalar> {
    if |line| >= 4 && line[..4] == "  - " then Some(ParseScalar(n, line[4..]))
    else if line == "  -" then Some(Text(""))
    else None
  }

  // ---- The block ------------------------------------------------------------------------------

  datatype Value = One(scalar: Scalar) | Many(items: seq<Scalar>)

  datatype Block = Block(fields: map<string, Value>, bodyStart: nat)

  /** How lines are read: `Classify` and `ItemOf`. */
  datatype Reader = Reader(classify: string -> Line, item: string -> Option<Scalar>)

  function ReaderOf(n: Numbers): Reader {
    Reader(line => Classify(n, line), line => ItemOf(n, line))
  }

  /** The list items from line `i` on. */
  function TakeItems(r: Reader, lines: seq<string>, i: nat): (items: seq<Scalar>)
    requires i <= |lines|
    ensures i + |items| <= |lines|
    decreases |lines| - i
  {
    if i < |lines| && r.item(lines[i]).Some? then [r.item(lines[i]).value] + TakeItems(r, lines, i + 1) else []
  }

  /** The block from line `i` on, given the fields read before. */
  function ParseFrom(r: Reader, lines: seq<string>, i: nat, fields: map<string, Value>): Result<Block, Fault>
    requires i <= |lines|
    decreases |lines| - i
  {
    if i == |lines| then Err(MissingClosingFence)
    else
      match r.classify(lines[i])
      case Fence => Ok(Block(fields, i + 1))
      case Blank => ParseFrom(r, lines, i + 1, fields)
      case Broken(fault) => Err(fault)
      case Keyed(key, rest) =>
        if key in fields then Err(DuplicateKey)
        else
          match rest
          case ListFollows =>
            var items := TakeItems(r, lines, i + 1);
            ParseFrom(r, lines, i + 1 + |items|, fields[key := Many(items)])
          case NoSpace => Err(MissingSpace)
          case Given(scalar) => ParseFrom(r, lines, i + 1, fields[key := One(scalar)])
  }

  function ParseLines(r: Reader, lines: seq<string>): Result<Block, Fault>
    requires lines != []
  {
    if lines[0] != FENCE then Err(MissingOpeningFence) else ParseFrom(r, lines, 1, map[])
  }

  function SplitLines(text: string): Result<seq<string>, Fault> {
    if '\r' in text then Err(CarriageReturn) else Ok(Split(text))
  }

  /** The parser as a walk over the lines. */
  method WalkLines(reader: Reader, lines: seq<string>) returns (r: Result<Block, Fault>)
    requires lines != []
    ensures r == ParseLines(reader, lines)
  {
    if lines[0] != FENCE {
      return Err(MissingOpeningFence);
    }
    var fields: map<string, Value> := map[];
    var i := 1;
    while i < |lines|
      invariant 1 <= i <= |lines|
      invariant ParseLines(reader, lines) == ParseFrom(reader, lines, i, fields)
    {
      var line := reader.classify(lines[i]);
      match line {
        case Fence =>
          return Ok(Block(fields, i + 1));
        case Blank =>
          i := i + 1;
        case Broken(fault) =>
          return Err(fault);
        case Keyed(key, rest) =>
          if key in fields {
            return Err(DuplicateKey);
          }
          match rest {
            case ListFollows =>
              var items: seq<Scalar> := [];
              i := i + 1;
              ghost var start := i;
              while i < |lines| && reader.item(lines[i]).Some?
                invariant start <= i <= |lines| && |items| == i - start
                invariant items + TakeItems(reader, lines, i) == TakeItems(reader, lines, start)
                decreases |lines| - i
              {
                items := items + [reader.item(lines[i]).value];
                i := i + 1;
              }
              assert items + [] == items;
              fields := fields[key := Many(items)];
            case NoSpace =>
              return Err(MissingSpace);
            case Given(scalar) =>
              fields := fields[key := One(scalar)];
              i := i + 1;
          }
      }
    }
    return Err(MissingClosingFence);
  }

  method ParseBlock(n: Numbers, text: string) returns (r: Result<Block, Fault>)
    ensures r == if '\r' in text then Err(CarriageReturn) else ParseLines(ReaderOf(n), Split(text))
  {
    if '\r' in text {
      return Err(CarriageReturn);
    }
    r := WalkLines(ReaderOf(n), Split(text));
  }
}
