/** What each line of a frontmatter block is, and what block the lines of a file make. */
module BlockLaws {
  import opened Prelude
  import opened LessonScalars
  import opened LessonLines
  import opened ScalarLaws

  // ---- One line -----------------------------------------------------------------------------------

  ghost predicate IsKeyWord(s: string) {
    && s != "" && ('A' <= s[0] <= 'Z' || 'a' <= s[0] <= 'z' || s[0] == '_')
    && forall i :: 0 <= i < |s| ==> 'A' <= s[i] <= 'Z' || 'a' <= s[i] <= 'z' || '0' <= s[i] <= '9' || s[i] in "_-"
  }

  /** A key, possibly between white space, a colon and a rest. */
  ghost predicate IsEntry(line: string, before: string, key: string, after: string, rest: string) {
    && line == before + key + after + ":" + rest && line[0] != ' ' && line[0] != '\t'
    && AllSpace(before) && AllSpace(after) && IsKeyWord(key)
  }

  /** What follows the colon of an entry. */
  function RestOf(n: Numbers, rest: string): Rest {
    if Trim(rest) == "" then ListFollows
    else if rest[0] == ' ' then Given(ParseScalar(n, rest[1..]))
    else NoSpace
  }

  lemma KeyWordMeans(s: string)
    ensures IsBareKey(s) <==> IsKeyWord(s)
    ensures IsKeyWord(s) ==> IsTrimmed(s) && ':' !in s
  {
    assert forall i :: 0 <= i < |s| ==> s[i] in s;
    assert forall c :: IsKeyChar(c) <==> 'A' <= c <= 'Z' || 'a' <= c <= 'z' || '0' <= c <= '9' || c in "_-";
    if IsBareKey(s) {
      assert s[|s| - 1] in s;
    }
  }

  lemma EntryIs(n: Numbers, line: string, before: string, key: string, after: string, rest: string)
    requires IsEntry(line, before, key, after, rest)
    ensures Classify(n, line) == Keyed(key, RestOf(n, rest))
  {
    var head := before + key + after;
    KeyWordMeans(key);
    assert ':' !in head;
    IndexBehind(head, ':', rest);
    assert line == head + [':'] + rest;
    assert line[..|head|] == head && line[|head| + 1..] == rest;
    TrimMeans(before, key, after);
    assert ':' in line;
    FenceHasNoColon();
  }

  lemma FenceHasNoColon()
    ensures ':' !in "---"
  {
  }

  ghost predicate HasEntry(line: string) {
    exists before, key, after, rest :: IsEntry(line, before, key, after, rest)
  }

  ghost predicate IsIndented(line: string) {
    line != "" && (line[0] == ' ' || line[0] == '\t')
  }

  lemma KeyedIsEntry(n: Numbers, line: string)
    requires Classify(n, line).Keyed?
    ensures HasEntry(line)
  {
    var colon := IndexOf(line, ':').value;
    var head, rest := line[..colon], line[colon + 1..];
    var before, after := TrimSplits(head);
    KeyWordMeans(Trim(head));
    assert line == head + ":" + rest;
    assert IsEntry(line, before, Trim(head), after, rest);
  }

  /** Every line is a fence, blank, an entry, or broken in one of three ways. */
  lemma LineIs(n: Numbers, line: string)
    ensures Classify(n, line) == Fence <==> line == "---"
    ensures Classify(n, line) == Blank <==> line == ""
    ensures Classify(n, line).Keyed? <==> HasEntry(line)
    ensures Classify(n, line) == Broken(Indented) <==> IsIndented(line)
    ensures Classify(n, line) == Broken(MissingColon) <==> line != "" && line != "---" && !IsIndented(line) && ':' !in line
    ensures Classify(n, line) == Broken(InvalidKey) <==> !IsIndented(line) && ':' in line && !HasEntry(line)
  {
    FenceHasNoColon();
    if HasEntry(line) {
      var before, key, after, rest :| IsEntry(line, before, key, after, rest);
      EntryIs(n, line, before, key, after, rest);
    }
    if Classify(n, line).Keyed? {
      KeyedIsEntry(n, line);
    }
  }

  /** List items are indented by two blanks and marked with a hyphen. */
  lemma ItemIs(n: Numbers, line: string, v: Scalar)
    ensures ItemOf(n, line) == Some(v) <==>
              (line == "  -" && v == Text("")) || exists x :: line == "  - " + x && v == ParseScalar(n, x)
  {
    if |line| >= 4 && line[..4] == "  - " {
      assert line == "  - " + line[4..];
    }
    if exists x :: line == "  - " + x && v == ParseScalar(n, x) {
      var x :| line == "  - " + x && v == ParseScalar(n, x);
      assert line[..4] == "  - " && line[4..] == x;
    }
  }

  // ---- The block ----------------------------------------------------------------------------------

  /** Items are neither fences nor blank nor entries. */
  ghost predicate Separate(r: Reader) {
    && (forall l :: r.item(l).Some? ==> r.classify(l).Broken?)
    && (forall l :: r.classify(l) == Fence <==> l == "---")
  }

  lemma ReadersSeparate(n: Numbers)
    ensures Separate(ReaderOf(n))
  {
    forall l ensures ItemOf(n, l).Some? ==> Classify(n, l).Broken? {
      if ItemOf(n, l).Some? {
        assert l[0] == ' ';
      }
    }
    forall l ensures Classify(n, l) == Fence <==> l == "---" {
      LineIs(n, l);
    }
  }

  ghost predicate IsListHead(r: Reader, line: string) {
    r.classify(line).Keyed? && r.classify(line).rest.ListFollows?
  }

  ghost predicate HasKey(r: Reader, line: string, key: string) {
    r.classify(line).Keyed? && r.classify(line).key == key
  }

  /** Line `i` is an item of the list whose head is line `h`. */
  ghost predicate IsItemOf(r: Reader, lines: seq<string>, h: int, i: int) {
    0 < h < i < |lines| && IsListHead(r, lines[h]) && forall j :: h < j <= i ==> r.item(lines[j]).Some?
  }

  ghost predicate IsItem(r: Reader, lines: seq<string>, i: int) {
    exists h :: IsItemOf(r, lines, h, i)
  }

  ghost predicate IsNewKey(r: Reader, lines: seq<string>, i: int)
    requires 0 < i < |lines|
  {
    r.classify(lines[i]).Keyed? && forall h :: 0 < h < i ==> !HasKey(r, lines[h], r.classify(lines[i]).key)
  }

  /** Line `i` belongs into the block. */
  ghost predicate LineFits(r: Reader, lines: seq<string>, i: int)
    requires 0 < i < |lines|
  {
    || r.classify(lines[i]) == Blank
    || IsItem(r, lines, i)
    || (IsNewKey(r, lines, i) && !r.classify(lines[i]).rest.NoSpace?)
  }

  ghost predicate AllFit(r: Reader, lines: seq<string>, n: nat) {
    n <= |lines| && forall i :: 0 < i < n ==> LineFits(r, lines, i)
  }

  /** `items` are all the items behind the list head `h`. */
  ghost predicate AreItems(r: Reader, lines: seq<string>, h: int, items: seq<Scalar>) {
    && 0 <= h && h + |items| < |lines|
    && (forall j :: 0 <= j < |items| ==> r.item(lines[h + 1 + j]) == Some(items[j]))
    && (h + 1 + |items| < |lines| ==> r.item(lines[h + 1 + |items|]).None?)
  }

  ghost predicate ValueIs(r: Reader, lines: seq<string>, i: int, value: Value)
    requires 0 < i < |lines|
  {
    match r.classify(lines[i])
    case Keyed(_, Given(scalar)) => value == One(scalar)
    case Keyed(_, ListFollows) => value.Many? && AreItems(r, lines, i, value.items)
    case _ => false
  }

  ghost predicate KeysAre(r: Reader, lines: seq<string>, n: nat, fields: map<string, Value>)
    requires n <= |lines|
  {
    forall key :: key in fields <==> exists i :: 0 < i < n && HasKey(r, lines[i], key)
  }

  ghost predicate ValuesAre(r: Reader, lines: seq<string>, n: nat, fields: map<string, Value>)
    requires n <= |lines|
  {
    forall i, key :: 0 < i < n && HasKey(r, lines[i], key) ==> key in fields && ValueIs(r, lines, i, fields[key])
  }

  /** The lines before `n` give these fields. */
  ghost predicate FieldsAre(r: Reader, lines: seq<string>, n: nat, fields: map<string, Value>)
    requires n <= |lines|
  {
    KeysAre(r, lines, n, fields) && ValuesAre(r, lines, n, fields)
  }

  /** Between two fences only lines that fit, and their fields. */
  ghost predicate IsBlock(r: Reader, lines: seq<string>, b: Block) {
    && 2 <= b.bodyStart <= |lines| && lines[0] == "---" && lines[b.bodyStart - 1] == "---"
    && AllFit(r, lines, b.bodyStart - 1) && FieldsAre(r, lines, b.bodyStart - 1, b.fields)
  }

  /** What is wrong with line `i`, the first that does not fit, or with the end of the lines. */
  ghost predicate FaultIs(r: Reader, lines: seq<string>, i: nat, fault: Fault)
    requires 0 < i <= |lines|
  {
    if i == |lines| then fault == MissingClosingFence
    else
      !IsItem(r, lines, i) &&
      match r.classify(lines[i])
      case Broken(found) => fault == found
      case Keyed(key, rest) =>
        if !IsNewKey(r, lines, i) then fault == DuplicateKey else rest.NoSpace? && fault == MissingSpace
      case _ => false
  }

  ghost predicate IsFault(r: Reader, lines: seq<string>, fault: Fault) {
    if lines == [] || lines[0] != "---" then fault == MissingOpeningFence
    else exists i: nat :: 0 < i <= |lines| && AllFit(r, lines, i) && FaultIs(r, lines, i, fault)
  }

  ghost predicate Explains(r: Reader, lines: seq<string>, result: Result<Block, Fault>) {
    match result
    case Ok(b) => IsBlock(r, lines, b)
    case Err(fault) => IsFault(r, lines, fault)
  }

  lemma {:induction false} ItemsTaken(r: Reader, lines: seq<string>, i: nat)
    requires 0 < i <= |lines|
    ensures AreItems(r, lines, i - 1, TakeItems(r, lines, i))
    decreases |lines| - i
  {
    if i < |lines| && r.item(lines[i]).Some? {
      ItemsTaken(r, lines, i + 1);
      var rest := TakeItems(r, lines, i + 1);
      assert TakeItems(r, lines, i) == [r.item(lines[i]).value] + rest;
      assert forall j :: 0 <= j < |rest| ==> r.item(lines[i + 1 + j]) == Some(rest[j]);
    }
  }

  ghost predicate ReadSoFar(r: Reader, lines: seq<string>, i: nat, fields: map<string, Value>) {
    0 < i <= |lines| && lines[0] == "---" && AllFit(r, lines, i) && FieldsAre(r, lines, i, fields) && !IsItem(r, lines, i)
  }

  lemma NoItemBehind(r: Reader, lines: seq<string>, i: nat)
    requires Separate(r) && 0 < i < |lines| && !r.classify(lines[i]).Broken? && !IsListHead(r, lines[i])
    ensures !IsItem(r, lines, i + 1)
  {
  }

  lemma AfterBlank(r: Reader, lines: seq<string>, i: nat, fields: map<string, Value>)
    requires Separate(r) && i < |lines| && ReadSoFar(r, lines, i, fields) && r.classify(lines[i]) == Blank
    ensures ReadSoFar(r, lines, i + 1, fields)
  {
    NoItemBehind(r, lines, i);
    forall key ensures key in fields <==> exists j :: 0 < j < i + 1 && HasKey(r, lines[j], key) {
      assert !HasKey(r, lines[i], key);
    }
  }

  lemma AfterScalar(r: Reader, lines: seq<string>, i: nat, fields: map<string, Value>)
    requires Separate(r) && i < |lines| && ReadSoFar(r, lines, i, fields)
    requires r.classify(lines[i]).Keyed? && r.classify(lines[i]).rest.Given? && r.classify(lines[i]).key !in fields
    ensures ReadSoFar(r, lines, i + 1, fields[r.classify(lines[i]).key := One(r.classify(lines[i]).rest.scalar)])
  {
    NoItemBehind(r, lines, i);
    KeyAdded(r, lines, i, i + 1, fields, One(r.classify(lines[i]).rest.scalar));
    assert IsNewKey(r, lines, i);
  }

  /** An entry and the items behind it add one field. */
  lemma KeyAdded(r: Reader, lines: seq<string>, i: nat, n: nat, fields: map<string, Value>, value: Value)
    requires 0 < i < n <= |lines| && FieldsAre(r, lines, i, fields)
    requires r.classify(lines[i]).Keyed? && r.classify(lines[i]).key !in fields && ValueIs(r, lines, i, value)
    requires forall j :: i < j < n ==> !r.classify(lines[j]).Keyed?
    ensures FieldsAre(r, lines, n, fields[r.classify(lines[i]).key := value])
  {
    var key := r.classify(lines[i]).key;
    var more := fields[key := value];
    assert HasKey(r, lines[i], key);
    forall k ensures k in more <==> exists j :: 0 < j < n && HasKey(r, lines[j], k) {
      if k in more && k != key {
        var j :| 0 < j < i && HasKey(r, lines[j], k);
        assert HasKey(r, lines[j], k);
      }
      if exists j :: 0 < j < n && HasKey(r, lines[j], k) {
        var j :| 0 < j < n && HasKey(r, lines[j], k);
        assert j <= i;
      }
    }
    forall j, k | 0 < j < n && HasKey(r, lines[j], k) ensures k in more && ValueIs(r, lines, j, more[k]) {
      assert j <= i;
      if j < i {
        assert k in fields && ValueIs(r, lines, j, fields[k]);
      }
    }
  }

  lemma AfterList(r: Reader, lines: seq<string>, i: nat, fields: map<string, Value>, items: seq<Scalar>)
    requires Separate(r) && i < |lines| && ReadSoFar(r, lines, i, fields) && AreItems(r, lines, i, items)
    requires IsListHead(r, lines[i]) && r.classify(lines[i]).key !in fields
    ensures ReadSoFar(r, lines, i + 1 + |items|, fields[r.classify(lines[i]).key := Many(items)])
  {
    var n := i + 1 + |items|;
    forall j | i < j < n ensures r.item(lines[j]).Some? {
      assert r.item(lines[i + 1 + (j - i - 1)]) == Some(items[j - i - 1]);
    }
    forall j | i < j < n ensures LineFits(r, lines, j) {
      assert IsItemOf(r, lines, i, j);
    }
    KeyAdded(r, lines, i, n, fields, Many(items));
    assert IsNewKey(r, lines, i);
  }

  lemma {:induction false} ParseFromMeans(r: Reader, lines: seq<string>, i: nat, fields: map<string, Value>)
    requires Separate(r) && ReadSoFar(r, lines, i, fields)
    ensures Explains(r, lines, ParseFrom(r, lines, i, fields))
    decreases |lines| - i
  {
    if i == |lines| {
      assert FaultIs(r, lines, i, MissingClosingFence);
    } else {
      match r.classify(lines[i])
      case Fence =>
      case Blank =>
        AfterBlank(r, lines, i, fields);
        ParseFromMeans(r, lines, i + 1, fields);
      case Broken(fault) =>
        assert FaultIs(r, lines, i, fault);
      case Keyed(key, rest) =>
        if key in fields {
          var h :| 0 < h < i && HasKey(r, lines[h], key);
          assert !IsNewKey(r, lines, i);
          assert FaultIs(r, lines, i, DuplicateKey);
        } else {
          match rest
          case ListFollows =>
            var items := TakeItems(r, lines, i + 1);
            ItemsTaken(r, lines, i + 1);
            AfterList(r, lines, i, fields, items);
            ParseFromMeans(r, lines, i + 1 + |items|, fields[key := Many(items)]);
          case NoSpace =>
            assert IsNewKey(r, lines, i);
            assert FaultIs(r, lines, i, MissingSpace);
          case Given(scalar) =>
            AfterScalar(r, lines, i, fields);
            ParseFromMeans(r, lines, i + 1, fields[key := One(scalar)]);
        }
    }
  }

  /**
   * The block of the lines: between two fences only blank lines, entries with new keys and list items right behind
   * their head, every key with its scalar or all its items; or the first line that breaks this, and how.
   */
  lemma LinesMean(n: Numbers, lines: seq<string>)
    requires lines != []
    ensures Explains(ReaderOf(n), lines, ParseLines(ReaderOf(n), lines))
  {
    var r := ReaderOf(n);
    ReadersSeparate(n);
    if lines[0] == "---" {
      ParseFromMeans(r, lines, 1, map[]);
    }
  }

  /** Lines make at most one block, and none if they have a fault. */
  lemma BlockIsUnique(r: Reader, lines: seq<string>, b: Block, c: Block)
    requires Separate(r) && IsBlock(r, lines, b) && IsBlock(r, lines, c)
    ensures b == c
  {
    FenceFitsNowhere(r, lines, b.bodyStart - 1);
    FenceFitsNowhere(r, lines, c.bodyStart - 1);
    assert b.bodyStart == c.bodyStart;
    forall key | key in b.fields ensures key in c.fields && b.fields[key] == c.fields[key] {
      var i :| 0 < i < b.bodyStart - 1 && HasKey(r, lines[i], key);
      SameValue(r, lines, i, b.fields[key], c.fields[key]);
    }
  }

  lemma FenceFitsNowhere(r: Reader, lines: seq<string>, i: int)
    requires Separate(r) && 0 < i < |lines| && lines[i] == "---"
    ensures !LineFits(r, lines, i)
  {
  }

  lemma NotShorter(r: Reader, lines: seq<string>, h: int, xs: seq<Scalar>, ys: seq<Scalar>)
    requires AreItems(r, lines, h, xs) && AreItems(r, lines, h, ys)
    ensures |ys| <= |xs|
  {
    if |xs| < |ys| {
      ItemAt(r, lines, h, ys, |xs|);
    }
  }

  lemma ItemAt(r: Reader, lines: seq<string>, h: int, items: seq<Scalar>, j: nat)
    requires AreItems(r, lines, h, items) && j < |items|
    ensures r.item(lines[h + 1 + j]).Some?
  {
    assert r.item(lines[h + 1 + j]) == Some(items[j]);
  }

  lemma SameValue(r: Reader, lines: seq<string>, i: int, v: Value, w: Value)
    requires 0 < i < |lines| && ValueIs(r, lines, i, v) && ValueIs(r, lines, i, w)
    ensures v == w
  {
    if v.Many? {
      NotShorter(r, lines, i, v.items, w.items);
      NotShorter(r, lines, i, w.items, v.items);
      forall j | 0 <= j < |v.items| ensures v.items[j] == w.items[j] {
        assert r.item(lines[i + 1 + j]) == Some(v.items[j]);
      }
    }
  }
}
