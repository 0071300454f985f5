/** The textual identifier of a valuation, and why two valuations of one spec never share it. */
module StateIds {
  import opened Decimal
  import opened Ordering
  import opened Syntax

  /** JSON string text; control characters, which no token contains, are left as they are. */
  function EscapeJson(s: string): string {
    if s == "" then ""
    else (if s[0] == '"' then "\\\"" else if s[0] == '\\' then "\\\\" else [s[0]]) + EscapeJson(s[1..])
  }

  function NumberText(n: int): string {
    if n < 0 then "-" + Digits(-n) else Digits(n)
  }

  function Json(p: Prim): string {
    match p
    case Str(s) => "\"" + EscapeJson(s) + "\""
    case Num(n) => NumberText(n)
    case Bool(b) => if b then "true" else "false"
  }

  /** `k=<json>` for each key in order, joined with `|`. */
  function Parts(keys: seq<string>, v: Valuation): string
    requires forall k :: k in keys ==> k in v
  {
    if keys == [] then ""
    else
      var part := keys[0] + "=" + Json(v[keys[0]]);
      if |keys| == 1 then part else part + "|" + Parts(keys[1..], v)
  }

  function StateId(v: Valuation): string {
    Parts(SortedSet(v.Keys), v)
  }

  // ---- Injectivity -----------------------------------------------------------------

  /** What may follow a value: nothing, or the separator. */
  predicate Ends(r: string) {
    r == "" || r[0] == '|'
  }

  lemma {:induction false} EscapeUnique(s: string, r: string, t: string, q: string)
    requires EscapeJson(s) + "\"" + r == EscapeJson(t) + "\"" + q
    ensures s == t && r == q
  {
    var left, right := EscapeJson(s) + "\"" + r, EscapeJson(t) + "\"" + q;
    assert s != "" ==> left[0] == if s[0] == '"' || s[0] == '\\' then '\\' else s[0];
    assert t != "" ==> right[0] == if t[0] == '"' || t[0] == '\\' then '\\' else t[0];
    if s == "" || t == "" {
      assert left[0] == '"' && s == t;
      assert left[1..] == r && right[1..] == q;
    } else {
      var n := if s[0] == '"' || s[0] == '\\' then 2 else 1;
      assert n == 2 ==> left[1] == s[0] && right[1] == t[0];
      assert left[n..] == EscapeJson(s[1..]) + "\"" + r;
      assert right[n..] == EscapeJson(t[1..]) + "\"" + q;
      EscapeUnique(s[1..], r, t[1..], q);
      assert s == [s[0]] + s[1..] && t == [t[0]] + t[1..];
    }
  }

  lemma NoShorter(a: string, r: string, b: string, q: string)
    requires AllDigits(b) && Ends(r) && a + r == b + q
    ensures |b| <= |a|
  {
    assert forall i :: 0 <= i < |b| ==> IsDigit((b + q)[i]);
    assert r != "" ==> (a + r)[|a|] == '|';
  }

  lemma DigitsUnique(m: nat, r: string, n: nat, q: string)
    requires Ends(r) && Ends(q) && Digits(m) + r == Digits(n) + q
    ensures m == n && r == q
  {
    var a, b := Digits(m), Digits(n);
    NoShorter(a, r, b, q);
    NoShorter(b, q, a, r);
    SplitAt(a, r, b, q);
    DigitsRoundTrip(m);
    DigitsRoundTrip(n);
  }

  lemma SplitAt(a: string, r: string, b: string, q: string)
    requires a + r == b + q && |a| == |b|
    ensures a == b && r == q
  {
    assert a == (a + r)[..|a|] && b == (b + q)[..|a|];
    assert r == (a + r)[|a|..] && q == (b + q)[|a|..];
  }

  /** The first character tells the kind of the value. */
  lemma JsonStart(a: Prim)
    ensures Json(a) != ""
    ensures a.Str? <==> Json(a)[0] == '"'
    ensures a.Bool? <==> Json(a)[0] == 't' || Json(a)[0] == 'f'
    ensures a.Num? && a.n < 0 <==> Json(a)[0] == '-'
  {
    if a.Num? && a.n >= 0 {
      assert IsDigit(Digits(a.n)[0]);
    }
  }

  lemma Regroup(a: string, b: string, c: string)
    ensures (a + b) + c == a + (b + c)
  {
  }

  lemma TextShape(s: string, r: string)
    ensures Json(Str(s)) + r == "\"" + (EscapeJson(s) + "\"" + r)
  {
    var e := EscapeJson(s);
    Regroup("\"", e, "\"");
    Regroup("\"", e + "\"", r);
  }

  lemma TextUnique(s: string, r: string, t: string, q: string)
    requires Json(Str(s)) + r == Json(Str(t)) + q
    ensures s == t && r == q
  {
    TextShape(s, r);
    TextShape(t, q);
    SplitAt("\"", EscapeJson(s) + "\"" + r, "\"", EscapeJson(t) + "\"" + q);
    EscapeUnique(s, r, t, q);
  }

  lemma NumberUnique(m: int, r: string, n: int, q: string)
    requires Ends(r) && Ends(q) && (m < 0 <==> n < 0) && NumberText(m) + r == NumberText(n) + q
    ensures m == n && r == q
  {
    if m < 0 {
      Regroup("-", Digits(-m), r);
      Regroup("-", Digits(-n), q);
      SplitAt("-", Digits(-m) + r, "-", Digits(-n) + q);
      DigitsUnique(-m, r, -n, q);
    } else {
      DigitsUnique(m, r, n, q);
    }
  }

  lemma JsonUnique(a: Prim, r: string, b: Prim, q: string)
    requires Ends(r) && Ends(q) && Json(a) + r == Json(b) + q
    ensures a == b && r == q
  {
    JsonStart(a);
    JsonStart(b);
    assert Json(a)[0] == (Json(a) + r)[0] == (Json(b) + q)[0] == Json(b)[0];
    if a.Str? {
      TextUnique(a.s, r, b.s, q);
    } else if a.Bool? {
      TruthUnique(a.b, r, b.b, q);
    } else {
      NumberUnique(a.n, r, b.n, q);
    }
  }

  lemma TruthUnique(x: bool, r: string, y: bool, q: string)
    requires Json(Bool(x)) + r == Json(Bool(y)) + q
    ensures x == y && r == q
  {
    assert (Json(Bool(x)) + r)[0] == (if x then 't' else 'f');
    assert (Json(Bool(y)) + q)[0] == (if y then 't' else 'f');
    SplitAt(Json(Bool(x)), r, Json(Bool(y)), q);
  }

  function Rest(keys: seq<string>, v: Valuation): string
    requires keys != [] && forall k :: k in keys ==> k in v
  {
    if |keys| == 1 then "" else "|" + Parts(keys[1..], v)
  }

  lemma PartsHead(keys: seq<string>, v: Valuation)
    requires keys != [] && forall k :: k in keys ==> k in v
    ensures Parts(keys, v) == (keys[0] + "=") + (Json(v[keys[0]]) + Rest(keys, v))
  {
  }

  lemma {:induction false} PartsUnique(keys: seq<string>, v: Valuation, w: Valuation)
    requires forall k :: k in keys ==> k in v && k in w
    requires Parts(keys, v) == Parts(keys, w)
    ensures forall k :: k in keys ==> v[k] == w[k]
  {
    if keys != [] {
      var k := keys[0];
      PartsHead(keys, v);
      PartsHead(keys, w);
      SplitAt(k + "=", Json(v[k]) + Rest(keys, v), k + "=", Json(w[k]) + Rest(keys, w));
      JsonUnique(v[k], Rest(keys, v), w[k], Rest(keys, w));
      if |keys| > 1 {
        SplitAt("|", Parts(keys[1..], v), "|", Parts(keys[1..], w));
        PartsUnique(keys[1..], v, w);
      }
      assert forall x :: x in keys ==> x == k || x in keys[1..];
    }
  }

  /** Valuations of the same variables with the same identifier are the same valuation. */
  lemma StateIdInjective(v: Valuation, w: Valuation)
    requires v.Keys == w.Keys && StateId(v) == StateId(w)
    ensures v == w
  {
    PartsUnique(SortedSet(v.Keys), v, w);
    forall k | k in v
      ensures v[k] == w[k]
    {
      assert k in SortedSet(v.Keys);
    }
  }

  // ---- The text of an identifier ---------------------------------------------------------------

  lemma {:induction false} PartsWithout(keys: seq<string>, v: Valuation, k: string)
    requires (forall x :: x in keys ==> x in v) && k !in keys
    ensures Parts(keys, v) == Parts(keys, v - {k})
  {
    if keys != [] {
      assert keys[0] in keys && (v - {k})[keys[0]] == v[keys[0]];
      PartsWithout(keys[1..], v, k);
    }
  }

  ghost predicate IsLeastKey(k: string, v: Valuation) {
    k in v && forall j :: j in v ==> Leq(k, j)
  }

  lemma SortedKeys(v: Valuation, k: string)
    requires IsLeastKey(k, v)
    ensures SortedSet(v.Keys) == [k] + SortedSet((v - {k}).Keys)
  {
    var rest := SortedSet((v - {k}).Keys);
    forall x | x in rest ensures Less(k, x) {
      assert x in v && x != k;
    }
    assert StrictlySorted([k] + rest);
    StrictlySortedUnique(SortedSet(v.Keys), [k] + rest);
  }

  lemma PartsFirst(k: string, rest: seq<string>, v: Valuation)
    requires k in v && forall x :: x in rest ==> x in v
    ensures Parts([k] + rest, v) == k + "=" + Json(v[k]) + (if rest == [] then "" else "|" + Parts(rest, v))
  {
    assert ([k] + rest)[1..] == rest;
  }

  lemma OthersRemain(v: Valuation, k: string)
    requires k in v
    ensures SortedSet((v - {k}).Keys) == [] <==> v.Keys == {k}
  {
    if v.Keys == {k} {
      assert (v - {k}).Keys == {};
    } else {
      var x :| x in v && x != k;
      assert x in (v - {k}).Keys;
    }
  }

  /** The identifier gives the least key with its value first, and then that of the other keys. */
  lemma IdStartsWithLeast(v: Valuation, k: string)
    requires IsLeastKey(k, v)
    ensures StateId(v) == k + "=" + Json(v[k]) + (if v.Keys == {k} then "" else "|" + StateId(v - {k}))
  {
    var rest := SortedSet((v - {k}).Keys);
    SortedKeys(v, k);
    PartsFirst(k, rest, v);
    OthersRemain(v, k);
    PartsWithout(rest, v, k);
  }

  /** Values are written in JSON. */
  lemma JsonIs(s: string, n: int)
    requires n >= 0
    ensures '"' !in s && '\\' !in s ==> Json(Str(s)) == "\"" + s + "\""
    ensures Json(Str("\"")) == "\"\\\"\"" && Json(Str("\\")) == "\"\\\\\""
    ensures Json(Bool(true)) == "true" && Json(Bool(false)) == "false"
    ensures AllDigits(Json(Num(n))) && DigitsValue(Json(Num(n))) == n && (n > 0 ==> Json(Num(-n)) == "-" + Json(Num(n)))
  {
    if '"' !in s && '\\' !in s {
      NothingEscaped(s);
    }
    DigitsRoundTrip(n);
    assert EscapeJson("\"") == "\\\"" + EscapeJson("") && EscapeJson("\\") == "\\\\" + EscapeJson("");
  }

  lemma {:induction false} NothingEscaped(s: string)
    requires '"' !in s && '\\' !in s
    ensures EscapeJson(s) == s
  {
    if s != "" {
      NothingEscaped(s[1..]);
    }
  }
}
