/** JavaScript values as JSON sees them, the order JavaScript gives to object keys, and JSON text as tokens. */
module Json {
  import opened Arith
  import opened Chunks

  datatype Json =
    | Undefined
    | Null
    | Bool(b: bool)
    | Num(x: real)
    | Str(s: string)
    | Arr(items: seq<Json>)
    | Obj(fields: seq<Field>)

  datatype Field = Field(key: string, value: Json)

  // ----- key order -----

  /** Lexicographic order by code unit, what Array.prototype.sort does with strings. */
  predicate Lex(a: string, b: string)
    decreases |a|
  {
    if b == "" then false
    else if a == "" then true
    else a[0] < b[0] || (a[0] == b[0] && Lex(a[1..], b[1..]))
  }

  /** An array index in canonical form; objects list such keys first, in numeric order. */
  predicate IsIndex(s: string) {
    && 0 < |s| <= 10
    && (forall c :: c in s ==> '0' <= c <= '9')
    && (|s| > 1 ==> s[0] != '0')
    && (|s| == 10 ==> Lex(s, "4294967295"))
  }

  /** The order in which an object filled in sorted order lists its keys. */
  predicate Before(a: string, b: string) {
    if IsIndex(a) then !IsIndex(b) || |a| < |b| || (|a| == |b| && Lex(a, b))
    else !IsIndex(b) && Lex(a, b)
  }

  lemma {:induction false} LexTotal(a: string, b: string)
    ensures Lex(a, b) || Lex(b, a) || a == b
    decreases |a|
  {
    if a != "" && b != "" && a[0] == b[0] {
      LexTotal(a[1..], b[1..]);
      assert a == [a[0]] + a[1..] && b == [b[0]] + b[1..];
    }
  }

  lemma {:induction false} LexTransitive(a: string, b: string, c: string)
    requires Lex(a, b) && Lex(b, c)
    ensures Lex(a, c)
    decreases |a|
  {
    if a != "" && a[0] == b[0] && b[0] == c[0] {
      LexTransitive(a[1..], b[1..], c[1..]);
    }
  }

  lemma {:induction false} LexIrreflexive(a: string)
    ensures !Lex(a, a)
    decreases |a|
  {
    if a != "" {
      LexIrreflexive(a[1..]);
    }
  }

  /** The first place where two strings differ decides, or that one of them ends there. */
  lemma {:induction false} LexIs(a: string, b: string)
    ensures Lex(a, b) <==> exists n :: 0 <= n <= |a| && n < |b| && a[..n] == b[..n] && (n == |a| || a[n] < b[n])
    decreases |a|
  {
    if a == "" || b == "" || a[0] != b[0] {
      FirstCharDecides(a, b);
    } else {
      var x, y := a[1..], b[1..];
      LexIs(x, y);
      if n :| 0 <= n <= |x| && n < |y| && x[..n] == y[..n] && (n == |x| || x[n] < y[n]) {
        assert a[..n + 1] == [a[0]] + x[..n] && b[..n + 1] == [b[0]] + y[..n];
      }
      if n :| 0 <= n <= |a| && n < |b| && a[..n] == b[..n] && (n == |a| || a[n] < b[n]) {
        assert x[..n - 1] == a[..n][1..] && y[..n - 1] == b[..n][1..];
      }
    }
  }

  lemma FirstCharDecides(a: string, b: string)
    requires a == "" || b == "" || a[0] != b[0]
    ensures Lex(a, b) <==> exists n :: 0 <= n <= |a| && n < |b| && a[..n] == b[..n] && (n == |a| || a[n] < b[n])
  {
    assert a[..0] == b[..0];
    forall n | 0 < n <= |a| && n <= |b| ensures a[..n] != b[..n] {
      assert a[..n][0] == a[0] && b[..n][0] == b[0];
    }
  }

  // ----- array indices -----

  function Power10(n: nat): (r: nat)
    ensures r > 0
  {
    if n == 0 then 1 else 10 * Power10(n - 1)
  }

  predicate Digits(s: string) {
    forall c :: c in s ==> '0' <= c <= '9'
  }

  function Number(s: string): nat
    requires Digits(s)
  {
    if s == "" then 0
    else
      assert s[0] in s && forall c :: c in s[1..] ==> c in s;
      (s[0] - '0') as nat * Power10(|s| - 1) + Number(s[1..])
  }

  lemma {:induction false} NumberBelow(s: string)
    requires Digits(s)
    ensures Number(s) < Power10(|s|)
    decreases |s|
  {
    if s != "" {
      assert s[0] in s && forall c :: c in s[1..] ==> c in s;
      NumberBelow(s[1..]);
      var d, p := (s[0] - '0') as nat, Power10(|s| - 1);
      Distribute(10, d, p);
      Sign(10 - d, p);
    }
  }

  /** Among numerals of one length the order of strings is that of numbers. */
  lemma {:induction false} LexIsNumeric(a: string, b: string)
    requires Digits(a) && Digits(b) && |a| == |b|
    ensures Lex(a, b) <==> Number(a) < Number(b)
    decreases |a|
  {
    if a != "" {
      var x, y := a[1..], b[1..];
      assert a[0] in a && b[0] in b && (forall c :: c in x ==> c in a) && (forall c :: c in y ==> c in b);
      LexIsNumeric(x, y);
      NumberBelow(x);
      NumberBelow(y);
      FirstDigit((a[0] - '0') as nat, (b[0] - '0') as nat, Power10(|x|), Number(x), Number(y));
    }
  }

  lemma FirstDigit(d: nat, e: nat, p: nat, v: nat, w: nat)
    requires v < p && w < p
    ensures d * p + v < e * p + w <==> d < e || (d == e && v < w)
  {
    Distribute(e, d, p);
    Sign(e - d, p);
  }

  /** No leading zero, so a longer numeral is a larger number. */
  lemma ShorterIsLess(a: string, b: string)
    requires Digits(a) && Digits(b) && 0 < |a| < |b| && b[0] != '0'
    ensures Number(a) < Number(b)
  {
    NumberBelow(a);
    PowerGrows(|a|, |b| - 1);
    assert b[0] in b && forall c :: c in b[1..] ==> c in b;
    Sign((b[0] - '0') as nat, Power10(|b| - 1));
    hide Power10;
  }

  lemma {:induction false} PowerGrows(a: nat, b: nat)
    requires a <= b
    ensures Power10(a) <= Power10(b)
    decreases b
  {
    if a < b {
      PowerGrows(a, b - 1);
    }
  }

  /** An array index is a numeral without leading zero, below 2^32 - 1. */
  lemma IndexIs(s: string)
    requires Digits(s) && s != "" && (|s| > 1 ==> s[0] != '0')
    ensures IsIndex(s) <==> Number(s) < 4_294_967_295
  {
    var max := "4294967295";
    MaxIndex();
    hide Number, Lex;
    if |s| < 10 {
      ShorterIsLess(s, max);
    } else if |s| == 10 {
      LexIsNumeric(s, max);
    } else {
      ShorterIsLess(max, s);
    }
  }

  lemma MaxIndex()
    ensures Digits("4294967295") && Number("4294967295") == 4_294_967_295
  {
    assert Power10(5) == 100_000;
    hide Number, Digits, Power10;
    FiveDigits('4', '2', '9', '4', '9');
    FiveDigits('6', '7', '2', '9', '5');
    NumberJoins(['4', '2', '9', '4', '9'], ['6', '7', '2', '9', '5']);
    assert ['4', '2', '9', '4', '9'] + ['6', '7', '2', '9', '5'] == "4294967295";
  }

  lemma FiveDigits(a: char, b: char, c: char, d: char, e: char)
    requires '0' <= a <= '9' && '0' <= b <= '9' && '0' <= c <= '9' && '0' <= d <= '9' && '0' <= e <= '9'
    ensures Digits([a, b, c, d, e])
    ensures Number([a, b, c, d, e]) ==
            (a - '0') as nat * 10_000 + (b - '0') as nat * 1_000 + (c - '0') as nat * 100 + (d - '0') as nat * 10 + (e - '0') as nat
  {
    assert Power10(0) == 1 && Power10(1) == 10 && Power10(2) == 100 && Power10(3) == 1_000 && Power10(4) == 10_000;
    assert Digits("") && Number("") == 0;
    hide Number, Digits, Power10;
    NumberCons(e, "");
    NumberCons(d, [e]);
    NumberCons(c, [d, e]);
    NumberCons(b, [c, d, e]);
    NumberCons(a, [b, c, d, e]);
    assert [e] + "" == [e] && [d] + [e] == [d, e] && [c] + [d, e] == [c, d, e] && [b] + [c, d, e] == [b, c, d, e];
    assert [a] + [b, c, d, e] == [a, b, c, d, e];
  }

  lemma NumberCons(c: char, s: string)
    requires '0' <= c <= '9' && Digits(s)
    ensures Digits([c] + s) && Number([c] + s) == (c - '0') as nat * Power10(|s|) + Number(s)
  {
    assert ([c] + s)[1..] == s;
  }

  lemma {:induction false} NumberJoins(a: string, b: string)
    requires Digits(a) && Digits(b)
    ensures Digits(a + b) && Number(a + b) == Number(a) * Power10(|b|) + Number(b)
    decreases |a|
  {
    if a == "" {
      assert a + b == b;
    } else {
      assert a[0] in a && forall c :: c in a[1..] ==> c in a;
      NumberJoins(a[1..], b);
      assert (a + b)[1..] == a[1..] + b;
      var d := (a[0] - '0') as nat;
      PowerJoins(|a| - 1, |b|);
      Regroup(d, Power10(|a| - 1), Power10(|b|), Number(a[1..]));
    }
  }

  lemma Regroup(d: int, p: int, q: int, v: int)
    ensures (d * p + v) * q == d * (p * q) + v * q
  {
  }

  lemma {:induction false} PowerJoins(a: nat, b: nat)
    ensures Power10(a + b) == Power10(a) * Power10(b)
  {
    if a > 0 {
      PowerJoins(a - 1, b);
    }
  }

  /** Indices come first, by number; other keys follow, by code unit. */
  lemma BeforeIs(a: string, b: string)
    ensures IsIndex(a) && IsIndex(b) ==> (Before(a, b) <==> Number(a) < Number(b))
    ensures IsIndex(a) && !IsIndex(b) ==> Before(a, b) && !Before(b, a)
    ensures !IsIndex(a) && !IsIndex(b) ==> (Before(a, b) <==> Lex(a, b))
  {
    if IsIndex(a) && IsIndex(b) {
      if |a| == |b| {
        LexIsNumeric(a, b);
      } else if |a| < |b| {
        ShorterIsLess(a, b);
      } else {
        ShorterIsLess(b, a);
      }
    }
  }

  lemma BeforeTotal(a: string, b: string)
    ensures Before(a, b) || Before(b, a) || a == b
  {
    LexTotal(a, b);
  }

  lemma BeforeTransitive(a: string, b: string, c: string)
    requires Before(a, b) && Before(b, c)
    ensures Before(a, c)
  {
    if Lex(a, b) && Lex(b, c) {
      LexTransitive(a, b, c);
    }
  }

  lemma BeforeIrreflexive(a: string)
    ensures !Before(a, a)
  {
    LexIrreflexive(a);
  }

  // ----- objects -----

  predicate DistinctKeys(fs: seq<Field>) {
    forall i, j :: 0 <= i < j < |fs| ==> fs[i].key != fs[j].key
  }

  lemma TailKeys(fs: seq<Field>)
    requires DistinctKeys(fs) && fs != []
    ensures DistinctKeys(fs[1..]) && forall f :: f in fs[1..] ==> f.key != fs[0].key
  {
    forall f | f in fs[1..] ensures f.key != fs[0].key {
      var i :| 0 <= i < |fs| - 1 && fs[1..][i] == f;
      assert fs[i + 1] == f;
    }
  }

  lemma KeysDistinctWhen(f: Field, fs: seq<Field>)
    requires DistinctKeys(fs) && forall g :: g in fs ==> g.key != f.key
    ensures DistinctKeys([f] + fs)
  {
    forall i | 0 <= i < |fs| ensures fs[i].key != f.key {
      assert fs[i] in fs;
    }
  }

  /** Every object in `v` has each key once, as objects do. */
  predicate Wf(v: Json) {
    match v
    case Arr(items) => forall i :: 0 <= i < |items| ==> Wf(items[i])
    case Obj(fields) => DistinctKeys(fields) && forall i :: 0 <= i < |fields| ==> Wf(fields[i].value)
    case _ => true
  }

  predicate HasKey(fs: seq<Field>, k: string) {
    exists i :: 0 <= i < |fs| && fs[i].key == k
  }

  function IndexOf(fs: seq<Field>, k: string): (i: nat)
    requires HasKey(fs, k)
    ensures i < |fs| && fs[i].key == k
  {
    if fs[0].key == k then 0
    else
      assert HasKey(fs[1..], k) by {
        var i :| 0 <= i < |fs| && fs[i].key == k;
        assert fs[1..][i - 1].key == k;
      }
      IndexOf(fs[1..], k) + 1
  }

  predicate Ordered(fs: seq<Field>) {
    forall i, j :: 0 <= i < j < |fs| ==> Before(fs[i].key, fs[j].key)
  }

  /** Two ordered field lists with the same fields are the same list. */
  lemma {:induction false} OrderedUnique(a: seq<Field>, b: seq<Field>)
    requires Ordered(a) && Ordered(b) && forall f :: f in a <==> f in b
    ensures a == b
    decreases |a|
  {
    assert b != [] ==> b[0] in b;
    if a != [] {
      assert a[0] in b;
      FirstIsFirst(a, b);
      forall f ensures f in a[1..] <==> f in b[1..] {
        RestWithoutFirst(a, f);
        RestWithoutFirst(b, f);
      }
      OrderedUnique(a[1..], b[1..]);
      assert a == [a[0]] + a[1..] && b == [b[0]] + b[1..];
    }
  }

  lemma FirstIsFirst(a: seq<Field>, b: seq<Field>)
    requires Ordered(a) && Ordered(b) && a != [] && b != [] && a[0] in b && b[0] in a
    ensures a[0] == b[0]
  {
    var i :| 0 <= i < |b| && b[i] == a[0];
    var j :| 0 <= j < |a| && a[j] == b[0];
    if i > 0 && j > 0 {
      BeforeTransitive(a[0].key, b[0].key, a[0].key);
      BeforeIrreflexive(a[0].key);
    }
  }

  lemma RestWithoutFirst(a: seq<Field>, f: Field)
    requires Ordered(a) && a != []
    ensures f in a[1..] <==> f in a && f != a[0]
  {
    if f in a[1..] {
      var i :| 0 <= i < |a| - 1 && a[1..][i] == f;
      assert a[i + 1] == f;
      BeforeIrreflexive(f.key);
    }
    if f in a && f != a[0] {
      var i :| 0 <= i < |a| && a[i] == f;
      assert a[1..][i - 1] == f;
    }
  }

  /** What an assignment `object[key] = value` does to the list of an object's fields. */
  function SetField(fs: seq<Field>, f: Field): seq<Field> {
    if fs == [] then [f]
    else if fs[0].key == f.key then [f] + fs[1..]
    else if IsIndex(f.key) && Before(f.key, fs[0].key) then [f] + fs
    else [fs[0]] + SetField(fs[1..], f)
  }

  // ----- JSON.stringify and JSON.parse -----

  /** What stringify writes of a value and parse reads back: undefined fields vanish, undefined items become null. */
  function Strip(v: Json): Json
    decreases v, 1
  {
    match v
    case Undefined => Null
    case Arr(items) => Arr(StripItems(items))
    case Obj(fields) => Obj(StripFields(fields))
    case _ => v
  }

  function StripItems(items: seq<Json>): (r: seq<Json>)
    ensures |r| == |items|
    decreases items, 0
  {
    if items == [] then [] else [Strip(items[0])] + StripItems(items[1..])
  }

  function StripFields(fs: seq<Field>): seq<Field>
    decreases fs, 0
  {
    if fs == [] then []
    else (if fs[0].value.Undefined? then [] else [Field(fs[0].key, Strip(fs[0].value))]) + StripFields(fs[1..])
  }

  lemma {:induction false} StripItemsAt(items: seq<Json>, i: nat)
    requires i < |items|
    ensures StripItems(items)[i] == Strip(items[i])
  {
    if i > 0 {
      StripItemsAt(items[1..], i - 1);
    }
  }

  lemma {:induction false} StripFieldsAre(fs: seq<Field>)
    ensures forall g :: g in StripFields(fs) <==> exists f :: f in fs && !f.value.Undefined? && g == Field(f.key, Strip(f.value))
  {
    if fs != [] {
      StripFieldsAre(fs[1..]);
      assert fs == [fs[0]] + fs[1..];
    }
  }

  datatype Token = TNull | TTrue | TFalse | TNum(x: real) | TStr(s: string)
                 | LBracket | RBracket | LBrace | RBrace | Comma | Colon

  /** JSON text, token by token. */
  function Print(v: Json): seq<Token>
    decreases v, 1
  {
    match v
    case Undefined => [TNull]
    case Null => [TNull]
    case Bool(b) => [if b then TTrue else TFalse]
    case Num(x) => [TNum(x)]
    case Str(s) => [TStr(s)]
    case Arr(items) => [LBracket] + (if items == [] then [RBracket] else Print(items[0]) + PrintItems(items[1..]))
    case Obj(fields) => [LBrace] + (if fields == [] then [RBrace] else PrintField(fields[0]) + PrintFields(fields[1..]))
  }

  function PrintItems(items: seq<Json>): seq<Token>
    decreases items, 0
  {
    if items == [] then [RBracket] else [Comma] + (Print(items[0]) + PrintItems(items[1..]))
  }

  function PrintField(f: Field): seq<Token>
    decreases f, 0
  {
    [TStr(f.key)] + ([Colon] + Print(f.value))
  }

  function PrintFields(fs: seq<Field>): seq<Token>
    decreases fs, 0
  {
    if fs == [] then [RBrace] else [Comma] + (PrintField(fs[0]) + PrintFields(fs[1..]))
  }

  /** The parts with commas between them. */
  function Joined(parts: seq<seq<Token>>): seq<Token> {
    if parts == [] then []
    else if |parts| == 1 then parts[0]
    else Joined(parts[..|parts| - 1]) + [Comma] + parts[|parts| - 1]
  }

  lemma {:induction false} JoinedFirst(part: seq<Token>, rest: seq<seq<Token>>)
    requires rest != []
    ensures Joined([part] + rest) == part + [Comma] + Joined(rest)
  {
    var parts := [part] + rest;
    assert parts[..|parts| - 1] == [part] + rest[..|rest| - 1];
    if |rest| == 1 {
      assert rest[..0] == [] && [part] + [] == [part];
    } else {
      JoinedFirst(part, rest[..|rest| - 1]);
    }
  }

  function Texts(items: seq<Json>): seq<seq<Token>> {
    seq(|items|, i requires 0 <= i < |items| => Print(items[i]))
  }

  function FieldTexts(fs: seq<Field>): seq<seq<Token>> {
    seq(|fs|, i requires 0 <= i < |fs| => [TStr(fs[i].key), Colon] + Print(fs[i].value))
  }

  lemma JoinedOne(part: seq<Token>)
    ensures Joined([part]) == part
  {
  }

  lemma {:induction false} ItemsJoined(items: seq<Json>)
    requires items != []
    ensures Print(items[0]) + PrintItems(items[1..]) == Joined(Texts(items)) + [RBracket]
    decreases |items|
  {
    hide Print, Joined;
    var first, rest := Print(items[0]), items[1..];
    assert Texts(items) == [first] + Texts(rest);
    if rest != [] {
      ItemsJoined(rest);
      JoinedFirst(first, Texts(rest));
      var tail := Print(rest[0]) + PrintItems(rest[1..]);
      assert PrintItems(rest) == [Comma] + tail;
      hide PrintItems, Texts;
      assert first + ([Comma] + tail) == first + [Comma] + Joined(Texts(rest)) + [RBracket];
    } else {
      assert Texts(rest) == [] && [first] + [] == [first];
      JoinedOne(first);
    }
  }

  lemma {:induction false} FieldsJoined(fs: seq<Field>)
    requires fs != []
    ensures PrintField(fs[0]) + PrintFields(fs[1..]) == Joined(FieldTexts(fs)) + [RBrace]
    decreases |fs|
  {
    hide Print, Joined;
    var first, rest := PrintField(fs[0]), fs[1..];
    assert first == [TStr(fs[0].key), Colon] + Print(fs[0].value);
    assert FieldTexts(fs) == [first] + FieldTexts(rest);
    if rest != [] {
      FieldsJoined(rest);
      JoinedFirst(first, FieldTexts(rest));
      var tail := PrintField(rest[0]) + PrintFields(rest[1..]);
      assert PrintFields(rest) == [Comma] + tail;
      hide PrintFields, PrintField, FieldTexts;
      assert first + ([Comma] + tail) == first + [Comma] + Joined(FieldTexts(rest)) + [RBrace];
    } else {
      assert FieldTexts(rest) == [] && [first] + [] == [first];
      JoinedOne(first);
    }
  }

  /** JSON text, form by form. */
  lemma PrintIs(v: Json)
    ensures v.Arr? ==> Print(v) == [LBracket] + Joined(Texts(v.items)) + [RBracket]
    ensures v.Obj? ==> Print(v) == [LBrace] + Joined(FieldTexts(v.fields)) + [RBrace]
    ensures Print(Bool(true)) == [TTrue] && Print(Bool(false)) == [TFalse] && Print(Null) == Print(Undefined) == [TNull]
    ensures (v.Num? ==> Print(v) == [TNum(v.x)]) && (v.Str? ==> Print(v) == [TStr(v.s)])
  {
    match v
    case Arr(items) =>
      if items != [] {
        ItemsJoined(items);
        hide Joined, Texts;
        assert [LBracket] + (Joined(Texts(items)) + [RBracket]) == [LBracket] + Joined(Texts(items)) + [RBracket];
      }
    case Obj(fields) =>
      if fields != [] {
        FieldsJoined(fields);
        hide Joined, FieldTexts;
        assert [LBrace] + (Joined(FieldTexts(fields)) + [RBrace]) == [LBrace] + Joined(FieldTexts(fields)) + [RBrace];
      }
    case _ =>
  }

  /** Nothing undefined inside. */
  predicate Clean(v: Json) {
    match v
    case Undefined => false
    case Arr(items) => forall i :: 0 <= i < |items| ==> Clean(items[i])
    case Obj(fields) => forall i :: 0 <= i < |fields| ==> Clean(fields[i].value)
    case _ => true
  }

  lemma FirstToken(v: Json)
    ensures Print(v) != [] && Print(v)[0] != RBracket && Print(v)[0] != RBrace && Print(v)[0] != Comma && Print(v)[0] != Colon
  {
  }

  lemma Peel(t: Token, p: seq<Token>, x: seq<Token>, u: Token, q: seq<Token>, y: seq<Token>)
    requires ([t] + p) + x == ([u] + q) + y
    ensures t == u && p + x == q + y
  {
    assert ([t] + p) + x == [t] + (p + x) && ([u] + q) + y == [u] + (q + y);
    assert ([t] + (p + x))[0] == ([u] + (q + y))[0];
    assert p + x == ([t] + (p + x))[1..] && q + y == ([u] + (q + y))[1..];
  }

  /** JSON text can be read back in one way only, wherever it stands. */
  lemma {:induction false} PrintInjective(a: Json, b: Json, x: seq<Token>, y: seq<Token>)
    requires Clean(a) && Clean(b) && Print(a) + x == Print(b) + y
    ensures a == b && x == y
    decreases a, 2
  {
    FirstToken(a);
    FirstToken(b);
    var t, p, u, q := Print(a)[0], Print(a)[1..], Print(b)[0], Print(b)[1..];
    assert Print(a) == [t] + p && Print(b) == [u] + q;
    Peel(t, p, x, u, q, y);
    assert [] + x == x && [] + y == y;
    match a
    case Arr(items) =>
      ItemsPrintInjective(a.items, b.items, p, q, x, y);
    case Obj(fields) =>
      FieldsPrintInjective(a.fields, b.fields, p, q, x, y);
    case _ =>
  }

  /** The items of an array after its bracket or after an item. */
  function FirstItems(items: seq<Json>): seq<Token> {
    if items == [] then [RBracket] else Print(items[0]) + PrintItems(items[1..])
  }

  lemma {:induction false} ItemsPrintInjective(a: seq<Json>, b: seq<Json>, p: seq<Token>, q: seq<Token>, x: seq<Token>, y: seq<Token>)
    requires (forall i :: 0 <= i < |a| ==> Clean(a[i])) && (forall i :: 0 <= i < |b| ==> Clean(b[i]))
    requires p == FirstItems(a) && q == FirstItems(b) && p + x == q + y
    ensures a == b && x == y
    decreases a, 1
  {
    hide Print, PrintItems;
    if a != [] { FirstToken(a[0]); }
    if b != [] { FirstToken(b[0]); }
    assert (p + x)[0] == (q + y)[0] && (p + x)[0] == p[0] && (q + y)[0] == q[0];
    if a == [] {
      assert p + x == ([RBracket] + []) + x && q + y == ([RBracket] + []) + y;
      Peel(RBracket, [], x, RBracket, [], y);
      assert [] + x == x && [] + y == y;
    } else {
      var tailA, tailB := PrintItems(a[1..]), PrintItems(b[1..]);
      assert Print(a[0]) + (tailA + x) == p + x && Print(b[0]) + (tailB + y) == q + y;
      PrintInjective(a[0], b[0], tailA + x, tailB + y);
      MoreItemsPrintInjective(a[1..], b[1..], x, y);
      assert a == [a[0]] + a[1..] && b == [b[0]] + b[1..];
    }
  }

  lemma {:induction false} MoreItemsPrintInjective(a: seq<Json>, b: seq<Json>, x: seq<Token>, y: seq<Token>)
    requires (forall i :: 0 <= i < |a| ==> Clean(a[i])) && (forall i :: 0 <= i < |b| ==> Clean(b[i]))
    requires PrintItems(a) + x == PrintItems(b) + y
    ensures a == b && x == y
    decreases a, 2
  {
    var pa, pb := if a == [] then [] else FirstItems(a), if b == [] then [] else FirstItems(b);
    var ta, tb := if a == [] then RBracket else Comma, if b == [] then RBracket else Comma;
    MoreItemsShape(a);
    MoreItemsShape(b);
    hide FirstItems, PrintItems;
    Peel(ta, pa, x, tb, pb, y);
    if a == [] {
      assert [] + x == x && [] + y == y;
    } else {
      ItemsPrintInjective(a, b, pa, pb, x, y);
    }
  }

  lemma MoreItemsShape(a: seq<Json>)
    ensures PrintItems(a) == if a == [] then [RBracket] + [] else [Comma] + FirstItems(a)
  {
  }

  lemma {:induction false} FieldPrintInjective(f: Field, g: Field, x: seq<Token>, y: seq<Token>)
    requires Clean(f.value) && Clean(g.value) && PrintField(f) + x == PrintField(g) + y
    ensures f == g && x == y
    decreases f, 1
  {
    hide Print;
    Peel(TStr(f.key), [Colon] + Print(f.value), x, TStr(g.key), [Colon] + Print(g.value), y);
    Peel(Colon, Print(f.value), x, Colon, Print(g.value), y);
    PrintInjective(f.value, g.value, x, y);
  }

  function FirstFields(fs: seq<Field>): seq<Token> {
    if fs == [] then [RBrace] else PrintField(fs[0]) + PrintFields(fs[1..])
  }

  lemma FirstFieldToken(f: Field)
    ensures PrintField(f) != [] && PrintField(f)[0] == TStr(f.key)
  {
  }

  lemma {:induction false} FieldsPrintInjective(a: seq<Field>, b: seq<Field>, p: seq<Token>, q: seq<Token>, x: seq<Token>, y: seq<Token>)
    requires (forall i :: 0 <= i < |a| ==> Clean(a[i].value)) && (forall i :: 0 <= i < |b| ==> Clean(b[i].value))
    requires p == FirstFields(a) && q == FirstFields(b) && p + x == q + y
    ensures a == b && x == y
    decreases a, 1
  {
    hide PrintField, PrintFields;
    if a != [] { FirstFieldToken(a[0]); }
    if b != [] { FirstFieldToken(b[0]); }
    assert (p + x)[0] == (q + y)[0] && (p + x)[0] == p[0] && (q + y)[0] == q[0];
    if a == [] {
      assert p + x == ([RBrace] + []) + x && q + y == ([RBrace] + []) + y;
      Peel(RBrace, [], x, RBrace, [], y);
      assert [] + x == x && [] + y == y;
    } else {
      var tailA, tailB := PrintFields(a[1..]), PrintFields(b[1..]);
      assert PrintField(a[0]) + (tailA + x) == p + x && PrintField(b[0]) + (tailB + y) == q + y;
      FieldPrintInjective(a[0], b[0], tailA + x, tailB + y);
      MoreFieldsPrintInjective(a[1..], b[1..], x, y);
      assert a == [a[0]] + a[1..] && b == [b[0]] + b[1..];
    }
  }

  lemma {:induction false} MoreFieldsPrintInjective(a: seq<Field>, b: seq<Field>, x: seq<Token>, y: seq<Token>)
    requires (forall i :: 0 <= i < |a| ==> Clean(a[i].value)) && (forall i :: 0 <= i < |b| ==> Clean(b[i].value))
    requires PrintFields(a) + x == PrintFields(b) + y
    ensures a == b && x == y
    decreases a, 2
  {
    var pa, pb := if a == [] then [] else FirstFields(a), if b == [] then [] else FirstFields(b);
    var ta, tb := if a == [] then RBrace else Comma, if b == [] then RBrace else Comma;
    MoreFieldsShape(a);
    MoreFieldsShape(b);
    hide FirstFields, PrintFields;
    Peel(ta, pa, x, tb, pb, y);
    if a == [] {
      assert [] + x == x && [] + y == y;
    } else {
      FieldsPrintInjective(a, b, pa, pb, x, y);
    }
  }

  lemma MoreFieldsShape(a: seq<Field>)
    ensures PrintFields(a) == if a == [] then [RBrace] + [] else [Comma] + FirstFields(a)
  {
  }
}
