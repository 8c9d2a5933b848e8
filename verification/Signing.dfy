/** The canonical form of a chunk, and signatures over it. */
module Signing {
  import opened Chunks
  import opened Json

  // ----- the canonical tree -----

  function InsertField(f: Field, s: seq<Field>): seq<Field> {
    if s == [] then [f]
    else if Before(f.key, s[0].key) then [f] + s
    else [s[0]] + InsertField(f, s[1..])
  }

  /** Objects with their keys in a fixed order, at every depth. */
  function Canon(v: Json): Json
    decreases v, 1
  {
    match v
    case Arr(items) => Arr(CanonItems(items))
    case Obj(fields) => Obj(CanonFields(fields))
    case _ => v
  }

  function CanonItems(items: seq<Json>): (r: seq<Json>)
    ensures |r| == |items|
    decreases items, 0
  {
    if items == [] then [] else [Canon(items[0])] + CanonItems(items[1..])
  }

  function CanonFields(fs: seq<Field>): seq<Field>
    decreases fs, 0
  {
    if fs == [] then [] else InsertField(Field(fs[0].key, Canon(fs[0].value)), CanonFields(fs[1..]))
  }

  lemma {:induction false} CanonItemsAt(items: seq<Json>, i: nat)
    requires i < |items|
    ensures CanonItems(items)[i] == Canon(items[i])
  {
    if i > 0 {
      CanonItemsAt(items[1..], i - 1);
    }
  }

  lemma {:induction false} InsertFieldMembers(f: Field, s: seq<Field>)
    ensures forall g :: g in InsertField(f, s) <==> g == f || g in s
  {
    if s != [] && !Before(f.key, s[0].key) {
      InsertFieldMembers(f, s[1..]);
      assert s == [s[0]] + s[1..];
    }
  }

  lemma {:induction false} InsertFieldOrdered(f: Field, s: seq<Field>)
    requires Ordered(s) && forall g :: g in s ==> g.key != f.key
    ensures Ordered(InsertField(f, s))
  {
    if s != [] {
      BeforeTotal(f.key, s[0].key);
      if Before(f.key, s[0].key) {
        forall i | 0 < i < |s| ensures Before(f.key, s[i].key) {
          BeforeTransitive(f.key, s[0].key, s[i].key);
        }
      } else {
        InsertFieldOrdered(f, s[1..]);
        InsertFieldMembers(f, s[1..]);
        var t := InsertField(f, s[1..]);
        forall i | 0 <= i < |t| ensures Before(s[0].key, t[i].key) {
          assert t[i] in t;
        }
      }
    }
  }

  lemma {:induction false} CanonFieldsAre(fs: seq<Field>)
    requires DistinctKeys(fs)
    ensures Ordered(CanonFields(fs))
    ensures forall g :: g in CanonFields(fs) <==> exists f :: f in fs && g == Field(f.key, Canon(f.value))
  {
    if fs != [] {
      var head, rest := Field(fs[0].key, Canon(fs[0].value)), CanonFields(fs[1..]);
      CanonFieldsAre(fs[1..]);
      assert fs == [fs[0]] + fs[1..];
      TailKeys(fs);
      InsertFieldMembers(head, rest);
      InsertFieldOrdered(head, rest);
    }
  }

  // ----- sortObjectKeys -----

  function InsertKey(k: string, ks: seq<string>): seq<string> {
    if ks == [] then [k] else if Lex(k, ks[0]) then [k] + ks else [ks[0]] + InsertKey(k, ks[1..])
  }

  /** Object.keys(object).sort(). */
  function SortedKeys(fs: seq<Field>): seq<string> {
    if fs == [] then [] else InsertKey(fs[0].key, SortedKeys(fs[1..]))
  }

  predicate Ascending(ks: seq<string>) {
    forall i, j :: 0 <= i < j < |ks| ==> Lex(ks[i], ks[j])
  }

  lemma {:induction false} InsertKeyIs(k: string, ks: seq<string>)
    requires Ascending(ks) && k !in ks
    ensures Ascending(InsertKey(k, ks)) && forall x :: x in InsertKey(k, ks) <==> x == k || x in ks
  {
    if ks != [] {
      LexTotal(k, ks[0]);
      assert ks == [ks[0]] + ks[1..];
      if Lex(k, ks[0]) {
        forall i | 0 < i < |ks| ensures Lex(k, ks[i]) {
          LexTransitive(k, ks[0], ks[i]);
        }
      } else {
        InsertKeyIs(k, ks[1..]);
        var t := InsertKey(k, ks[1..]);
        forall i | 0 <= i < |t| ensures Lex(ks[0], t[i]) {
          assert t[i] in t;
        }
      }
    }
  }

  lemma {:induction false} SortedKeysAre(fs: seq<Field>)
    requires DistinctKeys(fs)
    ensures Ascending(SortedKeys(fs)) && forall k :: k in SortedKeys(fs) <==> exists f :: f in fs && f.key == k
  {
    if fs != [] {
      SortedKeysAre(fs[1..]);
      assert fs == [fs[0]] + fs[1..];
      TailKeys(fs);
      InsertKeyIs(fs[0].key, SortedKeys(fs[1..]));
    }
  }

  /** Assigning a key that sorts after all others keeps the listing in order. */
  lemma {:induction false} SetFieldOrdered(fs: seq<Field>, f: Field)
    requires Ordered(fs) && forall g :: g in fs ==> Lex(g.key, f.key)
    ensures Ordered(SetField(fs, f)) && forall g :: g in SetField(fs, f) <==> g == f || g in fs
  {
    if fs != [] {
      assert fs == [fs[0]] + fs[1..];
      assert Lex(fs[0].key, f.key) by { assert fs[0] in fs; }
      LexIrreflexive(f.key);
      BeforeTotal(f.key, fs[0].key);
      if IsIndex(f.key) && Before(f.key, fs[0].key) {
        forall i | 0 < i < |fs| ensures Before(f.key, fs[i].key) {
          BeforeTransitive(f.key, fs[0].key, fs[i].key);
        }
      } else {
        SetFieldOrdered(fs[1..], f);
        var t := SetField(fs[1..], f);
        assert Before(fs[0].key, f.key);
        forall i | 0 <= i < |t| ensures Before(fs[0].key, t[i].key) {
          assert t[i] in t;
        }
      }
    }
  }

  /** The fields of the first `n` sorted keys, with canonical values. */
  ghost predicate FilledTo(sorted: seq<Field>, fs: seq<Field>, keys: seq<string>, n: nat) {
    && n <= |keys| && Ordered(sorted)
    && forall g :: g in sorted <==> exists f :: f in fs && f.key in keys[..n] && g == Field(f.key, Canon(f.value))
  }

  lemma FillStep(sorted: seq<Field>, fs: seq<Field>, keys: seq<string>, n: nat, f: Field)
    requires FilledTo(sorted, fs, keys, n) && n < |keys| && Ascending(keys) && DistinctKeys(fs)
    requires f in fs && f.key == keys[n]
    ensures FilledTo(SetField(sorted, Field(f.key, Canon(f.value))), fs, keys, n + 1)
  {
    var g, sorted' := Field(f.key, Canon(f.value)), SetField(sorted, Field(f.key, Canon(f.value)));
    assert keys[..n + 1] == keys[..n] + [keys[n]];
    forall h | h in sorted ensures Lex(h.key, g.key) {
      var e :| e in fs && e.key in keys[..n] && h == Field(e.key, Canon(e.value));
      var i :| 0 <= i < n && keys[i] == e.key;
    }
    SetFieldOrdered(sorted, g);
    forall h ensures h in sorted' <==> exists e :: e in fs && e.key in keys[..n + 1] && h == Field(e.key, Canon(e.value)) {
      if e :| e in fs && e.key in keys[..n + 1] && h == Field(e.key, Canon(e.value)) {
        if e.key == f.key {
          var i :| 0 <= i < |fs| && fs[i] == e;
          var j :| 0 <= j < |fs| && fs[j] == f;
          assert e == f;
        }
      }
    }
  }

  lemma FilledAll(sorted: seq<Field>, fs: seq<Field>, keys: seq<string>)
    requires FilledTo(sorted, fs, keys, |keys|) && DistinctKeys(fs)
    requires forall k :: k in keys <==> exists f :: f in fs && f.key == k
    ensures sorted == CanonFields(fs)
  {
    CanonFieldsAre(fs);
    assert keys[..|keys|] == keys;
    OrderedUnique(sorted, CanonFields(fs));
  }

  method SortObjectKeys(v: Json) returns (r: Json)
    requires Wf(v)
    ensures r == Canon(v)
    decreases v
  {
    match v {
      case Arr(items) =>
        var sorted: seq<Json> := [];
        for i := 0 to |items|
          invariant |sorted| == i && forall j :: 0 <= j < i ==> sorted[j] == Canon(items[j])
        {
          var item := SortObjectKeys(items[i]);
          sorted := sorted + [item];
        }
        forall i | 0 <= i < |items| ensures sorted[i] == CanonItems(items)[i] {
          CanonItemsAt(items, i);
        }
        r := Arr(sorted);
      case Obj(fields) =>
        var keys := SortedKeys(fields);
        SortedKeysAre(fields);
        var sorted: seq<Field> := [];
        for i := 0 to |keys|
          invariant FilledTo(sorted, fields, keys, i)
        {
          hide FilledTo;
          assert keys[i] in keys;
          var field := fields[IndexOf(fields, keys[i])];
          var value := SortObjectKeys(field.value);
          FillStep(sorted, fields, keys, i, field);
          sorted := SetField(sorted, Field(keys[i], value));
        }
        FilledAll(sorted, fields, keys);
        r := Obj(sorted);
      case _ =>
        r := v;
    }
  }

  // ----- what the canonical form identifies -----

  /** Equal up to the order of object keys at every depth; undefined fields do not count. */
  predicate Same(a: Json, b: Json)
    decreases a
  {
    match a
    case Undefined => b.Undefined? || b.Null?
    case Null => b.Undefined? || b.Null?
    case Arr(items) => b.Arr? && |items| == |b.items| && forall i :: 0 <= i < |items| ==> Same(items[i], b.items[i])
    case Obj(fields) =>
      && b.Obj?
      && (forall i :: 0 <= i < |fields| && !fields[i].value.Undefined? ==> HasSame(b.fields, fields[i]))
      && (forall j :: 0 <= j < |b.fields| && !b.fields[j].value.Undefined? ==> HasDefined(fields, b.fields[j].key))
    case _ => a == b
  }

  predicate HasSame(fs: seq<Field>, f: Field)
    decreases f
  {
    exists j :: 0 <= j < |fs| && fs[j].key == f.key && !fs[j].value.Undefined? && Same(f.value, fs[j].value)
  }

  predicate HasDefined(fs: seq<Field>, k: string) {
    exists i :: 0 <= i < |fs| && fs[i].key == k && !fs[i].value.Undefined?
  }

  /** The canonical tree as text shows it. */
  function Tree(v: Json): Json {
    Strip(Canon(v))
  }

  lemma {:induction false} StripOrdered(fs: seq<Field>)
    requires Ordered(fs)
    ensures Ordered(StripFields(fs))
  {
    if fs != [] {
      StripOrdered(fs[1..]);
      StripFieldsAre(fs[1..]);
      var t := StripFields(fs[1..]);
      forall i | 0 <= i < |t| ensures Before(fs[0].key, t[i].key) {
        assert t[i] in t;
        var f :| f in fs[1..] && t[i].key == f.key;
      }
    }
  }

  lemma TreeFields(fs: seq<Field>)
    requires DistinctKeys(fs)
    ensures Tree(Obj(fs)).Obj? && Ordered(Tree(Obj(fs)).fields)
    ensures forall g :: g in Tree(Obj(fs)).fields <==> exists f :: f in fs && !f.value.Undefined? && g == Field(f.key, Tree(f.value))
  {
    CanonFieldsAre(fs);
    StripOrdered(CanonFields(fs));
    StripFieldsAre(CanonFields(fs));
    forall g ensures g in Tree(Obj(fs)).fields <==> exists f :: f in fs && !f.value.Undefined? && g == Field(f.key, Tree(f.value)) {
      if f :| f in fs && !f.value.Undefined? && g == Field(f.key, Tree(f.value)) {
        assert Field(f.key, Canon(f.value)) in CanonFields(fs);
      }
    }
  }

  lemma TreeItems(items: seq<Json>, i: nat)
    requires i < |items|
    ensures Tree(Arr(items)).Arr? && |Tree(Arr(items)).items| == |items| && Tree(Arr(items)).items[i] == Tree(items[i])
  {
    CanonItemsAt(items, i);
    StripItemsAt(CanonItems(items), i);
  }

  lemma TreeShape(v: Json)
    ensures Tree(v).Arr? <==> v.Arr?
    ensures Tree(v).Obj? <==> v.Obj?
    ensures !v.Arr? && !v.Obj? ==> Tree(v) == if v.Undefined? then Null else v
  {
  }

  lemma {:induction false} SameTree(a: Json, b: Json)
    requires Wf(a) && Wf(b) && Same(a, b)
    ensures Tree(a) == Tree(b)
    decreases a
  {
    hide Tree;
    TreeShape(a);
    TreeShape(b);
    match a
    case Arr(items) =>
      TreeLength(items);
      TreeLength(b.items);
      forall i | 0 <= i < |items| ensures Tree(a).items[i] == Tree(b).items[i] {
        TreeItems(items, i);
        TreeItems(b.items, i);
        SameTree(items[i], b.items[i]);
      }
      assert Tree(a).items == Tree(b).items;
    case Obj(fields) =>
      TreeFields(fields);
      TreeFields(b.fields);
      forall g ensures g in Tree(a).fields <==> g in Tree(b).fields {
        SameFieldForth(a, b, g);
        SameFieldBack(a, b, g);
      }
      OrderedUnique(Tree(a).fields, Tree(b).fields);
    case _ =>
  }

  lemma {:induction false} SameFieldForth(a: Json, b: Json, g: Field)
    requires a.Obj? && b.Obj? && Wf(a) && Wf(b) && Same(a, b)
    ensures g in Tree(a).fields ==> g in Tree(b).fields
    decreases a, 0
  {
    hide Tree;
    TreeFields(a.fields);
    TreeFields(b.fields);
    if g in Tree(a).fields {
      var f :| f in a.fields && !f.value.Undefined? && g == Field(f.key, Tree(f.value));
      var i :| 0 <= i < |a.fields| && a.fields[i] == f;
      assert HasSame(b.fields, f);
      var j :| 0 <= j < |b.fields| && b.fields[j].key == f.key && !b.fields[j].value.Undefined? && Same(f.value, b.fields[j].value);
      SameTree(f.value, b.fields[j].value);
      assert b.fields[j] in b.fields;
    }
  }

  lemma {:induction false} SameFieldBack(a: Json, b: Json, g: Field)
    requires a.Obj? && b.Obj? && Wf(a) && Wf(b) && Same(a, b)
    ensures g in Tree(b).fields ==> g in Tree(a).fields
    decreases a, 0
  {
    hide Tree;
    TreeFields(a.fields);
    TreeFields(b.fields);
    if g in Tree(b).fields {
      var f :| f in b.fields && !f.value.Undefined? && g == Field(f.key, Tree(f.value));
      var j :| 0 <= j < |b.fields| && b.fields[j] == f;
      assert HasDefined(a.fields, f.key);
      var i :| 0 <= i < |a.fields| && a.fields[i].key == f.key && !a.fields[i].value.Undefined?;
      assert HasSame(b.fields, a.fields[i]);
      var k :| 0 <= k < |b.fields| && b.fields[k].key == a.fields[i].key && !b.fields[k].value.Undefined?
               && Same(a.fields[i].value, b.fields[k].value);
      assert k == j;
      SameTree(a.fields[i].value, f.value);
      assert a.fields[i] in a.fields;
    }
  }

  lemma {:induction false} TreeSame(a: Json, b: Json)
    requires Wf(a) && Wf(b) && Tree(a) == Tree(b)
    ensures Same(a, b)
    decreases a
  {
    hide Tree;
    TreeShape(a);
    TreeShape(b);
    match a
    case Arr(items) =>
      TreeLength(items);
      TreeLength(b.items);
      forall i | 0 <= i < |items| ensures Same(items[i], b.items[i]) {
        TreeItems(items, i);
        TreeItems(b.items, i);
        TreeSame(items[i], b.items[i]);
      }
    case Obj(fields) =>
      TreeFields(fields);
      TreeFields(b.fields);
      forall i | 0 <= i < |fields| && !fields[i].value.Undefined?
        ensures HasSame(b.fields, fields[i])
      {
        assert Field(fields[i].key, Tree(fields[i].value)) in Tree(a).fields by { assert fields[i] in fields; }
        var f :| f in b.fields && !f.value.Undefined? && Field(fields[i].key, Tree(fields[i].value)) == Field(f.key, Tree(f.value));
        var j :| 0 <= j < |b.fields| && b.fields[j] == f;
        TreeSame(fields[i].value, b.fields[j].value);
      }
      forall j | 0 <= j < |b.fields| && !b.fields[j].value.Undefined?
        ensures HasDefined(fields, b.fields[j].key)
      {
        assert Field(b.fields[j].key, Tree(b.fields[j].value)) in Tree(b).fields by { assert b.fields[j] in b.fields; }
        var f :| f in fields && !f.value.Undefined? && Field(b.fields[j].key, Tree(b.fields[j].value)) == Field(f.key, Tree(f.value));
        var i :| 0 <= i < |fields| && fields[i] == f;
      }
    case _ =>
  }

  lemma TreeLength(items: seq<Json>)
    ensures Tree(Arr(items)).Arr? && |Tree(Arr(items)).items| == |items|
  {
  }

  // ----- canonical bytes -----

  /** A chunk as an object: everything but its signature. */
  function Without(fs: seq<Field>, k: string): seq<Field> {
    if fs == [] then []
    else (if fs[0].key == k then [] else [fs[0]]) + Without(fs[1..], k)
  }

  /** The signed text of a chunk. */
  function CanonicalText(chunk: seq<Field>): seq<Token> {
    Print(Tree(Obj(Without(chunk, "signature"))))
  }

  lemma {:induction false} WithoutIs(fs: seq<Field>, k: string)
    ensures forall f :: f in Without(fs, k) <==> f in fs && f.key != k
  {
    if fs != [] {
      WithoutIs(fs[1..], k);
      assert fs == [fs[0]] + fs[1..];
    }
  }

  lemma {:induction false} WithoutWf(fs: seq<Field>, k: string)
    requires Wf(Obj(fs))
    ensures Wf(Obj(Without(fs, k)))
  {
    if fs != [] {
      TailKeys(fs);
      WithoutWf(fs[1..], k);
      WithoutIs(fs[1..], k);
      KeysDistinctWhen(fs[0], Without(fs[1..], k));
    }
  }

  lemma {:induction false} StripClean(v: Json)
    ensures Clean(Strip(v))
    decreases v, 1
  {
    match v
    case Arr(items) =>
      forall i | 0 <= i < |items| ensures Clean(StripItems(items)[i]) {
        StripItemsAt(items, i);
        StripClean(items[i]);
      }
    case Obj(fields) =>
      StripFieldsAre(fields);
      forall i | 0 <= i < |StripFields(fields)| ensures Clean(StripFields(fields)[i].value) {
        assert StripFields(fields)[i] in StripFields(fields);
        var f :| f in fields && StripFields(fields)[i] == Field(f.key, Strip(f.value));
        StripClean(f.value);
      }
    case _ =>
  }

  /**
   * The signed text is an object whose keys are those of the chunk that are defined, its signature apart, in their order,
   * each with the text of its canonical value.
   */
  lemma CanonicalTextIs(chunk: seq<Field>) returns (fields: seq<Field>)
    requires Wf(Obj(chunk))
    ensures CanonicalText(chunk) == [LBrace] + Joined(FieldTexts(fields)) + [RBrace] && Ordered(fields)
    ensures forall g :: g in fields <==>
              exists f :: f in chunk && f.key != "signature" && !f.value.Undefined? && g == Field(f.key, Tree(f.value))
  {
    var rest := Without(chunk, "signature");
    WithoutWf(chunk, "signature");
    WithoutIs(chunk, "signature");
    TreeFields(rest);
    PrintIs(Tree(Obj(rest)));
    hide Tree, Print, Joined, FieldTexts, Without, Ordered, Wf;
    fields := Tree(Obj(rest)).fields;
  }

  /** Two chunks are signed alike exactly when they are equal up to key order, signature and undefined fields apart. */
  lemma CanonicalTextIff(c: seq<Field>, d: seq<Field>)
    requires Wf(Obj(c)) && Wf(Obj(d))
    ensures CanonicalText(c) == CanonicalText(d) <==> Same(Obj(Without(c, "signature")), Obj(Without(d, "signature")))
  {
    var a, b := Obj(Without(c, "signature")), Obj(Without(d, "signature"));
    WithoutWf(c, "signature");
    WithoutWf(d, "signature");
    hide Same, Wf, Canon, Strip, Print;
    if Same(a, b) {
      SameTree(a, b);
    }
    if CanonicalText(c) == CanonicalText(d) {
      StripClean(Canon(a));
      StripClean(Canon(b));
      assert Print(Tree(a)) + [] == Print(Tree(b)) + [];
      PrintInjective(Tree(a), Tree(b), [], []);
      TreeSame(a, b);
    }
  }

  /** A key in a chunk, set or replaced: what `{ ...chunk, key: value }` makes. */
  function With(fs: seq<Field>, f: Field): seq<Field> {
    if fs == [] then [f]
    else if fs[0].key == f.key then [f] + fs[1..]
    else [fs[0]] + With(fs[1..], f)
  }

  lemma {:induction false} WithoutWith(fs: seq<Field>, f: Field)
    ensures Without(With(fs, f), f.key) == Without(fs, f.key)
  {
    if fs != [] && fs[0].key != f.key {
      WithoutWith(fs[1..], f);
    }
  }

  lemma {:induction false} WithHas(fs: seq<Field>, f: Field)
    ensures HasKey(With(fs, f), f.key) && With(fs, f)[IndexOf(With(fs, f), f.key)] == f
  {
    if fs != [] && fs[0].key != f.key {
      hide HasKey, IndexOf;
      WithHas(fs[1..], f);
      IndexBehind(fs[0], With(fs[1..], f), f.key);
    } else {
      assert With(fs, f)[0].key == f.key;
    }
  }

  lemma IndexBehind(head: Field, fs: seq<Field>, k: string)
    requires head.key != k && HasKey(fs, k)
    ensures HasKey([head] + fs, k) && IndexOf([head] + fs, k) == IndexOf(fs, k) + 1
  {
    var i, t := IndexOf(fs, k), [head] + fs;
    assert t[i + 1].key == k && t[1..] == fs;
  }

  lemma {:induction false} WithMembers(fs: seq<Field>, f: Field)
    requires DistinctKeys(fs)
    ensures DistinctKeys(With(fs, f)) && forall g :: g in With(fs, f) ==> g == f || (g in fs && g.key != f.key)
  {
    if fs != [] {
      var rest := fs[1..];
      TailKeys(fs);
      assert fs == [fs[0]] + rest;
      if fs[0].key != f.key {
        WithMembers(rest, f);
        HeadKeys(fs[0], With(rest, f));
      } else {
        HeadKeys(f, rest);
      }
    }
  }

  lemma HeadKeys(f: Field, fs: seq<Field>)
    requires DistinctKeys(fs) && forall g :: g in fs ==> g.key != f.key
    ensures DistinctKeys([f] + fs)
  {
    var t := [f] + fs;
    forall i, j | 0 <= i < j < |t| ensures t[i].key != t[j].key {
      assert t[j] == fs[j - 1] && fs[j - 1] in fs;
    }
  }

  lemma WithWf(fs: seq<Field>, f: Field)
    requires Wf(Obj(fs)) && Wf(f.value)
    ensures Wf(Obj(With(fs, f)))
  {
    var t := With(fs, f);
    WithMembers(fs, f);
    forall i | 0 <= i < |t| ensures Wf(t[i].value) {
      assert t[i] in t;
    }
  }

  // ----- signatures -----

  /** A signature scheme: signing and checking texts, and signatures as strings. */
  datatype Scheme<!S> = Scheme(
    sign: seq<Token> -> S,
    verify: (seq<Token>, S) -> bool,
    encode: S -> string,
    decode: string -> S)

  /**
   * The scheme does right by the signature made for `signed` when it is checked against `text`: decoding undoes its
   * encoding, which is not the empty string, and it fits `text` exactly if that is what was signed.
   */
  ghost predicate CorrectFor<S>(k: Scheme<S>, text: seq<Token>, signed: seq<Token>) {
    var s := k.sign(signed);
    && k.decode(k.encode(s)) == s
    && k.encode(s) != ""
    && (k.verify(text, s) <==> text == signed)
  }

  function SignChunk<S>(chunk: seq<Field>, k: Scheme<S>): seq<Field> {
    With(chunk, Field("signature", Str(k.encode(k.sign(CanonicalText(chunk))))))
  }

  predicate VerifyChunkSignature<S>(chunk: seq<Field>, k: Scheme<S>) {
    && HasKey(chunk, "signature")
    && var s := chunk[IndexOf(chunk, "signature")].value;
       s.Str? && s.s != "" && k.verify(CanonicalText(chunk), k.decode(s.s))
  }

  /** Signing does not disturb what was signed. */
  lemma SigningKeepsText<S>(chunk: seq<Field>, k: Scheme<S>)
    ensures CanonicalText(SignChunk(chunk, k)) == CanonicalText(chunk)
  {
    WithoutWith(chunk, Field("signature", Str(k.encode(k.sign(CanonicalText(chunk))))));
  }

  /**
   * A received object carrying the signature of a chunk verifies exactly when it equals that chunk
   * up to key order, signature and undefined fields apart.
   */
  lemma VerifiesIff<S>(chunk: seq<Field>, received: seq<Field>, k: Scheme<S>)
    requires CorrectFor(k, CanonicalText(received), CanonicalText(chunk)) && Wf(Obj(chunk)) && Wf(Obj(received))
    requires HasKey(received, "signature")
    requires received[IndexOf(received, "signature")].value == Str(k.encode(k.sign(CanonicalText(chunk))))
    ensures VerifyChunkSignature(received, k) <==> Same(Obj(Without(received, "signature")), Obj(Without(chunk, "signature")))
  {
    hide Same, CanonicalText, Wf;
    CanonicalTextIff(received, chunk);
  }

  lemma {:induction false} StripSame(v: Json)
    ensures Same(Strip(v), v)
    decreases v, 1
  {
    match v
    case Arr(items) =>
      forall i | 0 <= i < |items| ensures Same(StripItems(items)[i], items[i]) {
        StripItemsAt(items, i);
        StripSame(items[i]);
      }
    case Obj(fields) =>
      forall i | 0 <= i < |StripFields(fields)| ensures HasSame(fields, StripFields(fields)[i]) {
        StripKept(v, i);
      }
      forall j | 0 <= j < |fields| && !fields[j].value.Undefined? ensures HasDefined(StripFields(fields), fields[j].key) {
        StripFound(fields, j);
      }
    case _ =>
  }

  lemma {:induction false} StripKept(v: Json, i: nat)
    requires v.Obj? && i < |StripFields(v.fields)|
    ensures HasSame(v.fields, StripFields(v.fields)[i])
    decreases v, 0
  {
    var fs, stripped := v.fields, StripFields(v.fields);
    StripFieldsAre(fs);
    assert stripped[i] in stripped;
    var f :| f in fs && !f.value.Undefined? && stripped[i] == Field(f.key, Strip(f.value));
    var j :| 0 <= j < |fs| && fs[j] == f;
    StripSame(f.value);
  }

  lemma StripFound(fs: seq<Field>, j: nat)
    requires j < |fs| && !fs[j].value.Undefined?
    ensures HasDefined(StripFields(fs), fs[j].key)
  {
    StripFieldsAre(fs);
    assert fs[j] in fs && Field(fs[j].key, Strip(fs[j].value)) in StripFields(fs);
    var i :| 0 <= i < |StripFields(fs)| && StripFields(fs)[i] == Field(fs[j].key, Strip(fs[j].value));
    StripDefined(fs[j].value);
  }

  lemma StripDefined(v: Json)
    ensures !Strip(v).Undefined?
  {
  }

  lemma {:induction false} StripWf(v: Json)
    requires Wf(v)
    ensures Wf(Strip(v))
    decreases v, 1
  {
    match v
    case Arr(items) =>
      forall i | 0 <= i < |items| ensures Wf(StripItems(items)[i]) {
        StripItemsAt(items, i);
        StripWf(items[i]);
      }
    case Obj(fields) =>
      StripFieldsAre(fields);
      StripDistinct(fields);
      forall i | 0 <= i < |StripFields(fields)| ensures Wf(StripFields(fields)[i].value) {
        assert StripFields(fields)[i] in StripFields(fields);
        var f :| f in fields && StripFields(fields)[i] == Field(f.key, Strip(f.value));
        StripWf(f.value);
      }
    case _ =>
  }

  lemma {:induction false} StripDistinct(fs: seq<Field>)
    requires DistinctKeys(fs)
    ensures DistinctKeys(StripFields(fs))
  {
    if fs != [] {
      TailKeys(fs);
      StripDistinct(fs[1..]);
      StripFieldsAre(fs[1..]);
      KeysDistinctWhen(Field(fs[0].key, Strip(fs[0].value)), StripFields(fs[1..]));
      assert fs[0].value.Undefined? ==> StripFields(fs) == StripFields(fs[1..]);
    }
  }

  lemma {:induction false} StripWithout(fs: seq<Field>, k: string)
    ensures StripFields(Without(fs, k)) == Without(StripFields(fs), k)
  {
    if fs != [] {
      StripWithout(fs[1..], k);
      var head, rest := fs[0], Without(fs[1..], k);
      assert Without(fs, k) == if head.key == k then rest else [head] + rest;
      assert ([head] + rest)[1..] == rest;
      if head.value.Undefined? {
        assert StripFields(fs) == StripFields(fs[1..]);
      } else {
        assert StripFields(fs) == [Field(head.key, Strip(head.value))] + StripFields(fs[1..]);
        assert StripFields(fs)[1..] == StripFields(fs[1..]);
      }
      assert StripFields([head] + rest) == (if head.value.Undefined? then [] else [Field(head.key, Strip(head.value))]) + StripFields(rest);
    }
  }

  /** The text of a chunk survives the store: writing it as JSON and reading it back changes nothing that is signed. */
  lemma TextSurvivesStore(chunk: seq<Field>)
    requires Wf(Obj(chunk))
    ensures Wf(Obj(StripFields(chunk))) && CanonicalText(StripFields(chunk)) == CanonicalText(chunk)
  {
    StripWf(Obj(chunk));
    StripWithout(chunk, "signature");
    StripSame(Obj(Without(chunk, "signature")));
    CanonicalTextIff(StripFields(chunk), chunk);
  }

  /** A signed chunk verifies, as made and after any store round trip. */
  lemma SignedChunkVerifies<S>(chunk: seq<Field>, k: Scheme<S>)
    requires CorrectFor(k, CanonicalText(chunk), CanonicalText(chunk)) && Wf(Obj(chunk))
    ensures VerifyChunkSignature(SignChunk(chunk, k), k)
    ensures VerifyChunkSignature(StripFields(SignChunk(chunk, k)), k)
  {
    var f := Field("signature", Str(k.encode(k.sign(CanonicalText(chunk)))));
    var signed := SignChunk(chunk, k);
    WithHas(chunk, f);
    WithWf(chunk, f);
    SigningKeepsText(chunk, k);
    TextSurvivesStore(signed);
    StripKeeps(signed, f);
  }

  lemma StripKeeps(fs: seq<Field>, f: Field)
    requires Wf(Obj(fs)) && HasKey(fs, f.key) && fs[IndexOf(fs, f.key)] == f && f.value.Str?
    ensures HasKey(StripFields(fs), f.key) && StripFields(fs)[IndexOf(StripFields(fs), f.key)] == f
  {
    StripFieldsAre(fs);
    StripDistinct(fs);
    assert f in fs && Strip(f.value) == f.value;
    hide Strip, StripFields, IndexOf, HasKey;
    OnlyField(StripFields(fs), f);
  }

  lemma OnlyField(fs: seq<Field>, f: Field)
    requires DistinctKeys(fs) && f in fs
    ensures HasKey(fs, f.key) && fs[IndexOf(fs, f.key)] == f
  {
    hide IndexOf;
    var i :| 0 <= i < |fs| && fs[i] == f;
    assert fs[i].key == f.key;
    var j := IndexOf(fs, f.key);
    assert fs[j].key == f.key;
  }

  // ----- the premise can be met -----

  function PlaceOf(texts: seq<seq<Token>>, t: seq<Token>): (i: nat)
    ensures i <= |texts|
    ensures t in texts ==> i < |texts| && texts[i] == t
  {
    if texts == [] then 0
    else
      var init, last := texts[..|texts| - 1], texts[|texts| - 1];
      if t in init then PlaceOf(init, t) else if t == last then |init| else |texts|
  }

  function Strokes(n: nat): (s: string)
    ensures |s| == n
  {
    seq(n, _ => '1')
  }

  /** For any texts to be signed there is a scheme that is right about each of them against every other text. */
  lemma SchemeExists(texts: seq<seq<Token>>) returns (k: Scheme<int>)
    ensures forall t, u :: u in texts ==> CorrectFor(k, t, u)
  {
    k := Scheme(
      (t: seq<Token>) => PlaceOf(texts, t),
      (t: seq<Token>, s: int) => 0 <= s < |texts| && texts[s] == t,
      (s: int) => Strokes(if s < 0 then 1 else s + 1),
      (e: string) => if |e| == 0 then 0 else |e| - 1);
    forall t, u | u in texts ensures CorrectFor(k, t, u) {
      var s := PlaceOf(texts, u);
      assert k.sign(u) == s && k.encode(s) == Strokes(s + 1);
      assert k.decode(Strokes(s + 1)) == s;
    }
  }
}
