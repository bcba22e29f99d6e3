/** How secrets are shown: the masked rendering of `get_secret` and the masking of `describe`. The
    hash is a parameter: the results hold whatever it computes. */
module Secrets {
  import opened Wrappers
  import opened Json
  import opened GoText
  import Sorting
  import Sequences

  /** Twelve hexadecimal digits of a digest. */
  type Hash = string -> string

  datatype Secret = Secret(name: string, ns: string, kind: string, data: map<string, string>)

  const BULLETS := "\U{2022}\U{2022}\U{2022}\U{2022}"
  const NOTICE := "\nValues are masked. Pass reveal=true (requires server --reveal-secrets) to show plaintext.\n"

  // ----- get_secret -----

  function Heading(s: Secret): string {
    "Name:       " + s.name + "\n" + "Namespace:  " + s.ns + "\n" + "Type:       " + s.kind + "\n"
  }

  function Opening(key: string): string { "  " + key + ": " + BULLETS + " (sha256:" }

  function EntryLine(key: string, value: string, plain: bool, hash: Hash): string {
    if plain then "  " + key + ": " + value + "\n"
    else Opening(key) + hash(value) + ", " + Itoa(|value|) + " bytes)\n"
  }

  /** A lookup in a Go map. */
  function At(data: map<string, string>, key: string): string { if key in data then data[key] else "" }

  function EntryLines(keys: seq<string>, data: map<string, string>, plain: bool, hash: Hash): string {
    if keys == [] then ""
    else EntryLine(keys[0], At(data, keys[0]), plain, hash) + EntryLines(keys[1..], data, plain, hash)
  }

  function Rendered(s: Secret, keys: seq<string>, plain: bool, hash: Hash): string {
    if s.data == map[] then Heading(s) + "Data:       <empty>\n"
    else Heading(s) + "\nData:\n" + EntryLines(keys, s.data, plain, hash) + if plain then "" else NOTICE
  }

  /** `keys` lists the key set in sorted order. */
  ghost predicate IsKeyOrder(keys: set<string>, order: seq<string>) {
    multiset(order) == multiset(keys) && Sorting.Ordered(AtMost, order)
  }

  lemma OrderLists(keys: set<string>, order: seq<string>)
    requires IsKeyOrder(keys, order)
    ensures forall k :: k in order <==> k in keys
  {
    assert forall k :: k in order <==> k in multiset(order);
  }

  lemma AtMostIsTotalPreorder()
    ensures Sorting.TotalPreorder(AtMost)
    ensures forall x, y | AtMost(x, y) && AtMost(y, x) :: x == y
  {
    forall x, y, z ensures (AtMost(x, y) || AtMost(y, x)) && (AtMost(x, y) && AtMost(y, z) ==> AtMost(x, z))
      && (AtMost(x, y) && AtMost(y, x) ==> x == y)
    {
      BelowIsTotalOrder(x, y, z);
    }
  }

  /** The sorted key list does not depend on the order a map iteration produced. */
  lemma KeyOrderIsUnique(keys: set<string>, a: seq<string>, b: seq<string>)
    requires IsKeyOrder(keys, a) && IsKeyOrder(keys, b)
    ensures a == b
  {
    AtMostIsTotalPreorder();
    Sorting.SortUnique(AtMost, a, b);
  }

  method SortedStringKeys(m: map<string, string>) returns (keys: seq<string>)
    ensures IsKeyOrder(m.Keys, keys)
  {
    keys := [];
    var left := m.Keys;
    while left != {}
      invariant left <= m.Keys && multiset(keys) == multiset(m.Keys - left)
      decreases |left|
    {
      var k :| k in left;
      assert m.Keys - (left - {k}) == (m.Keys - left) + {k};
      left := left - {k};
      keys := keys + [k];
    }
    assert m.Keys - left == m.Keys;
    AtMostIsTotalPreorder();
    keys := Sorting.Sort(AtMost, keys);
  }

  lemma LinesFrom(keys: seq<string>, i: nat, data: map<string, string>, plain: bool, hash: Hash)
    requires i < |keys|
    ensures EntryLines(keys[i..], data, plain, hash)
         == EntryLine(keys[i], At(data, keys[i]), plain, hash) + EntryLines(keys[i + 1..], data, plain, hash)
  {
    assert keys[i..][1..] == keys[i + 1..];
  }

  method WriteEntries(keys: seq<string>, data: map<string, string>, plain: bool, hash: Hash) returns (b: string)
    ensures b == EntryLines(keys, data, plain, hash)
  {
    b := "";
    for i := 0 to |keys|
      invariant b + EntryLines(keys[i..], data, plain, hash) == EntryLines(keys, data, plain, hash)
    {
      LinesFrom(keys, i, data, plain, hash);
      var line := EntryLine(keys[i], At(data, keys[i]), plain, hash);
      Sequences.MoveOver(b, line, EntryLines(keys[i + 1..], data, plain, hash), EntryLines(keys, data, plain, hash));
      b := b + line;
    }
  }

  /** The same text for every map order. */
  method RenderSecret(s: Secret, plain: bool, hash: Hash) returns (b: string)
    ensures forall order | IsKeyOrder(s.data.Keys, order) :: b == Rendered(s, order, plain, hash)
  {
    var keys := SortedStringKeys(s.data);
    OrderLists(s.data.Keys, keys);
    if |s.data| == 0 {
      b := Heading(s) + "Data:       <empty>\n";
    } else {
      var lines := WriteEntries(keys, s.data, plain, hash);
      b := Heading(s) + "\nData:\n" + lines + if plain then "" else NOTICE;
    }
    assert b == Rendered(s, keys, plain, hash);
    forall order | IsKeyOrder(s.data.Keys, order) ensures order == keys {
      KeyOrderIsUnique(s.data.Keys, order, keys);
    }
  }

  /** What a masked value still shows. */
  predicate LooksAlike(v: string, w: string, hash: Hash) { |v| == |w| && hash(v) == hash(w) }

  lemma MaskedLineIff(key: string, v: string, w: string, restV: string, restW: string, hash: Hash)
    requires |hash(v)| == |hash(w)| == 12
    ensures EntryLine(key, v, false, hash) + restV == EntryLine(key, w, false, hash) + restW <==>
            LooksAlike(v, w, hash) && restV == restW
  {
    var open, sep, unit := Opening(key), ", ", "bytes)\n";
    assert " bytes)\n" == [' '] + unit;
    LineParts(open, hash(v), sep, Itoa(|v|), ' ', unit, restV);
    LineParts(open, hash(w), sep, Itoa(|w|), ' ', unit, restW);
    PartsAlike(open, sep, ' ', unit, |v|, |w|, hash(v), hash(w), restV, restW);
  }

  lemma LineParts(open: string, h: string, sep: string, n: string, c: char, unit: string, rest: string)
    ensures open + h + sep + n + ([c] + unit) + rest == open + h + (sep + (n + [c] + (unit + rest)))
  {
  }

  lemma PartsAlike(open: string, sep: string, c: char, unit: string, v: nat, w: nat, h: string, g: string,
                   restV: string, restW: string)
    requires |h| == |g| && !('0' <= c <= '9')
    ensures open + h + (sep + (Itoa(v) + [c] + (unit + restV))) == open + g + (sep + (Itoa(w) + [c] + (unit + restW)))
            <==> v == w && h == g && restV == restW
  {
    var tailV, tailW := Itoa(v) + [c] + (unit + restV), Itoa(w) + [c] + (unit + restW);
    if open + h + (sep + tailV) == open + g + (sep + tailW) {
      Sequences.Cancel(open, h, sep + tailV, g, sep + tailW);
      Sequences.CancelPrefix(sep, tailV, tailW);
      ItoaPrefixFree(v, w, c, unit + restV, unit + restW);
      Sequences.CancelPrefix(Itoa(v) + [c], unit + restV, unit + restW);
      Sequences.CancelPrefix(unit, restV, restW);
    }
  }

  lemma {:induction false} MaskedLinesIff(keys: seq<string>, d: map<string, string>, e: map<string, string>, hash: Hash)
    requires forall v :: |hash(v)| == 12
    ensures EntryLines(keys, d, false, hash) == EntryLines(keys, e, false, hash) <==>
            forall k | k in keys :: LooksAlike(At(d, k), At(e, k), hash)
  {
    if keys != [] {
      var k := keys[0];
      MaskedLinesIff(keys[1..], d, e, hash);
      MaskedLineIff(k, At(d, k), At(e, k),
                    EntryLines(keys[1..], d, false, hash), EntryLines(keys[1..], e, false, hash), hash);
      assert keys == [k] + keys[1..];
    }
  }

  /** Two secrets with the same name, namespace, type and keys have the same masked text exactly when
      every value agrees in length and short hash: nothing else of a value can be told from the text,
      and any change the hash or the length shows is visible. */
  lemma MaskedTextIff(s: Secret, t: Secret, order: seq<string>, hash: Hash)
    requires s.name == t.name && s.ns == t.ns && s.kind == t.kind && s.data.Keys == t.data.Keys
    requires IsKeyOrder(s.data.Keys, order) && forall v :: |hash(v)| == 12
    ensures Rendered(s, order, false, hash) == Rendered(t, order, false, hash) <==>
            forall k | k in s.data && k in t.data :: LooksAlike(s.data[k], t.data[k], hash)
  {
    OrderLists(s.data.Keys, order);
    MaskedLinesIff(order, s.data, t.data, hash);
    if s.data != map[] {
      assert t.data != map[] by {
        var k :| k in s.data;
        assert k in t.data.Keys;
      }
      var top := Heading(s) + "\nData:\n";
      var a, b := EntryLines(order, s.data, false, hash), EntryLines(order, t.data, false, hash);
      if top + a + NOTICE == top + b + NOTICE {
        assert |a| == |b|;
        Sequences.Cancel(top, a, NOTICE, b, NOTICE);
      }
    } else {
      assert t.data.Keys == {};
      assert t.data == map[];
    }
  }

  // ----- describe -----

  function MaskedValue(v: Json, hash: Hash): Json {
    if v.Str? then Str(BULLETS + " (sha256:" + hash(v.s) + ")") else v
  }

  function MaskedMap(m: map<string, Json>, hash: Hash): map<string, Json> {
    map k | k in m :: MaskedValue(m[k], hash)
  }

  function MaskedMember(obj: map<string, Json>, key: string, hash: Hash): map<string, Json> {
    if key in obj && obj[key].Obj? then obj[key := Obj(MaskedMap(obj[key].fields, hash))] else obj
  }

  predicate IsSecret(obj: map<string, Json>) {
    "kind" in obj && obj["kind"].Str? && EqualFold(obj["kind"].s, "Secret")
  }

  function WithoutManagedFields(obj: map<string, Json>): map<string, Json> {
    if "metadata" in obj && obj["metadata"].Obj?
    then obj["metadata" := Obj(obj["metadata"].fields - {"managedFields"})] else obj
  }

  /** What `describe` shows of an object. */
  function Cleaned(obj: map<string, Json>, hash: Hash): map<string, Json> {
    var o := WithoutManagedFields(obj);
    if IsSecret(o) then MaskedMember(MaskedMember(o, "data", hash), "stringData", hash) else o
  }

  class Unstructured {
    var obj: map<string, Json>

    /** One of `maskSecret`'s two loops, overwriting entries in map order. */
    method MaskEntries(key: string, hash: Hash)
      modifies this
      ensures obj == MaskedMember(old(obj), key, hash)
    {
      if key in obj && obj[key].Obj? {
        var data := obj[key].fields;
        ghost var start := data;
        var left := data.Keys;
        while left != {}
          invariant left <= data.Keys == start.Keys
          invariant forall k | k in start :: data[k] == if k in left then start[k] else MaskedValue(start[k], hash)
        {
          var k :| k in left;
          if data[k].Str? {
            data := data[k := MaskedValue(data[k], hash)];
          }
          left := left - {k};
        }
        assert data == MaskedMap(start, hash);
        obj := obj[key := Obj(data)];
      }
    }

    method Clean(hash: Hash)
      modifies this
      ensures obj == Cleaned(old(obj), hash)
    {
      if "metadata" in obj && obj["metadata"].Obj? {
        obj := obj["metadata" := Obj(obj["metadata"].fields - {"managedFields"})];
      }
      if IsSecret(obj) {
        MaskEntries("data", hash);
        MaskEntries("stringData", hash);
      }
    }
  }

  /** Two values look the same under `describe`. */
  predicate SameMasked(v: Json, w: Json, hash: Hash) {
    if v.Str? && w.Str? then hash(v.s) == hash(w.s) else v == w
  }

  lemma MaskedValueIff(v: Json, w: Json, hash: Hash)
    ensures MaskedValue(v, hash) == MaskedValue(w, hash) <==> SameMasked(v, w, hash)
  {
    if v.Str? && MaskedValue(v, hash) == MaskedValue(w, hash) {
      var p := BULLETS + " (sha256:";
      assert |p + hash(v.s) + ")"| == |p + hash(w.s) + ")"|;
      Sequences.Cancel(p, hash(v.s), ")", hash(w.s), ")");
    }
  }

  /** Masking keeps the keys and depends on a string value only through its hash: any two
      payload maps are shown alike exactly when they have the same keys, equal hashes of strings, and equal
      other values. */
  lemma MaskedMapIff(m: map<string, Json>, n: map<string, Json>, hash: Hash)
    ensures MaskedMap(m, hash).Keys == m.Keys
    ensures MaskedMap(m, hash) == MaskedMap(n, hash) <==>
            m.Keys == n.Keys && forall k | k in m && k in n :: SameMasked(m[k], n[k], hash)
  {
    forall k | k in m && k in n
      ensures MaskedMap(m, hash)[k] == MaskedMap(n, hash)[k] <==> SameMasked(m[k], n[k], hash)
    {
      MaskedValueIff(m[k], n[k], hash);
    }
    if MaskedMap(m, hash) == MaskedMap(n, hash) {
      assert MaskedMap(m, hash).Keys == m.Keys && MaskedMap(n, hash).Keys == n.Keys;
    }
  }

  function WithoutManaged(metadata: Json): Json {
    if metadata.Obj? then Obj(metadata.fields - {"managedFields"}) else metadata
  }

  predicate IsPayload(key: string) { key == "data" || key == "stringData" }

  /** One member of an object as `describe` shows it. */
  function ShownMember(secret: bool, key: string, v: Json, hash: Hash): Json {
    if key == "metadata" then WithoutManaged(v)
    else if secret && IsPayload(key) && v.Obj? then Obj(MaskedMap(v.fields, hash))
    else v
  }

  /** What `describe` shows of an object: the same keys; of a Secret its payload maps masked; metadata less
      its managed fields; and every other member as it is. */
  lemma DescribeMasksSecrets(obj: map<string, Json>, hash: Hash, key: string)
    ensures Cleaned(obj, hash).Keys == obj.Keys
    ensures key in obj ==> Cleaned(obj, hash)[key] == ShownMember(IsSecret(obj), key, obj[key], hash)
  {
    assert WithoutManagedFields(obj).Keys == obj.Keys;
    assert IsSecret(WithoutManagedFields(obj)) <==> IsSecret(obj);
  }

  /** Two members that `describe` shows alike. */
  predicate MemberAlike(secret: bool, key: string, v: Json, w: Json, hash: Hash) {
    if key == "metadata" then WithoutManaged(v) == WithoutManaged(w)
    else if secret && IsPayload(key) && v.Obj? && w.Obj? then
      v.fields.Keys == w.fields.Keys &&
      forall k | k in v.fields && k in w.fields :: SameMasked(v.fields[k], w.fields[k], hash)
    else v == w
  }

  lemma ShownMemberIff(secret: bool, key: string, v: Json, w: Json, hash: Hash)
    ensures ShownMember(secret, key, v, hash) == ShownMember(secret, key, w, hash) <==>
            MemberAlike(secret, key, v, w, hash)
  {
    if v.Obj? && w.Obj? { MaskedMapIff(v.fields, w.fields, hash); }
  }

  /** `describe` shows two objects alike exactly when they have the same members and each member is alike:
      so of a Secret's payload nothing is told but the keys and the hash of each string. */
  lemma DescribedAlikeIff(a: map<string, Json>, b: map<string, Json>, hash: Hash)
    ensures Cleaned(a, hash) == Cleaned(b, hash) <==>
            a.Keys == b.Keys && forall k | k in a && k in b :: MemberAlike(IsSecret(a), k, a[k], b[k], hash)
  {
    var x, y := Cleaned(a, hash), Cleaned(b, hash);
    DescribeMasksSecrets(a, hash, "kind");
    DescribeMasksSecrets(b, hash, "kind");
    if a.Keys == b.Keys && (IsSecret(a) <==> IsSecret(b)) {
      forall k | k in a ensures x[k] == y[k] <==> MemberAlike(IsSecret(a), k, a[k], b[k], hash) {
        DescribeMasksSecrets(a, hash, k);
        DescribeMasksSecrets(b, hash, k);
        ShownMemberIff(IsSecret(a), k, a[k], b[k], hash);
      }
      SameMapIff(x, y);
    }
  }

  lemma SameMapIff<V>(x: map<string, V>, y: map<string, V>)
    requires x.Keys == y.Keys
    ensures x == y <==> forall k | k in x :: x[k] == y[k]
  {}

  /** The object's kind is "Secret" in any mix of cases. */
  predicate SaysSecret(obj: map<string, Json>) {
    "kind" in obj && obj["kind"].Str? && SameUpToCase(obj["kind"].s, "Secret")
  }

  /** The object has no kind, or one that is no string or a word of another length. */
  predicate SaysOther(obj: map<string, Json>) {
    "kind" !in obj || !obj["kind"].Str? || |obj["kind"].s| != 6
  }

  lemma SecretKinds(obj: map<string, Json>)
    ensures SaysSecret(obj) ==> IsSecret(obj)
    ensures SaysOther(obj) ==> !IsSecret(obj)
  {
    if "kind" in obj && obj["kind"].Str? { EqualFoldIff(obj["kind"].s, "Secret"); }
  }

  /** Of an object that says it is a Secret, in any case, each string of `data` and `stringData` is shown as
      four bullets and its hash. */
  lemma SecretStringsAreMasked(obj: map<string, Json>, hash: Hash, key: string, entry: string)
    requires SaysSecret(obj) && key in {"data", "stringData"} && key in obj && obj[key].Obj?
    requires entry in obj[key].fields && obj[key].fields[entry].Str?
    ensures var shown := Cleaned(obj, hash);
            && key in shown && shown[key].Obj? && entry in shown[key].fields
            && shown[key].fields[entry] ==
                 Str("\U{2022}\U{2022}\U{2022}\U{2022} (sha256:" + hash(obj[key].fields[entry].s) + ")")
  {
    SecretKinds(obj);
    DescribeMasksSecrets(obj, hash, key);
    assert Cleaned(obj, hash)[key] == Obj(MaskedMap(obj[key].fields, hash));
    MaskedString(obj[key].fields[entry].s, hash);
  }

  lemma MaskedString(v: string, hash: Hash)
    ensures MaskedValue(Str(v), hash) == Str("\U{2022}\U{2022}\U{2022}\U{2022} (sha256:" + hash(v) + ")")
  {
    assert BULLETS + " (sha256:" == "\U{2022}\U{2022}\U{2022}\U{2022} (sha256:";
  }

  /** Two objects that say they are Secrets and differ only in strings of equal hashes are shown alike. */
  lemma SecretsAlike(a: map<string, Json>, b: map<string, Json>, hash: Hash)
    requires SaysSecret(a) && a.Keys == b.Keys
    requires forall k | k in a && k in b && (k !in {"data", "stringData"} || !a[k].Obj?) :: a[k] == b[k]
    requires forall k | k in a && k in b && k in {"data", "stringData"} && a[k].Obj? ::
               b[k].Obj? && a[k].fields.Keys == b[k].fields.Keys &&
               forall e | e in a[k].fields && e in b[k].fields ::
                 var v, w := a[k].fields[e], b[k].fields[e];
                 v == w || (v.Str? && w.Str? && hash(v.s) == hash(w.s))
    ensures Cleaned(a, hash) == Cleaned(b, hash)
  {
    SecretKinds(a);
    DescribedAlikeIff(a, b, hash);
    forall k | k in a && k in b ensures MemberAlike(true, k, a[k], b[k], hash) {
    }
  }

  /** An object that cannot be a Secret is shown as it is, less its managed fields. */
  lemma OthersAreShown(obj: map<string, Json>, hash: Hash, key: string)
    requires SaysOther(obj)
    ensures Cleaned(obj, hash).Keys == obj.Keys
    ensures key in obj ==>
              Cleaned(obj, hash)[key] ==
              if key == "metadata" && obj[key].Obj? then Obj(obj[key].fields - {"managedFields"}) else obj[key]
  {
    SecretKinds(obj);
    DescribeMasksSecrets(obj, hash, key);
  }

  // ----- The two texts of get_secret, spelled out -----

  lemma HeadingOfOneSecret()
    ensures Heading(Secret("db", "prod", "Opaque", map[])) ==
              "Name:       db\n" + "Namespace:  prod\n" + "Type:       Opaque\n"
  {
    assert "Name:       " + "db" + "\n" == "Name:       db\n";
    assert "Namespace:  " + "prod" + "\n" == "Namespace:  prod\n";
    assert "Type:       " + "Opaque" + "\n" == "Type:       Opaque\n";
    ThreeTriples("Name:       ", "db", "\n", "Namespace:  ", "prod", "\n", "Type:       ", "Opaque", "\n");
  }

  lemma ThreeTriples(a: string, b: string, c: string, d: string, e: string, f: string, g: string, h: string, i: string)
    ensures a + b + c + d + e + f + g + h + i == (a + b + c) + (d + e + f) + (g + h + i)
  {}

  lemma PlainLineOfOneSecret(hash: Hash)
    ensures EntryLine("key", "value", true, hash) == "  key: value\n"
  {}

  lemma MaskedLineOfOneSecret(hash: Hash)
    requires hash("value") == "0a1b2c3d4e5f"
    ensures EntryLine("key", "value", false, hash) ==
              "  key: \U{2022}\U{2022}\U{2022}\U{2022} (sha256:" + "0a1b2c3d4e5f, 5 bytes)\n"
  {
    OpeningOfOneKey();
    assert Itoa(5) == "5";
    FourParts(Opening("key"), "0a1b2c3d4e5f", ", ", "5", " bytes)\n");
    assert "0a1b2c3d4e5f" + (", " + ("5" + " bytes)\n")) == "0a1b2c3d4e5f, 5 bytes)\n";
  }

  lemma OpeningOfOneKey()
    ensures Opening("key") == "  key: \U{2022}\U{2022}\U{2022}\U{2022} (sha256:"
  {}

  lemma FourParts(open: string, a: string, b: string, c: string, d: string)
    ensures open + a + b + c + d == open + (a + (b + (c + d)))
  {}

  /** The whole text of a secret with one key, and of one without any. */
  lemma TextOfSmallSecrets(s: Secret, key: string, value: string, hash: Hash)
    requires s.data == map[key := value]
    ensures Rendered(s, [key], true, hash) == Heading(s) + "\nData:\n" + EntryLine(key, value, true, hash)
    ensures Rendered(s, [key], false, hash) == Heading(s) + "\nData:\n" + EntryLine(key, value, false, hash) +
              "\nValues are masked. Pass reveal=true (requires server --reveal-secrets) to show plaintext.\n"
    ensures Rendered(s.(data := map[]), [], false, hash) == Heading(s) + "Data:       <empty>\n"
  {
    assert key in s.data && At(s.data, key) == value;
    OneLine(key, s.data, true, hash);
    OneLine(key, s.data, false, hash);
    assert Heading(s.(data := map[])) == Heading(s);
  }

  lemma OneLine(key: string, data: map<string, string>, plain: bool, hash: Hash)
    ensures EntryLines([key], data, plain, hash) == EntryLine(key, At(data, key), plain, hash)
  {
    assert [key][1..] == [];
    assert EntryLines([], data, plain, hash) == "";
  }

  /** A secret in the clear is read back: equal texts come from equal values, as long as no value spans
      lines. */
  lemma {:induction false} PlainLinesReadBack(keys: seq<string>, d: map<string, string>, e: map<string, string>,
                                              hash: Hash)
    requires forall k | k in keys :: '\n' !in At(d, k) && '\n' !in At(e, k)
    ensures EntryLines(keys, d, true, hash) == EntryLines(keys, e, true, hash) <==>
            forall k | k in keys :: At(d, k) == At(e, k)
  {
    if keys != [] {
      var k := keys[0];
      PlainLinesReadBack(keys[1..], d, e, hash);
      var restD, restE := EntryLines(keys[1..], d, true, hash), EntryLines(keys[1..], e, true, hash);
      PlainLineIff(k, At(d, k), At(e, k), restD, restE, hash);
      assert keys == [k] + keys[1..];
    }
  }

  lemma PlainLineIff(key: string, v: string, w: string, restV: string, restW: string, hash: Hash)
    requires '\n' !in v && '\n' !in w
    ensures EntryLine(key, v, true, hash) + restV == EntryLine(key, w, true, hash) + restW <==> v == w && restV == restW
  {
    var open := "  " + key + ": ";
    PlainParts(open, v, restV);
    PlainParts(open, w, restW);
    if EntryLine(key, v, true, hash) + restV == EntryLine(key, w, true, hash) + restW {
      Sequences.CancelPrefix(open, v + ['\n'] + restV, w + ['\n'] + restW);
      FirstAfter(v, '\n', restV);
      FirstAfter(w, '\n', restW);
      Sequences.Cancel([], v, ['\n'] + restV, w, ['\n'] + restW);
      Sequences.CancelPrefix(['\n'], restV, restW);
    }
  }

  lemma PlainParts(open: string, v: string, rest: string)
    ensures open + v + "\n" + rest == open + (v + ['\n'] + rest)
    ensures v + ['\n'] + rest == [] + v + (['\n'] + rest)
  {}
}
