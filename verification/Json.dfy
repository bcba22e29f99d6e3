/** JSON documents and the JSON Merge Patch of section 2 of RFC 7396, which is the patch type
    every patching handler of the server sends. */
module Json {
  import opened Wrappers

  datatype Json =
    | Null
    | Bool(b: bool)
    | Num(n: int)
    | Str(s: string)
    | Arr(items: seq<Json>)
    | Obj(fields: map<string, Json>)

  type Path = seq<string>

  /** The member `k` of `j`; a missing member and a member of a non-object read as null. */
  function Child(j: Json, k: string): Json {
    if j.Obj? && k in j.fields then j.fields[k] else Null
  }

  function Fields(j: Json): map<string, Json> {
    if j.Obj? then j.fields else map[]
  }

  /** MergePatch(target, patch) of section 2 of RFC 7396. */
  function MergePatch(target: Json, patch: Json): Json
    decreases patch
  {
    if !patch.Obj? then patch
    else
      var base := Fields(target);
      Obj(map k | k in base.Keys + patch.fields.Keys && !(k in patch.fields && patch.fields[k].Null?) ::
            if k in patch.fields then MergePatch(Child(target, k), patch.fields[k]) else base[k])
  }

  /** The value reached from `j` through object members only. */
  function Lookup(j: Json, path: Path): Option<Json> {
    if path == [] then Some(j)
    else if j.Obj? && path[0] in j.fields then Lookup(j.fields[path[0]], path[1..])
    else None
  }

  lemma LookupStep(j: Json, k: string, rest: Path)
    ensures Lookup(j, [k] + rest) == if j.Obj? && k in j.fields then Lookup(j.fields[k], rest) else None
  {
    assert ([k] + rest)[1..] == rest;
  }

  /** A path of three members. */
  lemma LookupThree(j: Json, a: string, b: string, c: string)
    requires j.Obj? && Child(j, a).Obj?
    ensures Lookup(j, [a, b, c]) ==
              if b in Child(j, a).fields && Child(j, a).fields[b].Obj? && c in Child(j, a).fields[b].fields
              then Some(Child(j, a).fields[b].fields[c]) else None
  {
    assert [a, b, c] == [a] + [b, c] && [b, c] == [b] + [c] && [c] == [c] + [];
    LookupStep(j, a, [b, c]);
    LookupStep(Child(j, a), b, [c]);
    if b in Child(j, a).fields { LookupStep(Child(j, a).fields[b], c, []); }
  }

  /** Drops every null object member that is not inside an array. */
  function Strip(j: Json): Json {
    if !j.Obj? then j
    else Obj(map k | k in j.fields && !j.fields[k].Null? :: Strip(j.fields[k]))
  }

  /** Wherever `j` and `t` both hold an object, `j` has no member that `t` does not mention. */
  predicate NoExtraKeys(j: Json, t: Json)
    decreases t
  {
    j.Obj? && t.Obj? ==>
      forall k | k in j.fields ::
        k in t.fields && (t.fields[k].Null? || NoExtraKeys(j.fields[k], t.fields[k]))
  }

  /** What a merge patch does to every path: a mentioned value replaces (arrays whole), a mentioned
      null removes, a mentioned object stays an object, and whatever the patch does not mention
      below one of its objects is exactly what the target had there. */
  lemma {:induction false} PatchAtPath(target: Json, patch: Json, path: Path)
    ensures var out, p := Lookup(MergePatch(target, patch), path), Lookup(patch, path);
            && (p.Some? && !p.value.Obj? && !p.value.Null? ==> out == p)
            && (p == Some(Null) && path != [] ==> out == None)
            && (p.Some? && p.value.Obj? ==> out.Some? && out.value.Obj?)
    ensures forall i: nat, k: string | i < |path| && path[i] == k &&
              Unmentioned(patch, path[..i], k) ::
              Lookup(MergePatch(target, patch), path) == Lookup(target, path)
    decreases path
  {
    if path != [] {
      if patch.Obj? && path[0] in patch.fields && !patch.fields[path[0]].Null? {
        var k0 := path[0];
        PatchAtPath(Child(target, k0), patch.fields[k0], path[1..]);
        assert Lookup(MergePatch(target, patch), path)
            == Lookup(MergePatch(Child(target, k0), patch.fields[k0]), path[1..]);
        forall i: nat, k: string | i < |path| && path[i] == k && Unmentioned(patch, path[..i], k)
          ensures Lookup(MergePatch(target, patch), path) == Lookup(target, path)
        {
          assert i > 0;
          assert path[..i][1..] == path[1..][..i - 1];
          assert Unmentioned(patch.fields[k0], path[1..][..i - 1], k) && path[1..][i - 1] == k;
          if !(target.Obj? && k0 in target.fields) {
            assert Lookup(Null, path[1..]) == None by {
              assert Lookup(patch.fields[k0], path[1..][..i - 1]).value.Obj?;
            }
          }
        }
      } else if patch.Obj? && path[0] in patch.fields {
        forall i: nat | i < |path| ensures !Unmentioned(patch, path[..i], path[i]) {
          if i > 0 {
            assert Lookup(patch, path[..i]) == Lookup(Null, path[..i][1..]);
          }
        }
      } else {
        assert patch.Obj? ==> Lookup(MergePatch(target, patch), path) == Lookup(target, path);
      }
    }
  }

  /** `patch` holds an object at `path`, and that object has no member `k`. */
  ghost predicate Unmentioned(patch: Json, path: Path, k: string) {
    var at := Lookup(patch, path);
    at.Some? && at.value.Obj? && k !in at.value.fields
  }

  lemma {:induction false} NoExtraInStripped(t: Json)
    ensures NoExtraKeys(Strip(t), t)
  {
    if t.Obj? {
      forall k | k in Strip(t).fields
        ensures NoExtraKeys(Strip(t).fields[k], t.fields[k])
      {
        NoExtraInStripped(t.fields[k]);
      }
    }
  }

  /** A patch with template `t` produces `t` (less its nulls) exactly when the current document has
      no object member, at any depth, that `t` does not mention. */
  lemma {:induction false} PatchReplacesIff(cur: Json, t: Json)
    ensures MergePatch(cur, t) == Strip(t) <==> NoExtraKeys(cur, t)
    decreases t
  {
    if t.Obj? {
      forall k | k in t.fields && !t.fields[k].Null?
        ensures MergePatch(Child(cur, k), t.fields[k]) == Strip(t.fields[k]) <==>
                NoExtraKeys(Child(cur, k), t.fields[k])
      {
        PatchReplacesIff(Child(cur, k), t.fields[k]);
      }
      var m, s := MergePatch(cur, t), Strip(t);
      assert forall k | k in Fields(cur) && k !in t.fields :: k in m.fields && k !in s.fields;
      if m == s {
        forall k | k in Fields(cur)
          ensures k in t.fields && (t.fields[k].Null? || NoExtraKeys(Fields(cur)[k], t.fields[k]))
        {
          if k in t.fields && !t.fields[k].Null? { assert k in s.fields && m.fields[k] == s.fields[k]; }
        }
      }
      if NoExtraKeys(cur, t) {
        assert m.fields.Keys == s.fields.Keys;
        forall k | k in s.fields ensures m.fields[k] == s.fields[k] {
          assert NoExtraKeys(Child(cur, k), t.fields[k]);
        }
      }
    }
  }

  /** Patching with `t` and then with the document the first patch started from: an extra member
      appears exactly where `t` itself has one. */
  lemma {:induction false} ExtraKeysThereAndBack(start: Json, t: Json)
    ensures NoExtraKeys(MergePatch(Strip(start), t), start) <==> NoExtraKeys(Strip(t), start)
    decreases t
  {
    if t.Obj? && start.Obj? {
      var m, s := MergePatch(Strip(start), t), Strip(t);
      forall k | k in t.fields && k in start.fields && !t.fields[k].Null? && !start.fields[k].Null?
        ensures NoExtraKeys(m.fields[k], start.fields[k]) <==> NoExtraKeys(s.fields[k], start.fields[k])
      {
        ExtraKeysThereAndBack(start.fields[k], t.fields[k]);
        assert Child(Strip(start), k) == Strip(start.fields[k]);
      }
      forall k | k in start.fields && k !in t.fields && !start.fields[k].Null?
        ensures k in m.fields && NoExtraKeys(m.fields[k], start.fields[k])
      {
        NoExtraInStripped(start.fields[k]);
      }
      assert forall k | k in s.fields :: k in m.fields && k in t.fields;
      if NoExtraKeys(m, start) {
        forall k | k in s.fields
          ensures k in start.fields && (start.fields[k].Null? || NoExtraKeys(s.fields[k], start.fields[k]))
        {
          assert k in m.fields;
        }
      }
      if NoExtraKeys(s, start) {
        forall k | k in m.fields
          ensures k in start.fields && (start.fields[k].Null? || NoExtraKeys(m.fields[k], start.fields[k]))
        {
          if k in t.fields { assert k in s.fields; }
        }
      }
    }
  }

  /** Where `t` removes a member, `j` has nothing to remove. */
  predicate NullsMeetNothing(t: Json, j: Json)
    decreases t
  {
    t.Obj? && j.Obj? ==>
      forall k | k in t.fields && k in j.fields ::
        if t.fields[k].Null? then j.fields[k].Null? else NullsMeetNothing(t.fields[k], j.fields[k])
  }

  /** A patch leaves every member of the document it is applied to mentioned, exactly when it removes none. */
  lemma {:induction false} MergedMentionsIff(j: Json, t: Json)
    requires Strip(j) == j
    ensures NoExtraKeys(j, MergePatch(j, t)) <==> NullsMeetNothing(t, j)
    decreases t
  {
    if t.Obj? && j.Obj? {
      var m := MergePatch(j, t);
      forall k | k in j.fields
        ensures !j.fields[k].Null?
        ensures k !in t.fields ==> k in m.fields && NoExtraKeys(j.fields[k], m.fields[k])
        ensures k in t.fields && !t.fields[k].Null? ==>
                  k in m.fields && !m.fields[k].Null? &&
                  (NoExtraKeys(j.fields[k], m.fields[k]) <==> NullsMeetNothing(t.fields[k], j.fields[k]))
      {
        assert k in Strip(j).fields && Strip(j.fields[k]) == j.fields[k];
        if k !in t.fields {
          NoExtraInStripped(j.fields[k]);
        } else if !t.fields[k].Null? {
          MergedMentionsIff(j.fields[k], t.fields[k]);
        }
      }
    }
  }

  lemma {:induction false} NullsMentionMore(j: Json, t: Json)
    requires NoExtraKeys(j, Strip(t))
    ensures NoExtraKeys(j, t)
    decreases t
  {
    if j.Obj? && t.Obj? {
      forall k | k in j.fields ensures k in t.fields && (t.fields[k].Null? || NoExtraKeys(j.fields[k], t.fields[k])) {
        assert k in Strip(t).fields && !Strip(t.fields[k]).Null?;
        NullsMentionMore(j.fields[k], t.fields[k]);
      }
    }
  }

  lemma {:induction false} StrippedHasNoMore(j: Json, t: Json)
    requires NoExtraKeys(j, t)
    ensures NoExtraKeys(Strip(j), t)
    decreases t
  {
    if j.Obj? && t.Obj? {
      forall k | k in Strip(j).fields
        ensures k in t.fields && (t.fields[k].Null? || NoExtraKeys(Strip(j).fields[k], t.fields[k]))
      {
        if !t.fields[k].Null? { StrippedHasNoMore(j.fields[k], t.fields[k]); }
      }
    }
  }

  /** Patching a document without null members never leaves one. */
  lemma {:induction false} PatchedHasNoNulls(cur: Json, t: Json)
    requires Strip(cur) == cur
    ensures Strip(MergePatch(cur, t)) == MergePatch(cur, t)
    decreases t
  {
    if t.Obj? {
      var m := MergePatch(cur, t);
      forall k | k in m.fields ensures !m.fields[k].Null? && Strip(m.fields[k]) == m.fields[k] {
        if k !in t.fields {
          assert k in Strip(cur).fields;
        } else {
          assert Strip(Child(cur, k)) == Child(cur, k) by {
            if k in Fields(cur) { assert k in Strip(cur).fields; }
          }
          PatchedHasNoNulls(Child(cur, k), t.fields[k]);
        }
      }
      assert Strip(m).fields == m.fields;
    }
  }

  lemma {:induction false} StripTwice(j: Json)
    ensures Strip(Strip(j)) == Strip(j)
  {
    if j.Obj? {
      forall k | k in Strip(j).fields ensures Strip(Strip(j).fields[k]) == Strip(j).fields[k] {
        StripTwice(j.fields[k]);
      }
      assert forall k | k in j.fields && !j.fields[k].Null? :: !Strip(j.fields[k]).Null?;
      assert Strip(Strip(j)).fields == Strip(j).fields;
    }
  }

  /** `j` with `v` stored at `path`; objects on the way are created, and replace other values. */
  function SetPath(j: Json, path: Path, v: Json): Json
    decreases path
  {
    if path == [] then v
    else Obj(Fields(j)[path[0] := SetPath(Child(j, path[0]), path[1..], v)])
  }

  /** The patch document that mentions only `path`. */
  function Nest(path: Path, v: Json): Json {
    if path == [] then v else Obj(map[path[0] := Nest(path[1..], v)])
  }

  /** A patch with one member patches that member and nothing else. */
  lemma OneMemberPatch(j: Json, k: string, p: Json)
    ensures MergePatch(j, Obj(map[k := p])) ==
              Obj(if p.Null? then Fields(j) - {k} else Fields(j)[k := MergePatch(Child(j, k), p)])
  {
    var m, base := MergePatch(j, Obj(map[k := p])).fields, Fields(j);
    var v := MergePatch(Child(j, k), p);
    forall x: string
      ensures x in m <==> if x == k then !p.Null? else x in base
      ensures x in m ==> m[x] == if x == k then v else base[x]
    {
      OneMemberAt(j, k, p, x);
    }
    MapFromLookups(m, base, k, if p.Null? then None else Some(v));
  }

  lemma MapFromLookups<V>(m: map<string, V>, base: map<string, V>, k: string, v: Option<V>)
    requires forall x :: x in m <==> if x == k then v.Some? else x in base
    requires forall x | x in m :: m[x] == if x == k then v.value else base[x]
    ensures m == if v.None? then base - {k} else base[k := v.value]
  {
    if v.None? {
      assert m.Keys == (base - {k}).Keys;
    } else {
      assert m.Keys == base[k := v.value].Keys;
    }
  }

  lemma OneMemberAt(j: Json, k: string, p: Json, x: string)
    ensures var m := MergePatch(j, Obj(map[k := p])).fields;
            && (x in m <==> if x == k then !p.Null? else x in Fields(j))
            && (x in m ==> m[x] == if x == k then MergePatch(Child(j, k), p) else Fields(j)[x])
  {
    assert map[k := p][k] == p;
  }

  /** A patch nesting one plain value sets that path and nothing else. */
  lemma {:induction false} NestedPatchSetsPath(j: Json, path: Path, v: Json)
    requires !v.Obj? && !v.Null?
    ensures MergePatch(j, Nest(path, v)) == SetPath(j, path, v)
    decreases path
  {
    if path != [] {
      NestedPatchSetsPath(Child(j, path[0]), path[1..], v);
      OneMemberPatch(j, path[0], Nest(path[1..], v));
    }
  }

  lemma {:induction false} SetPathReads(j: Json, path: Path, v: Json)
    ensures Lookup(SetPath(j, path, v), path) == Some(v)
    decreases path
  {
    if path != [] { SetPathReads(Child(j, path[0]), path[1..], v); }
  }

  lemma {:induction false} SetPathOverwrites(j: Json, path: Path, v: Json, w: Json)
    ensures SetPath(SetPath(j, path, v), path, w) == SetPath(j, path, w)
    decreases path
  {
    if path != [] {
      SetPathOverwrites(Child(j, path[0]), path[1..], v, w);
      var once := SetPath(j, path, v);
      assert Fields(once)[path[0] := SetPath(Child(j, path[0]), path[1..], w)]
          == Fields(j)[path[0] := SetPath(Child(j, path[0]), path[1..], w)];
    }
  }

  lemma TwoStepPath(j: Json, k: string, l: string, v: Json)
    ensures SetPath(j, [k, l], v) == Obj(Fields(j)[k := Obj(Fields(Child(j, k))[l := v])])
  {
    assert [k, l][1..] == [l] && [l][1..] == [];
    assert SetPath(Child(j, k), [l], v) == Obj(Fields(Child(j, k))[l := SetPath(Child(Child(j, k), l), [], v)]);
  }

  /** Setting a path leaves every path that parts from it as it was. */
  lemma {:induction false} SetPathFrame(j: Json, path: Path, v: Json, other: Path)
    requires Diverge(path, other)
    ensures Lookup(SetPath(j, path, v), other) == Lookup(j, other)
    decreases path
  {
    if path[0] == other[0] {
      SetPathFrame(Child(j, path[0]), path[1..], v, other[1..]);
      assert Lookup(Null, other[1..]) == None;
    }
  }

  /** `j` without the member at the end of `path`. */
  function DropAt(j: Json, path: Path): Json
    decreases path
  {
    if path == [] || !j.Obj? || path[0] !in j.fields then j
    else if |path| == 1 then Obj(j.fields - {path[0]})
    else Obj(j.fields[path[0] := DropAt(j.fields[path[0]], path[1..])])
  }

  lemma DropAtMember(j: Json, path: Path, k: string)
    requires path != [] && j.Obj?
    ensures var d := DropAt(j, path);
            && d.Obj?
            && (k in d.fields <==> k in j.fields && (|path| > 1 || k != path[0]))
            && (k in d.fields ==> d.fields[k] == if k == path[0] then DropAt(j.fields[k], path[1..]) else j.fields[k])
  {}

  /** Dropping a member before the patch, from both documents, or after it is the same. */
  lemma {:induction false} DropAtMerges(j: Json, t: Json, path: Path)
    ensures DropAt(MergePatch(j, t), path) == MergePatch(DropAt(j, path), DropAt(t, path))
    decreases path
  {
    if path != [] && t.Obj? {
      var a, b := DropAt(MergePatch(j, t), path), MergePatch(DropAt(j, path), DropAt(t, path));
      forall k: string
        ensures k in a.fields <==> k in b.fields
        ensures k in a.fields ==> a.fields[k] == b.fields[k]
      {
        DropAtMember(MergePatch(j, t), path, k);
        DropAtMember(t, path, k);
        if j.Obj? { DropAtMember(j, path, k); }
        if k == path[0] && k in t.fields { DropAtMerges(Child(j, k), t.fields[k], path[1..]); }
      }
      assert a.fields.Keys == b.fields.Keys;
    }
  }

  lemma {:induction false} DropAtStrips(j: Json, path: Path)
    ensures DropAt(Strip(j), path) == Strip(DropAt(j, path))
    decreases path
  {
    if path != [] && j.Obj? {
      var a, b := DropAt(Strip(j), path), Strip(DropAt(j, path));
      forall k: string
        ensures k in a.fields <==> k in b.fields
        ensures k in a.fields ==> a.fields[k] == b.fields[k]
      {
        DropAtMember(Strip(j), path, k);
        DropAtMember(j, path, k);
        if k == path[0] && k in j.fields { DropAtStrips(j.fields[k], path[1..]); }
      }
      assert a.fields.Keys == b.fields.Keys;
    }
  }

  /** A document is determined by what it is without one member, and that member. */
  lemma {:induction false} SameButAt(j: Json, t: Json, path: Path)
    requires path != []
    ensures j == t <==> DropAt(j, path) == DropAt(t, path) && Lookup(j, path) == Lookup(t, path)
    decreases path
  {
    if DropAt(j, path) == DropAt(t, path) && Lookup(j, path) == Lookup(t, path) && j.Obj? && t.Obj? {
      forall k: string
        ensures k in j.fields <==> k in t.fields
        ensures k in j.fields ==> j.fields[k] == t.fields[k]
      {
        DropAtMember(j, path, k);
        DropAtMember(t, path, k);
        assert |path| == 1 ==> path[1..] == [];
        assert k in j.fields && k == path[0] ==> Lookup(j, path) == Lookup(j.fields[k], path[1..]);
        assert k in t.fields && k == path[0] ==> Lookup(t, path) == Lookup(t.fields[k], path[1..]);
        if k == path[0] && k in j.fields && k in t.fields && |path| > 1 {
          SameButAt(j.fields[k], t.fields[k], path[1..]);
        }
      }
      assert j.fields.Keys == t.fields.Keys;
    }
  }

  /** Neither path is a prefix of the other. */
  predicate Diverge(p: Path, q: Path) {
    p != [] && q != [] && (p[0] != q[0] || Diverge(p[1..], q[1..]))
  }

  lemma {:induction false} DivergeIff(p: Path, q: Path)
    ensures Diverge(p, q) <==> !(p <= q) && !(q <= p)
    decreases p
  {
    if p != [] && q != [] {
      DivergeIff(p[1..], q[1..]);
      assert p == [p[0]] + p[1..] && q == [q[0]] + q[1..];
    }
  }

  /** Dropping a member removes it. */
  lemma {:induction false} DropAtReads(j: Json, path: Path)
    requires path != []
    ensures Lookup(DropAt(j, path), path) == None
    decreases path
  {
    if j.Obj? && path[0] in j.fields && |path| > 1 {
      DropAtReads(j.fields[path[0]], path[1..]);
    }
  }

  /** Every path that parts from it stays. */
  lemma {:induction false} DropAtFrame(j: Json, path: Path, other: Path)
    requires Diverge(path, other)
    ensures Lookup(DropAt(j, path), other) == Lookup(j, other)
    decreases path
  {
    if j.Obj? {
      DropAtMember(j, path, other[0]);
      if path[0] == other[0] && other[0] in j.fields {
        assert path[1..] != [];
        DropAtFrame(j.fields[other[0]], path[1..], other[1..]);
      }
    }
  }
}
