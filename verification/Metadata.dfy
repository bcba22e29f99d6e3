/** `label` and `annotate`: one read and one merge patch of an object's label or annotation map. */
module Metadata {
  import opened Wrappers
  import opened Json

  datatype Field = Labels | Annotations

  function Name(field: Field): string {
    if field == Labels then "labels" else "annotations"
  }

  function At(obj: Json, field: Field): Json { Child(Child(obj, "metadata"), Name(field)) }

  predicate AllStrings(fields: map<string, Json>) { forall k | k in fields :: fields[k].Str? }

  function Strings(fields: map<string, Json>): map<string, string>
    requires AllStrings(fields)
  {
    map k | k in fields :: fields[k].s
  }

  function ToJson(items: map<string, string>): Json { Obj(map k | k in items :: Str(items[k])) }

  /** `GetLabels` and `GetAnnotations`: the map when every value is a string, and otherwise nothing. */
  function Current(obj: Json, field: Field): map<string, string> {
    var at := At(obj, field);
    if at.Obj? && AllStrings(at.fields) then Strings(at.fields) else map[]
  }

  /** What the API server guarantees of a stored object: metadata is an object, and the map is absent
      or holds only strings. */
  predicate Stored(obj: Json, field: Field) {
    && obj.Obj? && Child(obj, "metadata").Obj?
    && (Name(field) in Child(obj, "metadata").fields ==> At(obj, field).Obj? && AllStrings(At(obj, field).fields))
  }

  /** The patch document. An absent item map is a nil Go map, which encodes as null. */
  function ItemsPatch(field: Field, items: Option<map<string, string>>): Json {
    Obj(map["metadata" := Obj(map[Name(field) := if items.Some? then ToJson(items.value) else Null])])
  }

  function Given(items: Option<map<string, string>>): map<string, string> {
    if items.Some? then items.value else map[]
  }

  predicate Conflicts(obj: Json, field: Field, items: Option<map<string, string>>, overwrite: bool) {
    !overwrite && exists k | k in Given(items) :: k in Current(obj, field)
  }

  datatype Outcome = Exists | ApiError | Done

  /** The effect of one call whose requests succeed. */
  function Patched(obj: Json, field: Field, items: Option<map<string, string>>, overwrite: bool): Json {
    if Conflicts(obj, field, items, overwrite) then obj else MergePatch(obj, ItemsPatch(field, items))
  }

  class Resource {
    var obj: Json

    method MetaPatch(field: Field, items: Option<map<string, string>>, overwrite: bool,
                     getFails: bool, patchFails: bool)
      returns (r: Outcome)
      modifies this
      ensures r == Exists <==> !getFails && Conflicts(old(obj), field, items, overwrite)
      ensures r == Done <==> !getFails && !Conflicts(old(obj), field, items, overwrite) && !patchFails
      ensures obj == if r == Done then Patched(old(obj), field, items, overwrite) else old(obj)
    {
      if getFails { return ApiError; }
      var cur := Current(obj, field);
      if !overwrite {
        var left := Given(items).Keys;
        while left != {}
          invariant left <= Given(items).Keys
          invariant forall k | k in Given(items) && k !in left :: k !in cur
        {
          var k :| k in left;
          if k in cur { return Exists; }
          left := left - {k};
        }
      }
      if patchFails { return ApiError; }
      obj := MergePatch(obj, ItemsPatch(field, items));
      return Done;
    }
  }

  /** Merging a string map into an absent or string-valued member updates it. */
  lemma MergedStrings(at: Json, cur: map<string, string>, items: map<string, string>)
    requires (at.Null? && cur == map[]) || (at.Obj? && AllStrings(at.fields) && cur == Strings(at.fields))
    ensures MergePatch(at, ToJson(items)) == ToJson(cur + items)
  {
    var merged, goal := MergePatch(at, ToJson(items)).fields, ToJson(cur + items).fields;
    assert Fields(at).Keys == cur.Keys;
    assert merged.Keys == goal.Keys;
    forall k | k in goal ensures merged[k] == goal[k] {
      if k in items {
        assert merged[k] == MergePatch(Child(at, k), ToJson(items).fields[k]);
      } else {
        assert merged[k] == at.fields[k] && at.fields[k].Str?;
      }
    }
  }

  lemma PatchUnfolds(obj: Json, field: Field, items: Option<map<string, string>>)
    requires Stored(obj, field)
    ensures var after, md := MergePatch(obj, ItemsPatch(field, items)), Child(obj, "metadata");
            && after.Obj? && Child(after, "metadata").Obj?
            && (items.Some? ==>
                  var updated := ToJson(Current(obj, field) + items.value);
                  after == Obj(obj.fields["metadata" := Obj(md.fields[Name(field) := updated])]))
            && (items.None? ==> after == Obj(obj.fields["metadata" := Obj(md.fields - {Name(field)})]))
  {
    var md, v := Child(obj, "metadata"), if items.Some? then ToJson(items.value) else Null;
    OneMemberPatch(md, Name(field), v);
    OneMemberPatch(obj, "metadata", Obj(map[Name(field) := v]));
    if items.Some? { MergedStrings(At(obj, field), Current(obj, field), items.value); }
  }

  /** An accepted call turns the map into itself updated by the items, and changes nothing else in
      the object, exactly when an item map was given or there was no map to lose: an absent item map
      removes the whole map instead. */
  lemma AcceptedCallUpdatesIff(obj: Json, field: Field, items: Option<map<string, string>>, overwrite: bool)
    requires Stored(obj, field) && !Conflicts(obj, field, items, overwrite)
    ensures var after := Patched(obj, field, items, overwrite);
            && Stored(after, field)
            && (Current(after, field) == Current(obj, field) + Given(items) <==>
                items.Some? || Current(obj, field) == map[])
            && (items.Some? ==>
                  after == SetPath(obj, ["metadata", Name(field)], ToJson(Current(obj, field) + items.value)))
            && (items.None? ==> Current(after, field) == map[])
  {
    PatchUnfolds(obj, field, items);
    var after := Patched(obj, field, items, overwrite);
    if items.Some? {
      var merged := Current(obj, field) + items.value;
      TwoStepPath(obj, "metadata", Name(field), ToJson(merged));
      assert At(after, field) == ToJson(merged);
      assert Strings(ToJson(merged).fields) == merged;
    } else {
      assert At(after, field) == Null;
    }
  }

  /** The literal path of a label or annotation. */
  function ItemPath(field: Field, key: string): Path {
    match field
    case Labels => ["metadata", "labels", key]
    case Annotations => ["metadata", "annotations", key]
  }

  lemma CurrentIsAtPath(obj: Json, field: Field, key: string)
    requires Stored(obj, field)
    ensures Lookup(obj, ItemPath(field, key)) ==
            if key in Current(obj, field) then Some(Str(Current(obj, field)[key])) else None
  {
    assert ItemPath(field, key) == ["metadata", Name(field), key];
    LookupThree(obj, "metadata", Name(field), key);
  }

  /** A call is refused exactly when it must not overwrite and one of its keys is there already. */
  lemma RefusedIff(obj: Json, field: Field, items: map<string, string>, overwrite: bool)
    requires Stored(obj, field)
    ensures Conflicts(obj, field, Some(items), overwrite) <==>
            !overwrite && exists k :: k in items && Lookup(obj, ItemPath(field, k)) != None
  {
    forall k ensures k in Current(obj, field) <==> Lookup(obj, ItemPath(field, k)) != None {
      CurrentIsAtPath(obj, field, k);
    }
  }

  /** An accepted call, one that may overwrite always among them, gives each of its keys the value it names,
      and every other key keeps its own. */
  lemma AcceptedItemsAreSet(obj: Json, field: Field, items: map<string, string>, overwrite: bool, key: string)
    requires Stored(obj, field)
    requires overwrite || forall k | k in items :: Lookup(obj, ItemPath(field, k)) == None
    ensures var after := Patched(obj, field, Some(items), overwrite);
            Lookup(after, ItemPath(field, key)) ==
            if key in items then Some(Str(items[key])) else Lookup(obj, ItemPath(field, key))
  {
    RefusedIff(obj, field, items, overwrite);
    AcceptedCallUpdatesIff(obj, field, Some(items), overwrite);
    CurrentIsAtPath(obj, field, key);
    CurrentIsAtPath(Patched(obj, field, Some(items), overwrite), field, key);
  }

  lemma OtherMapUntouched(obj: Json, field: Field, items: Option<map<string, string>>, overwrite: bool, other: Field)
    requires Stored(obj, field) && Stored(obj, other) && other != field
    ensures Stored(Patched(obj, field, items, overwrite), other)
    ensures Current(Patched(obj, field, items, overwrite), other) == Current(obj, other)
  {
    PatchUnfolds(obj, field, items);
    assert Name(other) != Name(field);
    assert At(Patched(obj, field, items, overwrite), other) == At(obj, other);
  }

  datatype Call = Call(field: Field, items: Option<map<string, string>>, overwrite: bool)

  /** The object after a sequence of label and annotate calls. */
  function Run(obj: Json, calls: seq<Call>): Json {
    if calls == [] then obj
    else
      var c := calls[|calls| - 1];
      Patched(Run(obj, calls[..|calls| - 1]), c.field, c.items, c.overwrite)
  }

  /** Every value of the map in `before` is still there in `after`. */
  predicate Kept(before: Json, after: Json, field: Field) {
    forall k | k in Current(before, field) ::
      k in Current(after, field) && Current(after, field)[k] == Current(before, field)[k]
  }

  /** A map is kept when every label (or annotation) path still reads the same. */
  lemma KeptIff(before: Json, after: Json, field: Field)
    requires Stored(before, field) && Stored(after, field)
    ensures Kept(before, after, field) <==>
            forall k | Lookup(before, ItemPath(field, k)) != None ::
              Lookup(after, ItemPath(field, k)) == Lookup(before, ItemPath(field, k))
  {
    forall k ensures (k in Current(before, field) ==>
                        k in Current(after, field) && Current(after, field)[k] == Current(before, field)[k]) <==>
                     (Lookup(before, ItemPath(field, k)) != None ==>
                        Lookup(after, ItemPath(field, k)) == Lookup(before, ItemPath(field, k)))
    {
      CurrentIsAtPath(before, field, k);
      CurrentIsAtPath(after, field, k);
    }
  }

  /** What one call without overwrite does to one of the two maps. */
  lemma CallKeepsOrEmpties(obj: Json, c: Call, field: Field)
    requires Stored(obj, Labels) && Stored(obj, Annotations) && !c.overwrite
    ensures var after := Patched(obj, c.field, c.items, c.overwrite);
            && Stored(after, Labels) && Stored(after, Annotations)
            && if c.field == field && c.items.None? then Current(after, field) == map[] else Kept(obj, after, field)
  {
    OtherMapUntouched(obj, c.field, c.items, c.overwrite, if c.field == Labels then Annotations else Labels);
    if !Conflicts(obj, c.field, c.items, c.overwrite) {
      AcceptedCallUpdatesIff(obj, c.field, c.items, c.overwrite);
    }
  }

  lemma {:induction false} RunStored(obj: Json, calls: seq<Call>)
    requires Stored(obj, Labels) && Stored(obj, Annotations) && forall c | c in calls :: !c.overwrite
    ensures Stored(Run(obj, calls), Labels) && Stored(Run(obj, calls), Annotations)
  {
    if calls != [] {
      RunStored(obj, calls[..|calls| - 1]);
      CallKeepsOrEmpties(Run(obj, calls[..|calls| - 1]), calls[|calls| - 1], Labels);
    }
  }

  lemma {:induction false} GivenItemsKeep(obj: Json, calls: seq<Call>, field: Field)
    requires Stored(obj, Labels) && Stored(obj, Annotations) && forall c | c in calls :: !c.overwrite
    requires forall c | c in calls && c.field == field :: c.items.Some?
    ensures Kept(obj, Run(obj, calls), field)
  {
    if calls != [] {
      var init, last := calls[..|calls| - 1], calls[|calls| - 1];
      GivenItemsKeep(obj, init, field);
      RunStored(obj, init);
      CallKeepsOrEmpties(Run(obj, init), last, field);
    }
  }

  /** Over any sequence of calls without overwrite, no label (or annotation) ever changes value or
      disappears at any moment, exactly when there was none or every label (or annotation) call gives its
      items. */
  lemma NoOverwriteKeepsIff(obj: Json, calls: seq<Call>, field: Field)
    requires Stored(obj, Labels) && Stored(obj, Annotations) && forall c | c in calls :: !c.overwrite
    ensures (forall n | 0 <= n <= |calls| :: Kept(obj, Run(obj, calls[..n]), field)) <==>
            Current(obj, field) == map[] || forall c | c in calls && c.field == field :: c.items.Some?
  {
    if forall c | c in calls && c.field == field :: c.items.Some? {
      forall n | 0 <= n <= |calls| ensures Kept(obj, Run(obj, calls[..n]), field) {
        GivenItemsKeep(obj, calls[..n], field);
      }
    } else {
      var i :| 0 <= i < |calls| && calls[i].field == field && calls[i].items.None?;
      RunStored(obj, calls[..i]);
      CallKeepsOrEmpties(Run(obj, calls[..i]), calls[i], field);
      assert calls[..i + 1][..i] == calls[..i];
      assert Current(Run(obj, calls[..i + 1]), field) == map[];
      if Current(obj, field) != map[] {
        var k :| k in Current(obj, field);
        assert !Kept(obj, Run(obj, calls[..i + 1]), field);
      }
    }
  }

  /** One call without items empties the map although overwrite is off. */
  lemma NilItemsEmptyTheMap()
    ensures var obj := Obj(map["metadata" := Obj(map["labels" := Obj(map["team" := Str("ops")])])]);
            && Stored(obj, Labels) && Current(obj, Labels) == map["team" := "ops"]
            && Current(Run(obj, [Call(Labels, None, false)]), Labels) == map[]
  {
    var obj := Obj(map["metadata" := Obj(map["labels" := Obj(map["team" := Str("ops")])])]);
    var call := Call(Labels, None, false);
    AcceptedCallUpdatesIff(obj, Labels, None, false);
    assert [call][..0] == [];
  }
}
