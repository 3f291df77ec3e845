/** Merging a value into a JSON tree at a dotted path. */
module NestedMerge {
  import opened Wrappers
  import opened JsonValues

  type Path = seq<string>

  /** `dotted.split(".")`: never empty. */
  function Split(dotted: string): (parts: Path)
    ensures |parts| >= 1
  {
    if dotted == "" then [""]
    else
      var rest := Split(dotted[1..]);
      if dotted[0] == '.' then [""] + rest else [[dotted[0]] + rest[0]] + rest[1..]
  }

  function Join(parts: Path): string
    requires |parts| >= 1
  {
    if |parts| == 1 then parts[0] else parts[0] + "." + Join(parts[1..])
  }

  /** `Split` cuts at every dot and loses nothing. */
  lemma {:induction false} SplitIsExact(dotted: string)
    ensures Join(Split(dotted)) == dotted
    ensures forall part | part in Split(dotted) :: '.' !in part
  {
    if dotted != "" {
      SplitIsExact(dotted[1..]);
      var rest := Split(dotted[1..]);
      if dotted[0] == '.' {
        assert Split(dotted)[1..] == rest;
      } else {
        assert Split(dotted)[1..] == rest[1..];
      }
    }
  }

  /** `existing.update(value)` when both are objects, otherwise replacement. */
  function Overlay(existing: Json, value: Json): Json {
    if existing.Obj? && value.Obj? then Obj(existing.fields + value.fields) else value
  }

  /** Two objects: the new fields win and the old ones stay; anything else is replaced. */
  lemma OverlaySays(existing: Json, value: Json, f: string)
    ensures existing.Obj? && value.Obj? ==>
              && Overlay(existing, value).Obj?
              && (f in Overlay(existing, value).fields <==> f in existing.fields || f in value.fields)
              && (f in value.fields ==> Overlay(existing, value).fields[f] == value.fields[f])
              && (f in existing.fields && f !in value.fields ==> Overlay(existing, value).fields[f] == existing.fields[f])
    ensures !(existing.Obj? && value.Obj?) ==> Overlay(existing, value) == value
  {
  }

  /** The child at `key`, created empty when missing. */
  function Child(o: Object, key: string): Json {
    if key in o then o[key] else Obj(map[])
  }

  /** `None` stands for the exception raised when an intermediate node is not an object. */
  function MergeAt(o: Object, p: Path, value: Json): Option<Object>
    requires p != []
    decreases |p|
  {
    var child := Child(o, p[0]);
    if |p| == 1 then Some(o[p[0] := Overlay(child, value)])
    else if !child.Obj? then None
    else
      match MergeAt(child.fields, p[1..], value)
      case None => None
      case Some(merged) => Some(o[p[0] := Obj(merged)])
  }

  function Lookup(o: Object, p: Path): Option<Json>
    requires p != []
    decreases |p|
  {
    if p[0] !in o then None
    else if |p| == 1 then Some(o[p[0]])
    else if o[p[0]].Obj? then Lookup(o[p[0]].fields, p[1..])
    else None
  }

  function OrEmpty(j: Option<Json>): Json {
    if j.Some? then j.value else Obj(map[])
  }

  lemma EmptyHasNothing(p: Path)
    requires p != []
    ensures Lookup(map[], p) == None
  {
  }

  lemma {:induction false} LookupBelow(o: Object, p: Path)
    requires |p| > 1
    ensures Lookup(o, p) == if Child(o, p[0]).Obj? then Lookup(Child(o, p[0]).fields, p[1..]) else None
  {
    EmptyHasNothing(p[1..]);
  }

  /** At the path itself: the old value overlaid by the new one. */
  lemma {:induction false} MergedValue(o: Object, p: Path, value: Json)
    requires p != [] && MergeAt(o, p, value).Some?
    ensures Lookup(MergeAt(o, p, value).value, p) == Some(Overlay(OrEmpty(Lookup(o, p)), value))
    decreases |p|
  {
    if |p| > 1 {
      LookupBelow(o, p);
      MergedValue(Child(o, p[0]).fields, p[1..], value);
    }
  }

  lemma PrefixOfTails(p: Path, q: Path)
    requires p != [] && q != [] && p[0] == q[0]
    ensures p <= q <==> p[1..] <= q[1..]
  {
    if |p| <= |q| {
      assert p[1..] == q[1..][..|p| - 1] <==> p == q[..|p|] by {
        assert q[1..][..|p| - 1] == q[..|p|][1..];
        assert p == [p[0]] + p[1..] && q[..|p|] == [q[0]] + q[..|p|][1..];
      }
    }
  }

  /** Off the path: every path that neither contains it nor lies under it keeps its value. */
  lemma {:induction false} MergeFrame(o: Object, p: Path, value: Json, q: Path)
    requires p != [] && q != [] && !(p <= q) && !(q <= p) && MergeAt(o, p, value).Some?
    ensures Lookup(MergeAt(o, p, value).value, q) == Lookup(o, q)
    decreases |p|
  {
    if p[0] == q[0] {
      PrefixOfTails(p, q);
      PrefixOfTails(q, p);
      LookupBelow(o, q);
      MergeFrame(Child(o, p[0]).fields, p[1..], value, q[1..]);
    }
  }

  /** Above the path: the containing objects stay objects and gain at most the next key. */
  lemma {:induction false} MergeKeepsContainers(o: Object, p: Path, value: Json, q: Path)
    requires q != [] && q < p && MergeAt(o, p, value).Some?
    ensures OrEmpty(Lookup(o, q)).Obj?
    ensures var after := Lookup(MergeAt(o, p, value).value, q);
            after.Some? && after.value.Obj?
            && after.value.fields.Keys == OrEmpty(Lookup(o, q)).fields.Keys + {p[|q|]}
    decreases |p|
  {
    if |q| > 1 {
      assert q[1..] < p[1..];
      LookupBelow(o, q);
      MergeKeepsContainers(Child(o, p[0]).fields, p[1..], value, q[1..]);
    } else if |p| > 2 {
      assert p[1..][0] == p[1];
    }
  }

  /** The merge fails exactly when some proper prefix of the path already holds something else. */
  lemma {:induction false} MergeFailsExactlyWhen(o: Object, p: Path, value: Json)
    requires p != []
    ensures MergeAt(o, p, value).None? <==>
            exists n :: 0 < n < |p| && Lookup(o, p[..n]).Some? && !Lookup(o, p[..n]).value.Obj?
    decreases |p|
  {
    if |p| > 1 {
      var child := Child(o, p[0]);
      assert p[..1] == [p[0]];
      if child.Obj? {
        MergeFailsExactlyWhen(child.fields, p[1..], value);
        forall n | 1 < n < |p| ensures Lookup(o, p[..n]) == Lookup(child.fields, p[1..][..n - 1]) {
          assert p[..n][1..] == p[1..][..n - 1];
          LookupBelow(o, p[..n]);
        }
        if n :| 0 < n < |p| - 1 && Lookup(child.fields, p[1..][..n]).Some? && !Lookup(child.fields, p[1..][..n]).value.Obj? {
          assert p[1..][..n] == p[1..][..n + 1 - 1];
          assert Lookup(o, p[..n + 1]) == Lookup(child.fields, p[1..][..n]);
        }
      } else {
        assert Lookup(o, p[..1]) == Some(child);
      }
    }
  }

  function MergeBoth(o: Object, p: Path, v: Json, q: Path, w: Json): Option<Object>
    requires p != [] && q != []
  {
    match MergeAt(o, p, v)
    case None => None
    case Some(first) => MergeAt(first, q, w)
  }

  /** Merges at unrelated paths commute, in what they store and in whether they fail. */
  lemma {:induction false} UnrelatedMergesCommute(o: Object, p: Path, v: Json, q: Path, w: Json)
    requires p != [] && q != [] && !(p <= q) && !(q <= p)
    ensures MergeBoth(o, p, v, q, w) == MergeBoth(o, q, w, p, v)
    decreases |p|
  {
    if p[0] == q[0] {
      PrefixOfTails(p, q);
      PrefixOfTails(q, p);
      var child := Child(o, p[0]);
      if child.Obj? {
        UnrelatedMergesCommute(child.fields, p[1..], v, q[1..], w);
        MergeTwiceBelow(o, p, v, q, w);
        MergeTwiceBelow(o, q, w, p, v);
      }
    } else {
      MergeTwiceApart(o, p, v, q, w);
      MergeTwiceApart(o, q, w, p, v);
      var a, b := NewChild(o, p, v), NewChild(o, q, w);
      if a.Some? && b.Some? {
        assert map[p[0] := a.value, q[0] := b.value] == map[q[0] := b.value, p[0] := a.value];
      }
    }
  }

  lemma MergeTwiceBelow(o: Object, p: Path, v: Json, q: Path, w: Json)
    requires |p| > 1 && |q| > 1 && p[0] == q[0] && Child(o, p[0]).Obj?
    ensures MergeBoth(o, p, v, q, w) ==
            match MergeBoth(Child(o, p[0]).fields, p[1..], v, q[1..], w)
            case None => None
            case Some(merged) => Some(o[p[0] := Obj(merged)])
  {
    var first := MergeAt(Child(o, p[0]).fields, p[1..], v);
    if first.Some? {
      var once := o[p[0] := Obj(first.value)];
      assert MergeAt(o, p, v) == Some(once) && Child(once, q[0]) == Obj(first.value);
      var second := MergeAt(first.value, q[1..], w);
      if second.Some? {
        assert once[p[0] := Obj(second.value)] == o[p[0] := Obj(second.value)];
      }
    }
  }

  /** The value a merge leaves under the first key of its path. */
  function NewChild(o: Object, p: Path, v: Json): Option<Json>
    requires p != []
  {
    if MergeAt(o, p, v).Some? then Some(MergeAt(o, p, v).value[p[0]]) else None
  }

  lemma MergeTwiceApart(o: Object, p: Path, v: Json, q: Path, w: Json)
    requires p != [] && q != [] && p[0] != q[0]
    ensures var a, b := NewChild(o, p, v), NewChild(o, q, w);
            MergeBoth(o, p, v, q, w) ==
            if a.Some? && b.Some? then Some(o + map[p[0] := a.value, q[0] := b.value]) else None
  {
    var first := MergeAt(o, p, v);
    if first.Some? {
      assert first.value == o[p[0] := first.value[p[0]]];
      assert Child(first.value, q[0]) == Child(o, q[0]);
      if MergeAt(o, q, w).Some? {
        assert MergeAt(first.value, q, w) == Some(first.value[q[0] := NewChild(o, q, w).value]);
        assert first.value[q[0] := NewChild(o, q, w).value]
            == o + map[p[0] := NewChild(o, p, v).value, q[0] := NewChild(o, q, w).value];
      }
    }
  }
}
