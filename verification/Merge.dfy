/**
 `_deep_merge` of src/session/service.py on JSON values.

 Dicts are maps; scalars and lists are the values merging never looks into.
 */
module Merging {
  import opened Wrappers

  datatype Json = Dict(fields: map<string, Json>) | Plain(text: string)

  /**
   Merging `delta` over `target`.  The source calls it on two dicts; on a single key it puts the
   delta's value unless both values are dicts.
   */
  function Merge(target: Json, delta: Json): Json
    decreases delta
  {
    if target.Dict? && delta.Dict? then
      Dict(map k | k in target.fields.Keys + delta.fields.Keys ::
        if k !in delta.fields then target.fields[k]
        else if k in target.fields && target.fields[k].Dict? && delta.fields[k].Dict?
        then Merge(target.fields[k], delta.fields[k])
        else delta.fields[k])
    else delta
  }

  /** What merging puts under one key of the delta: a value that is not a dict, or meets none, replaces. */
  lemma {:induction false} MergeField(target: Json, delta: Json, k: string)
    requires target.Dict? && delta.Dict? && k in delta.fields
    ensures var m := Merge(target, delta);
            m.Dict? && k in m.fields
            && m.fields[k] == if k in target.fields then Merge(target.fields[k], delta.fields[k]) else delta.fields[k]
  {
  }

  lemma {:induction false} MergeKeeps(target: Json, delta: Json)
    requires target.Dict? && delta.Dict?
    ensures var m := Merge(target, delta);
            m.Dict? && m.fields.Keys == target.fields.Keys + delta.fields.Keys
            && forall k :: k in target.fields && k !in delta.fields ==> m.fields[k] == target.fields[k]
  {
  }

  /** The loop over delta.items(), in whatever order the items come. */
  method DeepMerge(target: Json, delta: Json) returns (merged: Json)
    requires target.Dict? && delta.Dict?
    ensures merged == Merge(target, delta)
    decreases delta
  {
    hide Merge;
    MergeKeeps(target, delta);
    ghost var whole := Merge(target, delta);
    merged := target;
    var todo := delta.fields.Keys;
    while todo != {}
      invariant merged.Dict? && todo <= delta.fields.Keys
      invariant merged.fields.Keys == target.fields.Keys + (delta.fields.Keys - todo)
      invariant forall k :: k in merged.fields && k in todo ==> merged.fields[k] == target.fields[k]
      invariant forall k :: k in merged.fields && k !in todo ==> merged.fields[k] == whole.fields[k]
      decreases |todo|
    {
      var k :| k in todo;
      var v := delta.fields[k];
      MergeField(target, delta, k);
      if k in merged.fields && merged.fields[k].Dict? && v.Dict? {
        var inner := DeepMerge(merged.fields[k], v);
        merged := Dict(merged.fields[k := inner]);
      } else {
        if k in target.fields { MergeReplaces(target.fields[k], v); }
        merged := Dict(merged.fields[k := v]);
      }
      todo := todo - {k};
    }
    assert merged.fields == whole.fields;
  }

  lemma {:induction false} MergeReplaces(target: Json, delta: Json)
    ensures !(target.Dict? && delta.Dict?) ==> Merge(target, delta) == delta
  {
  }

  // ---------------------------------------------------------------- path by path

  type Path = seq<string>

  function At(v: Json, p: Path): Option<Json> {
    if p == [] then Some(v)
    else if v.Dict? && p[0] in v.fields then At(v.fields[p[0]], p[1..])
    else None
  }

  predicate DictAt(v: Json, p: Path) { At(v, p).Some? && At(v, p).value.Dict? }

  predicate PlainAt(v: Json, p: Path) { At(v, p).Some? && At(v, p).value.Plain? }

  /** A value that is not a dict stands on the way to `p`. */
  predicate PlainAbove(v: Json, p: Path) { exists n :: 0 <= n < |p| && PlainAt(v, p[..n]) }

  lemma {:induction false} PlainAboveStep(v: Json, p: Path)
    requires p != []
    ensures PlainAbove(v, p) <==> v.Plain? || (p[0] in v.fields && PlainAbove(v.fields[p[0]], p[1..]))
  {
    if v.Plain? {
      assert PlainAt(v, p[..0]);
    } else if p[0] in v.fields {
      var w, q := v.fields[p[0]], p[1..];
      forall n | 0 <= n < |q| ensures PlainAt(w, q[..n]) <==> PlainAt(v, p[..n + 1]) {
        assert p[..n + 1][1..] == q[..n];
      }
      if PlainAbove(v, p) {
        var n :| 0 <= n < |p| && PlainAt(v, p[..n]);
        assert PlainAt(w, q[..n - 1]);
      }
    } else {
      forall n | 0 <= n < |p| ensures !PlainAt(v, p[..n]) {
        if n > 0 { assert p[..n][0] == p[0]; }
      }
    }
  }

  /** What the merge holds at every path, in terms of what the two dicts hold there. */
  function MergedAt(t: Json, d: Json, p: Path): Option<Json> {
    match At(d, p)
    case Some(v) => Some(if v.Dict? && DictAt(t, p) then Merge(At(t, p).value, v) else v)
    case None => if PlainAbove(d, p) then None else At(t, p)
  }

  lemma {:induction false} MergeAt(t: Json, d: Json, p: Path)
    ensures At(Merge(t, d), p) == MergedAt(t, d, p)
    decreases |p|
  {
    if p == [] {
    } else {
      PlainAboveStep(d, p);
      if t.Dict? && d.Dict? && p[0] in t.fields && p[0] in d.fields {
        MergeAt(t.fields[p[0]], d.fields[p[0]], p[1..]);
      }
    }
  }

  lemma {:induction false} PlainNotAbove(v: Json, p: Path)
    requires At(v, p).Some?
    ensures !PlainAbove(v, p)
    decreases |p|
  {
    if p == [] {
    } else {
      PlainAboveStep(v, p);
      PlainNotAbove(v.fields[p[0]], p[1..]);
    }
  }

  // ---------------------------------------------------------------- the algebra

  lemma {:induction false} AtStep(v: Json, p: Path, q: Path)
    ensures At(v, p + q) == if At(v, p).Some? then At(At(v, p).value, q) else None
    decreases |p|
  {
    if p == [] {
      assert p + q == q;
    } else {
      assert (p + q)[0] == p[0] && (p + q)[1..] == p[1..] + q;
      if v.Dict? && p[0] in v.fields { AtStep(v.fields[p[0]], p[1..], q); }
    }
  }

  /** Plain text `s` is merged in at `p` exactly when the delta has it there, or leaves it alone there. */
  lemma {:induction false} MergedPlain(t: Json, d: Json, p: Path, s: string)
    ensures At(Merge(t, d), p) == Some(Plain(s)) <==>
            At(d, p) == Some(Plain(s)) || (At(d, p).None? && !PlainAbove(d, p) && At(t, p) == Some(Plain(s)))
  {
    MergeAt(t, d, p);
    if DictAt(t, p) && DictAt(d, p) { assert Merge(At(t, p).value, At(d, p).value).Dict?; }
  }

  lemma {:induction false} MergedDict(t: Json, d: Json, p: Path)
    ensures DictAt(Merge(t, d), p) <==>
            DictAt(d, p) || (At(d, p).None? && !PlainAbove(d, p) && DictAt(t, p))
  {
    MergeAt(t, d, p);
    if DictAt(t, p) && DictAt(d, p) { assert Merge(At(t, p).value, At(d, p).value).Dict?; }
  }

  /** Those two facts pin the merge down: values that agree on them at every path are equal. */
  lemma {:induction false} SameAtEveryPath(v: Json, w: Json)
    requires forall p, s :: At(v, p) == Some(Plain(s)) <==> At(w, p) == Some(Plain(s))
    requires forall p :: DictAt(v, p) <==> DictAt(w, p)
    ensures v == w
    decreases v
  {
    if v.Plain? {
      assert At(v, []) == Some(Plain(v.text));
    } else {
      assert DictAt(v, []);
      assert DictAt(w, []);
      forall k ensures k in v.fields <==> k in w.fields {
        SameKey(v, w, k);
        SameKey(w, v, k);
      }
      forall k | k in v.fields ensures v.fields[k] == w.fields[k] {
        forall p, s ensures At(v.fields[k], p) == Some(Plain(s)) <==> At(w.fields[k], p) == Some(Plain(s)) {
          assert ([k] + p)[1..] == p;
          assert At(v, [k] + p) == At(v.fields[k], p) && At(w, [k] + p) == At(w.fields[k], p);
        }
        forall p ensures DictAt(v.fields[k], p) <==> DictAt(w.fields[k], p) {
          assert ([k] + p)[1..] == p;
          assert At(v, [k] + p) == At(v.fields[k], p) && At(w, [k] + p) == At(w.fields[k], p);
          assert DictAt(v, [k] + p) <==> DictAt(w, [k] + p);
        }
        SameAtEveryPath(v.fields[k], w.fields[k]);
      }
      assert v.fields == w.fields;
    }
  }

  lemma {:induction false} SameKey(v: Json, w: Json, k: string)
    requires v.Dict? && w.Dict?
    requires forall p, s :: At(v, p) == Some(Plain(s)) <==> At(w, p) == Some(Plain(s))
    requires forall p :: DictAt(v, p) <==> DictAt(w, p)
    ensures k in v.fields ==> k in w.fields
  {
    if k in v.fields {
      var x := v.fields[k];
      assert [k][1..] == [];
      assert At(v, [k]) == Some(x);
      if x.Plain? {
        assert At(w, [k]) == Some(Plain(x.text));
      } else {
        assert DictAt(v, [k]);
        assert DictAt(w, [k]);
      }
    }
  }

  lemma {:induction false} MergeSelf(d: Json)
    ensures Merge(d, d) == d
    decreases d
  {
    if d.Dict? {
      forall k | k in d.fields ensures Merge(d.fields[k], d.fields[k]) == d.fields[k] {
        MergeSelf(d.fields[k]);
      }
      assert Merge(d, d).fields == d.fields;
    }
  }

  /** Merging the same delta again changes nothing. */
  lemma {:induction false} MergeIdempotent(t: Json, d: Json)
    ensures Merge(Merge(t, d), d) == Merge(t, d)
    decreases d
  {
    if t.Dict? && d.Dict? {
      var m := Merge(t, d);
      forall k | k in d.fields ensures Merge(m.fields[k], d.fields[k]) == m.fields[k] {
        if k in t.fields { MergeIdempotent(t.fields[k], d.fields[k]); } else { MergeSelf(d.fields[k]); }
      }
      assert Merge(m, d).fields == m.fields;
    } else {
      MergeSelf(d);
    }
  }

  /** `a` holds no value other than a dict where `b` holds a dict. */
  ghost predicate Compatible(a: Json, b: Json) {
    forall p :: DictAt(b, p) ==> !PlainAt(a, p)
  }

  lemma {:induction false} CompatibleBelow(a: Json, b: Json, k: string)
    requires a.Dict? && b.Dict? && k in a.fields && k in b.fields && Compatible(a, b)
    ensures Compatible(a.fields[k], b.fields[k])
  {
    forall p | DictAt(b.fields[k], p) ensures !PlainAt(a.fields[k], p) {
      assert ([k] + p)[1..] == p;
      assert DictAt(b, [k] + p);
      assert At(a, [k] + p) == At(a.fields[k], p);
    }
  }

  lemma {:induction false} MergeAssociates(t: Json, a: Json, b: Json)
    requires a.Dict? && b.Dict? && Compatible(a, b)
    ensures Merge(Merge(t, a), b) == Merge(t, Merge(a, b))
    decreases b
  {
    if t.Dict? {
      var l, r := Merge(Merge(t, a), b), Merge(t, Merge(a, b));
      assert l.fields.Keys == r.fields.Keys;
      forall k | k in l.fields ensures l.fields[k] == r.fields[k] {
        if k in a.fields && k in b.fields && b.fields[k].Dict? {
          CompatibleBelow(a, b, k);
          assert DictAt(b.fields[k], []) && !PlainAt(a.fields[k], []);
          if k in t.fields { MergeAssociates(t.fields[k], a.fields[k], b.fields[k]); }
        }
      }
      assert l.fields == r.fields;
    }
  }

  // ---------------------------------------------------------------- when it does not associate

  ghost function LongerThanAll(s: set<string>): (k: string)
    ensures forall x :: x in s ==> |x| < |k|
  {
    if s == {} then ""
    else
      var x := Pick(s);
      var k := LongerThanAll(s - {x});
      if |x| < |k| then k else x + "x"
  }

  ghost function Pick(s: set<string>): string
    requires s != {}
    ensures Pick(s) in s
  {
    var x :| x in s; x
  }

  /** A dict that is a dict all along `p` and holds `leaf` under the key `f` at its end. */
  function Nest(p: Path, f: string): Json {
    if p == [] then Dict(map[f := Plain("")]) else Dict(map[p[0] := Nest(p[1..], f)])
  }

  lemma {:induction false} NestAt(p: Path, f: string)
    ensures Nest(p, f).Dict? && At(Nest(p, f), p + [f]) == Some(Plain(""))
  {
    if p == [] {
      assert (p + [f])[1..] == [];
    } else {
      NestAt(p[1..], f);
      assert (p + [f])[0] == p[0] && (p + [f])[1..] == p[1..] + [f];
    }
  }

  lemma {:induction false} DictNotBelowPlain(v: Json, p: Path, f: string)
    requires DictAt(v, p)
    ensures !PlainAbove(v, p + [f])
  {
    PlainNotAbove(v, p);
    forall n | 0 <= n < |p + [f]| ensures !PlainAt(v, (p + [f])[..n]) {
      if n < |p| {
        assert (p + [f])[..n] == p[..n];
      } else {
        assert (p + [f])[..n] == p;
      }
    }
  }

  /** Where `a` is plain and `b` is a dict, a target that is a dict there tells the two groupings apart. */
  lemma {:induction false} GroupingMatters(a: Json, b: Json, p: Path)
    requires a.Dict? && b.Dict? && DictAt(b, p) && PlainAt(a, p)
    ensures exists t: Json :: t.Dict? && Merge(Merge(t, a), b) != Merge(t, Merge(a, b))
  {
    var f := LongerThanAll(At(b, p).value.fields.Keys);
    var t, q := Nest(p, f), p + [f];
    NestAt(p, f);
    AtStep(a, p, [f]);
    AtStep(b, p, [f]);
    DictNotBelowPlain(b, p, f);
    assert q[..|p|] == p && PlainAt(a, q[..|p|]);
    MergeAt(t, a, q);
    MergeAt(Merge(t, a), b, q);
    assert At(Merge(Merge(t, a), b), q).None?;
    MergeAt(a, b, p);
    AtStep(Merge(a, b), p, [f]);
    DictNotBelowPlain(Merge(a, b), p, f);
    MergeAt(t, Merge(a, b), q);
    assert At(Merge(t, Merge(a, b)), q) == Some(Plain(""));
  }

  /** Two deltas may be merged together first, whatever they are applied to, exactly when they are compatible. */
  lemma {:induction false} AssociatesExactlyWhenCompatible(a: Json, b: Json)
    requires a.Dict? && b.Dict?
    ensures (forall t: Json :: t.Dict? ==> Merge(Merge(t, a), b) == Merge(t, Merge(a, b))) <==> Compatible(a, b)
  {
    if Compatible(a, b) {
      forall t: Json | t.Dict? ensures Merge(Merge(t, a), b) == Merge(t, Merge(a, b)) {
        MergeAssociates(t, a, b);
      }
    } else {
      var p :| DictAt(b, p) && PlainAt(a, p);
      GroupingMatters(a, b, p);
    }
  }

  /** {"x": {"y": 1}}, then {"x": 5}, then {"x": {}}: replacing first loses y, merging the deltas first keeps it. */
  lemma {:induction false} GroupingExample()
    ensures var t := Dict(map["x" := Dict(map["y" := Plain("1")])]);
            var a, b := Dict(map["x" := Plain("5")]), Dict(map["x" := Dict(map[])]);
            At(Merge(Merge(t, a), b), ["x", "y"]) == None
            && At(Merge(t, Merge(a, b)), ["x", "y"]) == Some(Plain("1"))
  {
    var t := Dict(map["x" := Dict(map["y" := Plain("1")])]);
    var a, b := Dict(map["x" := Plain("5")]), Dict(map["x" := Dict(map[])]);
    var p := ["x", "y"];
    assert p[1..] == ["y"] && p[1..][1..] == [];
    var empty: Json := Dict(map[]);
    MergeField(t, a, "x");
    MergeField(Merge(t, a), b, "x");
    MergeField(a, b, "x");
    MergeField(t, Merge(a, b), "x");
    MergeKeeps(Dict(map["y" := Plain("1")]), empty);
    assert Merge(Merge(t, a), b).fields["x"] == empty;
    assert At(Merge(Merge(t, a), b), p) == At(empty, p[1..]);
    var inner := Merge(Dict(map["y" := Plain("1")]), empty);
    assert Merge(t, Merge(a, b)).fields["x"] == inner;
    assert At(Merge(t, Merge(a, b)), p) == At(inner, p[1..]) == At(inner.fields["y"], []);
  }
}
