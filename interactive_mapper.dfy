/**
 * The pure helpers of the interactive mapper: the dotted paths of every dict
 * inside the mission built so far (`getAllProps`), the same mission with its
 * leaves replaced by their type names (`makeMap`), and the list of choices
 * offered for one block.
 */
module InteractiveMapper {
  import opened Common
  import opened Text
  import opened StringUtils
  import opened Json
  import OrderedDict
  import MissionBlocks

  // ---------------------------------------------------------------------------
  // getAllProps
  // ---------------------------------------------------------------------------

  /**
   * `getAllProps(obj, ancestors)`: for every entry of `obj` in insertion
   * order whose value is a dict, the dotted path of that entry followed by the
   * paths inside it.
   */
  function GetAllProps(obj: Value, ancestors: seq<string>): seq<string>
    requires obj.Obj?
  {
    PropsFrom(obj, ancestors, 0)
  }

  function PropsFrom(obj: Value, ancestors: seq<string>, i: nat): seq<string>
    requires obj.Obj?
    decreases obj, |obj.entries| - i, 1
  {
    if i >= |obj.entries| then [] else EntryProps(obj, ancestors, i) + PropsFrom(obj, ancestors, i + 1)
  }

  /** What entry `i` adds: its own path when its value is a dict, then the paths inside that dict. */
  function EntryProps(obj: Value, ancestors: seq<string>, i: nat): seq<string>
    requires obj.Obj? && i < |obj.entries|
    decreases obj, |obj.entries| - i, 0
  {
    var key := obj.entries[i].0;
    var value := obj.entries[i].1;
    if value.Obj? then [KeysToStr(ancestors + [key])] + PropsFrom(value, ancestors + [key], 0) else []
  }

  /** The dict at the end of the key path `ks`, if that is where it leads. */
  predicate IsDictAt(obj: Value, ks: seq<string>) {
    Lookup(obj, ks).Some? && Lookup(obj, ks).value.Obj?
  }

  /** The key paths of the entries whose value is a dict, in the order `getAllProps` visits them. */
  function KeyPaths(obj: Value): seq<seq<string>>
    requires obj.Obj?
  {
    PathsFrom(obj, 0)
  }

  function PathsFrom(obj: Value, i: nat): seq<seq<string>>
    requires obj.Obj?
    decreases obj, |obj.entries| - i, 1
  {
    if i >= |obj.entries| then [] else EntryPaths(obj, i) + PathsFrom(obj, i + 1)
  }

  /** The key paths contributed by entry `i`: its own, then those inside its value. */
  function EntryPaths(obj: Value, i: nat): seq<seq<string>>
    requires obj.Obj? && i < |obj.entries|
    decreases obj, |obj.entries| - i, 0
  {
    var key := obj.entries[i].0;
    var value := obj.entries[i].1;
    if value.Obj? then [[key]] + Under(key, PathsFrom(value, 0)) else []
  }

  function Under(key: string, ps: seq<seq<string>>): (r: seq<seq<string>>)
    ensures |r| == |ps|
    ensures forall j :: 0 <= j < |ps| ==> r[j] == [key] + ps[j]
  {
    seq(|ps|, j requires 0 <= j < |ps| => [key] + ps[j])
  }

  /** The `j`-th string of `props` is the dotted form of `ancestors` followed by the `j`-th key path. */
  predicate Dotted(props: seq<string>, ancestors: seq<string>, paths: seq<seq<string>>) {
    |props| == |paths| && forall j :: 0 <= j < |paths| ==> props[j] == KeysToStr(ancestors + paths[j])
  }

  lemma DottedConcat(p1: seq<string>, p2: seq<string>, ancestors: seq<string>, q1: seq<seq<string>>, q2: seq<seq<string>>)
    requires Dotted(p1, ancestors, q1) && Dotted(p2, ancestors, q2)
    ensures Dotted(p1 + p2, ancestors, q1 + q2)
  {
    forall j | 0 <= j < |q1| + |q2|
      ensures (p1 + p2)[j] == KeysToStr(ancestors + (q1 + q2)[j])
    {
      if j >= |q1| {
        assert (p1 + p2)[j] == p2[j - |q1|] && (q1 + q2)[j] == q2[j - |q1|];
      }
    }
  }

  lemma DottedUnder(inner: seq<string>, ancestors: seq<string>, key: string, innerPaths: seq<seq<string>>)
    requires Dotted(inner, ancestors + [key], innerPaths)
    ensures Dotted([KeysToStr(ancestors + [key])] + inner, ancestors, [[key]] + Under(key, innerPaths))
  {
    var here := [KeysToStr(ancestors + [key])] + inner;
    var herePaths := [[key]] + Under(key, innerPaths);
    forall j | 0 <= j < |herePaths|
      ensures here[j] == KeysToStr(ancestors + herePaths[j])
    {
      if j > 0 {
        assert herePaths[j] == [key] + innerPaths[j - 1];
        assert ancestors + ([key] + innerPaths[j - 1]) == (ancestors + [key]) + innerPaths[j - 1];
      }
    }
  }

  /** The `j`-th path `getAllProps` emits is the dotted form of the `j`-th key path under `ancestors`. */
  lemma {:induction false} PropsArePaths(obj: Value, ancestors: seq<string>, i: nat)
    requires obj.Obj?
    ensures Dotted(PropsFrom(obj, ancestors, i), ancestors, PathsFrom(obj, i))
    decreases obj, |obj.entries| - i, 1
  {
    if i < |obj.entries| {
      EntryPropsArePaths(obj, ancestors, i);
      PropsArePaths(obj, ancestors, i + 1);
      DottedConcat(EntryProps(obj, ancestors, i), PropsFrom(obj, ancestors, i + 1), ancestors,
        EntryPaths(obj, i), PathsFrom(obj, i + 1));
    }
  }

  lemma {:induction false} EntryPropsArePaths(obj: Value, ancestors: seq<string>, i: nat)
    requires obj.Obj? && i < |obj.entries|
    ensures Dotted(EntryProps(obj, ancestors, i), ancestors, EntryPaths(obj, i))
    decreases obj, |obj.entries| - i, 0
  {
    var key := obj.entries[i].0;
    var value := obj.entries[i].1;
    if value.Obj? {
      PropsArePaths(value, ancestors + [key], 0);
      DottedUnder(PropsFrom(value, ancestors + [key], 0), ancestors, key, PathsFrom(value, 0));
    }
  }

  /** Every key path is non-empty and leads through dicts of `obj` to a dict. */
  lemma {:induction false} PathsSound(obj: Value, i: nat)
    requires obj.Obj? && WellFormed(obj)
    ensures forall j :: 0 <= j < |PathsFrom(obj, i)| ==>
      |PathsFrom(obj, i)[j]| >= 1 && IsDictAt(obj, PathsFrom(obj, i)[j])
    decreases obj, |obj.entries| - i
  {
    if i < |obj.entries| {
      var es := obj.entries;
      var key := es[i].0;
      var value := es[i].1;
      PathsSound(obj, i + 1);
      OrderedDict.GetSpec(es, key);
      assert OrderedDict.Get(es, key) == Some(value);
      if value.Obj? {
        var inner := PathsFrom(value, 0);
        PathsSound(value, 0);
        forall j | 0 <= j < |inner|
          ensures IsDictAt(obj, [key] + inner[j])
        {
          assert ([key] + inner[j])[1..] == inner[j];
        }
        assert Lookup(obj, [key]) == Lookup(value, []);
      }
      assert PathsFrom(obj, i) == EntryPaths(obj, i) + PathsFrom(obj, i + 1);
    }
  }

  /** Every key path of entry `i` or a later one is a key path from `i0 <= i` on. */
  lemma {:induction false} PathsFromIncludes(obj: Value, i0: nat, i: nat, p: seq<string>)
    requires obj.Obj? && i0 <= i < |obj.entries| && p in EntryPaths(obj, i)
    ensures p in PathsFrom(obj, i0)
    decreases i - i0
  {
    if i0 < i {
      PathsFromIncludes(obj, i0 + 1, i, p);
    }
  }

  /** Every non-empty key path that leads to a dict is one of the key paths. */
  lemma {:induction false} PathsComplete(obj: Value, ks: seq<string>)
    requires obj.Obj? && WellFormed(obj)
    requires |ks| >= 1 && IsDictAt(obj, ks)
    ensures ks in KeyPaths(obj)
    decreases obj
  {
    var es := obj.entries;
    var c := OrderedDict.Get(es, ks[0]).value;
    OrderedDict.GetSpec(es, ks[0]);
    var i :| 0 <= i < |es| && es[i] == (ks[0], c);
    assert Lookup(obj, ks) == Lookup(c, ks[1..]);
    assert c.Obj?;
    if |ks| == 1 {
      assert ks == [ks[0]];
      assert ks in EntryPaths(obj, i);
    } else {
      PathsComplete(c, ks[1..]);
      HeadTail(ks);
      EntryPathsUnder(obj, i, ks[1..]);
    }
    PathsFromIncludes(obj, 0, i, ks);
  }

  /** A key path inside a dict-valued entry, prefixed by the entry's key, is one of the entry's key paths. */
  lemma EntryPathsUnder(obj: Value, i: nat, p: seq<string>)
    requires obj.Obj? && i < |obj.entries| && obj.entries[i].1.Obj?
    requires p in PathsFrom(obj.entries[i].1, 0)
    ensures [obj.entries[i].0] + p in EntryPaths(obj, i)
  {
    var inner := PathsFrom(obj.entries[i].1, 0);
    var j :| 0 <= j < |inner| && inner[j] == p;
    var under := Under(obj.entries[i].0, inner);
    assert EntryPaths(obj, i) == [[obj.entries[i].0]] + under;
    assert EntryPaths(obj, i)[j + 1] == under[j];
  }

  /** Every key path from entry `i` on starts with the key of entry `i` or a later one. */
  lemma {:induction false} PathsHeads(obj: Value, i: nat)
    requires obj.Obj?
    ensures forall j :: 0 <= j < |PathsFrom(obj, i)| ==>
      |PathsFrom(obj, i)[j]| >= 1 &&
      exists t :: i <= t < |obj.entries| && PathsFrom(obj, i)[j][0] == obj.entries[t].0
    decreases |obj.entries| - i
  {
    if i < |obj.entries| {
      PathsHeads(obj, i + 1);
      assert PathsFrom(obj, i) == EntryPaths(obj, i) + PathsFrom(obj, i + 1);
    }
  }

  /** No key path is listed twice: `getAllProps` yields exactly one path per dict-valued entry. */
  lemma {:induction false} PathsDistinct(obj: Value, i: nat)
    requires obj.Obj? && WellFormed(obj)
    ensures forall a, b :: 0 <= a < b < |PathsFrom(obj, i)| ==> PathsFrom(obj, i)[a] != PathsFrom(obj, i)[b]
    decreases obj, |obj.entries| - i
  {
    if i < |obj.entries| {
      var es := obj.entries;
      var key := es[i].0;
      var value := es[i].1;
      var here := EntryPaths(obj, i);
      var rest := PathsFrom(obj, i + 1);
      PathsDistinct(obj, i + 1);
      PathsHeads(obj, i + 1);
      assert PathsFrom(obj, i) == here + rest;
      forall j | 0 <= j < |here|
        ensures |here[j]| >= 1 && here[j][0] == key
      {
      }
      if value.Obj? {
        var inner := PathsFrom(value, 0);
        PathsDistinct(value, 0);
        PathsHeads(value, 0);
        forall a, b | 0 <= a < b < |here|
          ensures here[a] != here[b]
        {
          if a == 0 {
            assert |here[b]| == 1 + |inner[b - 1]| >= 2;
          } else {
            assert here[a][1..] == inner[a - 1] && here[b][1..] == inner[b - 1];
          }
        }
      }
      forall a, b | 0 <= a < |here| && 0 <= b < |rest|
        ensures here[a] != rest[b]
      {
        var t :| i + 1 <= t < |es| && rest[b][0] == es[t].0;
        assert es[i].0 != es[t].0;
      }
    }
  }

  /** Every path of length two or more is preceded by the path of the dict that holds it. */
  predicate ParentFirst(ps: seq<seq<string>>) {
    forall j :: 0 <= j < |ps| && |ps[j]| >= 2 ==> exists j' :: 0 <= j' < j && ps[j'] == ps[j][..|ps[j]| - 1]
  }

  lemma ParentFirstConcat(a: seq<seq<string>>, b: seq<seq<string>>)
    requires ParentFirst(a) && ParentFirst(b)
    ensures ParentFirst(a + b)
  {
    var ab := a + b;
    forall j | |a| <= j < |ab| && |ab[j]| >= 2
      ensures exists j' :: 0 <= j' < j && ab[j'] == ab[j][..|ab[j]| - 1]
    {
      assert ab[j] == b[j - |a|];
      var j' :| 0 <= j' < j - |a| && b[j'] == b[j - |a|][..|b[j - |a|]| - 1];
      assert ab[j' + |a|] == b[j'];
    }
    forall j | 0 <= j < |a| && |ab[j]| >= 2
      ensures exists j' :: 0 <= j' < j && ab[j'] == ab[j][..|ab[j]| - 1]
    {
      assert ab[j] == a[j];
      var j' :| 0 <= j' < j && a[j'] == a[j][..|a[j]| - 1];
      assert ab[j'] == a[j'];
    }
  }

  lemma ParentFirstUnder(key: string, inner: seq<seq<string>>)
    requires ParentFirst(inner)
    requires forall j :: 0 <= j < |inner| ==> |inner[j]| >= 1
    ensures ParentFirst([[key]] + Under(key, inner))
  {
    var here := [[key]] + Under(key, inner);
    forall j | 0 <= j < |here| && |here[j]| >= 2
      ensures exists j' :: 0 <= j' < j && here[j'] == here[j][..|here[j]| - 1]
    {
      assert j >= 1 && here[j] == [key] + inner[j - 1];
      var q := inner[j - 1];
      if |q| >= 2 {
        var j' :| 0 <= j' < j - 1 && inner[j'] == q[..|q| - 1];
        assert here[j' + 1] == [key] + inner[j'];
        ConsDropLast(key, q);
      } else {
        ConsDropLast(key, q);
        assert q[..0] == [];
        assert here[j][..|here[j]| - 1] == [key] + [] == here[0];
      }
    }
  }

  /** A dict-valued entry's path comes after the path of the dict that holds it. */
  lemma {:induction false} PathsParentFirst(obj: Value, i: nat)
    requires obj.Obj?
    ensures ParentFirst(PathsFrom(obj, i))
    decreases obj, |obj.entries| - i
  {
    if i < |obj.entries| {
      var value := obj.entries[i].1;
      PathsParentFirst(obj, i + 1);
      if value.Obj? {
        PathsParentFirst(value, 0);
        PathsHeads(value, 0);
        ParentFirstUnder(obj.entries[i].0, PathsFrom(value, 0));
      }
      ParentFirstConcat(EntryPaths(obj, i), PathsFrom(obj, i + 1));
    }
  }

  /** No key of any dict inside `v` contains '.'. */
  predicate DotFree(v: Value)
    decreases v
  {
    match v
    case Obj(es) => forall i :: 0 <= i < |es| ==> '.' !in es[i].0 && DotFree(es[i].1)
    case _ => true
  }

  lemma {:induction false} PathsDotFree(obj: Value, i: nat)
    requires obj.Obj? && DotFree(obj)
    ensures forall j, t :: 0 <= j < |PathsFrom(obj, i)| && 0 <= t < |PathsFrom(obj, i)[j]| ==>
      '.' !in PathsFrom(obj, i)[j][t]
    decreases obj, |obj.entries| - i
  {
    if i < |obj.entries| {
      PathsDotFree(obj, i + 1);
      var value := obj.entries[i].1;
      if value.Obj? {
        PathsDotFree(value, 0);
        var inner := PathsFrom(value, 0);
        forall j, t | 0 <= j < |inner| && 0 <= t < 1 + |inner[j]|
          ensures '.' !in ([obj.entries[i].0] + inner[j])[t]
        {
          if t > 0 {
            assert ([obj.entries[i].0] + inner[j])[t] == inner[j][t - 1];
          }
        }
      }
      assert PathsFrom(obj, i) == EntryPaths(obj, i) + PathsFrom(obj, i + 1);
    }
  }

  /**
   * When no key contains '.', splitting any offered path with `strToKeys`
   * and indexing the mission with the pieces walks through dicts only and
   * ends at a dict: the target the mapper then writes into.
   */
  lemma GetAllPropsWalk(obj: Value)
    requires obj.Obj? && WellFormed(obj) && DotFree(obj)
    ensures forall p :: p in GetAllProps(obj, []) ==> IsDictAt(obj, StrToKeys(p))
  {
    PropsArePaths(obj, [], 0);
    PathsSound(obj, 0);
    PathsDotFree(obj, 0);
    assert Dotted(GetAllProps(obj, []), [], KeyPaths(obj));
    forall p | p in GetAllProps(obj, [])
      ensures IsDictAt(obj, StrToKeys(p))
    {
      var j :| 0 <= j < |GetAllProps(obj, [])| && GetAllProps(obj, [])[j] == p;
      var ks := KeyPaths(obj)[j];
      assert [] + ks == ks;
      KeysToStrSpec(ks);
    }
  }

  // ---------------------------------------------------------------------------
  // makeMap
  // ---------------------------------------------------------------------------

  /** `makeMap(obj)`: the same dicts, with every non-dict value replaced by its type name. */
  function MakeMap(obj: Value): Value
    requires obj.Obj?
    decreases obj, |obj.entries| + 1
  {
    Obj(MapFrom(obj, |obj.entries|))
  }

  /**
   * The map after the loop has assigned the first `n` entries; the keys of a
   * dict are distinct, so every assignment adds a new key at the end.
   */
  function MapFrom(obj: Value, n: nat): seq<(string, Value)>
    requires obj.Obj? && n <= |obj.entries|
    decreases obj, n
  {
    if n == 0 then []
    else
      var key := obj.entries[n - 1].0;
      var value := obj.entries[n - 1].1;
      MapFrom(obj, n - 1) + [(key, if value.Obj? then MakeMap(value) else Str(TypeName(value)))]
  }

  /** What `makeMap` stores for one value. */
  function MapValue(v: Value): Value
    decreases v, 0
  {
    if v.Obj? then MakeMap(v) else Str(TypeName(v))
  }

  /** Entry `i` of the map holds the key of entry `i` and what `makeMap` stores for its value. */
  lemma {:induction false} MapFromEntries(obj: Value, n: nat)
    requires obj.Obj? && n <= |obj.entries|
    ensures |MapFrom(obj, n)| == n
    ensures forall i :: 0 <= i < n ==> MapFrom(obj, n)[i] == (obj.entries[i].0, MapValue(obj.entries[i].1))
  {
    if n > 0 {
      MapFromEntries(obj, n - 1);
    }
  }

  /** `a` and `b` are dicts with the same keys in the same order, and the same nesting of dicts. */
  predicate SameShape(a: Value, b: Value)
    decreases a
  {
    && a.Obj? && b.Obj?
    && OrderedDict.Keys(a.entries) == OrderedDict.Keys(b.entries)
    && forall i :: 0 <= i < |a.entries| ==>
      (a.entries[i].1.Obj? <==> b.entries[i].1.Obj?) &&
      (a.entries[i].1.Obj? ==> SameShape(a.entries[i].1, b.entries[i].1))
  }

  /** Every non-dict value inside `v` is a string. */
  predicate StringLeaves(v: Value)
    decreases v
  {
    v.Obj? && forall i :: 0 <= i < |v.entries| ==>
      (v.entries[i].1.Obj? ==> StringLeaves(v.entries[i].1)) && (!v.entries[i].1.Obj? ==> v.entries[i].1.Str?)
  }

  /**
   * `makeMap` keeps the keys, their order and the dict nesting at every
   * level, turns every other value into its type name, and is again a
   * well-formed dict.
   */
  lemma {:induction false} MakeMapSpec(obj: Value)
    requires obj.Obj? && WellFormed(obj)
    ensures SameShape(obj, MakeMap(obj))
    ensures StringLeaves(MakeMap(obj))
    ensures WellFormed(MakeMap(obj))
    ensures forall i :: 0 <= i < |obj.entries| && !obj.entries[i].1.Obj? ==>
      MakeMap(obj).entries[i].1 == Str(TypeName(obj.entries[i].1))
    decreases obj
  {
    var es := obj.entries;
    var r := MakeMap(obj);
    MapFromEntries(obj, |es|);
    forall i | 0 <= i < |es| && es[i].1.Obj?
      ensures SameShape(es[i].1, r.entries[i].1) && StringLeaves(r.entries[i].1) && WellFormed(r.entries[i].1)
    {
      MakeMapSpec(es[i].1);
    }
    assert OrderedDict.Keys(es) == OrderedDict.Keys(r.entries);
    assert OrderedDict.DistinctKeys(r.entries) by {
      forall a, b | 0 <= a < b < |r.entries| ensures r.entries[a].0 != r.entries[b].0 {
        assert r.entries[a].0 == es[a].0 && r.entries[b].0 == es[b].0;
      }
    }
  }

  /** Two dicts of the same shape offer the same paths. */
  lemma {:induction false} SameShapeProps(a: Value, b: Value, ancestors: seq<string>, i: nat)
    requires SameShape(a, b)
    ensures PropsFrom(a, ancestors, i) == PropsFrom(b, ancestors, i)
    decreases a, |a.entries| - i
  {
    assert |a.entries| == |OrderedDict.Keys(a.entries)| == |b.entries|;
    if i < |a.entries| {
      assert a.entries[i].0 == OrderedDict.Keys(a.entries)[i] == b.entries[i].0;
      SameShapeProps(a, b, ancestors, i + 1);
      if a.entries[i].1.Obj? {
        SameShapeProps(a.entries[i].1, b.entries[i].1, ancestors + [a.entries[i].0], 0);
      }
    }
  }

  /** The structure the mapper shows has exactly the targets the mission offers. */
  lemma MakeMapSameProps(obj: Value)
    requires obj.Obj? && WellFormed(obj)
    ensures GetAllProps(MakeMap(obj), []) == GetAllProps(obj, [])
  {
    MakeMapSpec(obj);
    SameShapeProps(obj, MakeMap(obj), [], 0);
  }

  // ---------------------------------------------------------------------------
  // The choices offered for one block
  // ---------------------------------------------------------------------------

  const DropOption := "drop"
  const EditKeyOption := "edit key"
  const EditContentOption := "edit content"
  const RootOption := "root"

  /** The special options: editing the content is offered only for text or an empty dict. */
  function SpecialOptions(content: MissionBlocks.Content): seq<string> {
    var all := [DropOption, EditKeyOption, EditContentOption];
    if content.Sections? && |content.entries| > 0 then [DropOption, EditKeyOption] else all
  }

  /** The full choice list: the special options, then the root, then every dict of the mission. */
  function Options(content: MissionBlocks.Content, mission: Value): seq<string>
    requires mission.Obj?
  {
    SpecialOptions(content) + [RootOption] + GetAllProps(mission, [])
  }

  /**
   * "drop" and "edit key" are always offered; "edit content" is a special
   * option exactly when the content is text or an empty dict; the root comes
   * right after the special options and the mission's paths follow it.
   */
  lemma OptionsSpec(content: MissionBlocks.Content, mission: Value)
    requires mission.Obj?
    ensures DropOption in SpecialOptions(content) && EditKeyOption in SpecialOptions(content)
    ensures EditContentOption in SpecialOptions(content) <==> content.Plain? || |content.entries| == 0
    ensures var ops := Options(content, mission);
      && ops[|SpecialOptions(content)|] == RootOption
      && ops[|SpecialOptions(content)| + 1..] == GetAllProps(mission, [])
  {
    var ops := Options(content, mission);
    assert ops == (SpecialOptions(content) + [RootOption]) + GetAllProps(mission, []);
    if content.Sections? && |content.entries| > 0 {
      assert SpecialOptions(content) == [DropOption, EditKeyOption];
      assert EditContentOption != DropOption && EditContentOption != EditKeyOption;
    }
  }
}
