/**
 * `blocksToMissionInfo`: the text blocks of one mission folded into its
 * record. The record starts with the title-cased name and an empty
 * `scenario_special_rules` dict; every block with content is stored under
 * its key, at the top level until the block keyed `scenario_special_rules`
 * has been seen, and inside that entry afterwards.
 */
module MissionInfo {
  import opened Common
  import opened Text
  import opened StringUtils
  import opened Json
  import OrderedDict
  import opened MissionBlocks

  const NameKey := "name"
  const SpecialRulesKey := "scenario_special_rules"

  /**
   * The one way the fold fails: the `scenario_special_rules` entry was
   * replaced by a text body, and a later block is then stored into it as if it
   * were a dict (Python raises `TypeError`).
   */
  datatype InfoError = NotADict(key: string)

  /** A block's content as the record stores it. */
  function ContentValue(c: Content): Value {
    match c
    case Plain(t) => Str(t)
    case Sections(es) => Obj(seq(|es|, i requires 0 <= i < |es| => (es[i].0, Str(es[i].1))))
  }

  /** The record before any block, for the title-cased mission name `title`. */
  function Initial(title: string): seq<(string, Value)> {
    [(NameKey, Str(title)), (SpecialRulesKey, Obj([]))]
  }

  /** The loop state: the record and the `isAfterSpecialRule` flag. */
  datatype Fold = Fold(info: seq<(string, Value)>, afterSpecialRules: bool)

  /**
   * `info["scenario_special_rules"][k] = v`: an error when that entry is not
   * a dict.
   */
  function StoreNested(info: seq<(string, Value)>, k: string, v: Value): Result<seq<(string, Value)>, InfoError> {
    var current := OrderedDict.Get(info, SpecialRulesKey);
    if current.Some? && current.value.Obj? then
      Ok(OrderedDict.Put(info, SpecialRulesKey, Obj(OrderedDict.Put(current.value.entries, k, v))))
    else Err(NotADict(k))
  }

  /** One iteration of the loop. */
  function Step(f: Fold, b: TextBlock): Result<Fold, InfoError> {
    if Size(b.content) == 0 then Ok(Fold(f.info, f.afterSpecialRules || b.key == SpecialRulesKey))
    else if f.afterSpecialRules then
      match StoreNested(f.info, b.key, ContentValue(b.content))
      case Err(e) => Err(e)
      case Ok(info) => Ok(Fold(info, true))
    else Ok(Fold(OrderedDict.Put(f.info, b.key, ContentValue(b.content)), b.key == SpecialRulesKey))
  }

  /** The loop state after one more block, once the loop has not failed. */
  function Then(r: Result<Fold, InfoError>, b: TextBlock): Result<Fold, InfoError> {
    match r
    case Err(e) => Err(e)
    case Ok(f) => Step(f, b)
  }

  /** The loop state after the first `n` blocks. */
  function MissionFold(title: string, blocks: seq<TextBlock>, n: nat): Result<Fold, InfoError>
    requires n <= |blocks|
  {
    if n == 0 then Ok(Fold(Initial(title), false))
    else Then(MissionFold(title, blocks, n - 1), blocks[n - 1])
  }

  function MissionInfoOf(title: string, blocks: seq<TextBlock>): Result<seq<(string, Value)>, InfoError>
  {
    match MissionFold(title, blocks, |blocks|)
    case Err(e) => Err(e)
    case Ok(f) => Ok(f.info)
  }

  lemma {:induction false} FoldErrorSticks(title: string, blocks: seq<TextBlock>, n: nat, m: nat)
    requires n <= m <= |blocks|
    requires MissionFold(title, blocks, n).Err?
    ensures MissionFold(title, blocks, m) == MissionFold(title, blocks, n)
    decreases m - n
  {
    if n < m {
      FoldErrorSticks(title, blocks, n, m - 1);
    }
  }

  /** One more block, once the loop has not failed. */
  lemma MissionFoldNext(title: string, blocks: seq<TextBlock>, n: nat, f: Fold)
    requires n < |blocks| && MissionFold(title, blocks, n) == Ok(f)
    ensures MissionFold(title, blocks, n + 1) == Step(f, blocks[n])
  {
  }

  /** The body of the loop of `blocksToMissionInfo`: one block stored into the record. */
  method StoreBlock(info: seq<(string, Value)>, isAfterSpecialRule: bool, block: TextBlock)
    returns (r: Result<Fold, InfoError>)
    ensures r == Step(Fold(info, isAfterSpecialRule), block)
  {
    var info' := info;
    if Size(block.content) > 0 {
      var value := ContentValue(block.content);
      if isAfterSpecialRule {
        var rules := OrderedDict.Get(info, SpecialRulesKey);
        if !(rules.Some? && rules.value.Obj?) {
          return Err(NotADict(block.key));
        }
        info' := OrderedDict.Put(info, SpecialRulesKey, Obj(OrderedDict.Put(rules.value.entries, block.key, value)));
      } else {
        info' := OrderedDict.Put(info, block.key, value);
      }
    }
    r := Ok(Fold(info', isAfterSpecialRule || block.key == SpecialRulesKey));
  }

  /** `blocksToMissionInfo(title, blocks)`. */
  method BlocksToMissionInfo(missionName: string, blocks: seq<TextBlock>) returns (r: Result<seq<(string, Value)>, InfoError>)
    requires TitleCaseable(missionName)
    ensures r == MissionInfoOf(ToTitle(missionName), blocks)
  {
    var title := ToTitle(missionName);
    var info := Initial(title);
    var isAfterSpecialRule := false;
    var n := 0;
    while n < |blocks|
      invariant n <= |blocks|
      invariant MissionFold(title, blocks, n) == Ok(Fold(info, isAfterSpecialRule))
    {
      MissionFoldNext(title, blocks, n, Fold(info, isAfterSpecialRule));
      var next := StoreBlock(info, isAfterSpecialRule, blocks[n]);
      if next.Err? {
        FoldErrorSticks(title, blocks, n + 1, |blocks|);
        return Err(next.error);
      }
      info := next.value.info;
      isAfterSpecialRule := next.value.afterSpecialRules;
      n := n + 1;
    }
    r := Ok(info);
  }

  // ---------------------------------------------------------------------------
  // The record described without the loop
  // ---------------------------------------------------------------------------

  /** The index of the first block keyed `scenario_special_rules`, or `|blocks|` when there is none. */
  function FirstSpecialRules(blocks: seq<TextBlock>): (f: nat)
    ensures f <= |blocks|
    ensures forall j :: 0 <= j < f ==> blocks[j].key != SpecialRulesKey
    ensures f < |blocks| ==> blocks[f].key == SpecialRulesKey
  {
    if |blocks| == 0 then 0
    else if blocks[0].key == SpecialRulesKey then 0
    else 1 + FirstSpecialRules(blocks[1..])
  }

  /** The blocks stored at the top level: up to and including the first `scenario_special_rules` block. */
  function Before(blocks: seq<TextBlock>): seq<TextBlock> {
    var f := FirstSpecialRules(blocks);
    if f < |blocks| then blocks[..f + 1] else blocks
  }

  /** The blocks after the first `scenario_special_rules` block. */
  function After(blocks: seq<TextBlock>): seq<TextBlock> {
    var f := FirstSpecialRules(blocks);
    if f < |blocks| then blocks[f + 1..] else []
  }

  /** The assignment one block makes: none when it has no content. */
  function Assignment(b: TextBlock): seq<(string, Value)> {
    if Size(b.content) > 0 then [(b.key, ContentValue(b.content))] else []
  }

  /** The `(key, content)` assignments of the blocks that have content, in order. */
  function Stored(bs: seq<TextBlock>): seq<(string, Value)>
  {
    if |bs| == 0 then [] else Stored(bs[..|bs| - 1]) + Assignment(bs[|bs| - 1])
  }

  /** The top level of the record: the initial record with every stored block before the nesting assigned. */
  function TopLevel(title: string, blocks: seq<TextBlock>): seq<(string, Value)>
  {
    OrderedDict.PutAll(Initial(title), Stored(Before(blocks)))
  }

  /**
   * The record once the assignments `nested` are made inside the
   * `scenario_special_rules` entry of `top`: an error if that entry is not a
   * dict and there is something to assign.
   */
  function Nest(top: seq<(string, Value)>, nested: seq<(string, Value)>): Result<seq<(string, Value)>, InfoError> {
    if |nested| == 0 then Ok(top)
    else
      var current := OrderedDict.Get(top, SpecialRulesKey);
      if current.Some? && current.value.Obj? then
        Ok(OrderedDict.Put(top, SpecialRulesKey, Obj(OrderedDict.PutAll(current.value.entries, nested))))
      else Err(NotADict(nested[0].0))
  }

  /** The whole record, stated in two phases instead of one loop. */
  function Reference(title: string, blocks: seq<TextBlock>): Result<seq<(string, Value)>, InfoError>
  {
    Nest(TopLevel(title, blocks), Stored(After(blocks)))
  }

  /** The loop state past the nesting point for a record (or error) `r`. */
  function Nested(r: Result<seq<(string, Value)>, InfoError>): Result<Fold, InfoError> {
    match r
    case Err(e) => Err(e)
    case Ok(info) => Ok(Fold(info, true))
  }

  lemma StoredSlice(bs: seq<TextBlock>, lo: nat, n: nat)
    requires lo < n <= |bs|
    ensures Stored(bs[lo..n]) == Stored(bs[lo..n - 1]) + Assignment(bs[n - 1])
  {
    assert bs[lo..n][..n - 1 - lo] == bs[lo..n - 1];
  }

  /** Nesting one more assignment once nesting has failed changes nothing. */
  lemma NestSnocErr(top: seq<(string, Value)>, nested: seq<(string, Value)>, k: string, v: Value)
    requires Nest(top, nested).Err?
    ensures Nest(top, nested + [(k, v)]) == Nest(top, nested)
  {
    assert (nested + [(k, v)])[0] == nested[0];
  }

  /** Nesting one more assignment into a record is one more `StoreNested`. */
  lemma NestSnocOk(top: seq<(string, Value)>, nested: seq<(string, Value)>, k: string, v: Value)
    requires Nest(top, nested).Ok?
    ensures Nest(top, nested + [(k, v)]) == StoreNested(Nest(top, nested).value, k, v)
  {
    var all := nested + [(k, v)];
    assert all[..|all| - 1] == nested;
    assert all[|all| - 1] == (k, v);
    var current := OrderedDict.Get(top, SpecialRulesKey);
    if current.Some? && current.value.Obj? {
      var rules := current.value.entries;
      var inner := OrderedDict.PutAll(rules, nested);
      assert OrderedDict.PutAll(rules, all) == OrderedDict.Put(inner, k, v);
      if |nested| > 0 {
        var info := OrderedDict.Put(top, SpecialRulesKey, Obj(inner));
        assert Nest(top, nested).value == info;
        OrderedDict.PutGet(top, SpecialRulesKey, Obj(inner), SpecialRulesKey);
        OrderedDict.PutPut(top, SpecialRulesKey, Obj(inner), Obj(OrderedDict.Put(inner, k, v)));
        assert StoreNested(info, k, v) == Ok(OrderedDict.Put(info, SpecialRulesKey, Obj(OrderedDict.Put(inner, k, v))));
      } else {
        assert inner == rules;
      }
    } else {
      assert |nested| == 0;
      assert all[0] == (k, v);
    }
  }

  /** One more block past the nesting point. */
  lemma NestStep(top: seq<(string, Value)>, nested: seq<(string, Value)>, b: TextBlock)
    ensures Nested(Nest(top, nested + Assignment(b))) == Then(Nested(Nest(top, nested)), b)
  {
    if Size(b.content) == 0 {
      assert nested + Assignment(b) == nested;
    } else if Nest(top, nested).Err? {
      NestSnocErr(top, nested, b.key, ContentValue(b.content));
    } else {
      NestSnocOk(top, nested, b.key, ContentValue(b.content));
    }
  }

  /** Up to the first `scenario_special_rules` block every block with content is assigned at the top level. */
  lemma {:induction false} FoldBefore(title: string, blocks: seq<TextBlock>, n: nat)
    requires n <= |blocks| && n <= FirstSpecialRules(blocks) + 1
    ensures MissionFold(title, blocks, n) ==
      Ok(Fold(OrderedDict.PutAll(Initial(title), Stored(blocks[..n])), n == FirstSpecialRules(blocks) + 1))
  {
    if n > 0 {
      FoldBefore(title, blocks, n - 1);
      var b := blocks[n - 1];
      var ps' := Stored(blocks[..n - 1]);
      var before := OrderedDict.PutAll(Initial(title), ps');
      StoredSlice(blocks, 0, n);
      assert blocks[0..n] == blocks[..n] && blocks[0..n - 1] == blocks[..n - 1];
      assert (b.key == SpecialRulesKey) == (n == FirstSpecialRules(blocks) + 1);
      assert MissionFold(title, blocks, n) == Step(Fold(before, false), b);
      if Size(b.content) > 0 {
        OrderedDict.PutAllSnoc(Initial(title), ps', b.key, ContentValue(b.content));
      } else {
        assert ps' + Assignment(b) == ps';
      }
    } else {
      assert blocks[..0] == [];
    }
  }

  /**
   * Past the first `scenario_special_rules` block (at `f`) every block with
   * content is assigned inside that entry of the top level `top`.
   */
  lemma {:induction false} FoldAfter(title: string, blocks: seq<TextBlock>, f: nat, top: seq<(string, Value)>, n: nat)
    requires f == FirstSpecialRules(blocks) && f < |blocks| && top == TopLevel(title, blocks)
    requires f + 1 <= n <= |blocks|
    ensures MissionFold(title, blocks, n) == Nested(Nest(top, Stored(blocks[f + 1..n])))
    decreases n
  {
    if n == f + 1 {
      FoldBefore(title, blocks, n);
      assert Before(blocks) == blocks[..n];
      assert blocks[f + 1..n] == [];
      assert Stored(blocks[f + 1..n]) == [];
      assert Nest(top, []) == Ok(top);
    } else {
      FoldAfter(title, blocks, f, top, n - 1);
      var nested := Stored(blocks[f + 1..n - 1]);
      StoredSlice(blocks, f + 1, n);
      NestStep(top, nested, blocks[n - 1]);
      var prev := MissionFold(title, blocks, n - 1);
      assert prev == Nested(Nest(top, nested));
      assert MissionFold(title, blocks, n) == Then(prev, blocks[n - 1]);
    }
  }

  /**
   * `blocksToMissionInfo` builds the record in two phases: the initial record
   * with the stored blocks up to and including the first block keyed
   * `scenario_special_rules` assigned at the top level, then every later
   * stored block assigned inside that entry.
   */
  lemma MissionInfoIsReference(title: string, blocks: seq<TextBlock>)
    ensures MissionInfoOf(title, blocks) == Reference(title, blocks)
  {
    var f := FirstSpecialRules(blocks);
    if f < |blocks| {
      FoldAfter(title, blocks, f, TopLevel(title, blocks), |blocks|);
      assert blocks[f + 1..|blocks|] == After(blocks);
    } else {
      FoldBefore(title, blocks, |blocks|);
      assert blocks[..|blocks|] == blocks;
    }
  }

  /**
   * The top level of the record: its keys are distinct and include `name` and
   * `scenario_special_rules`; a key holds the content of the last stored block
   * with that key before the nesting point, or else its initial value (the
   * title for `name`, nothing for any key other than the two).
   */
  lemma TopLevelGet(title: string, blocks: seq<TextBlock>)
    ensures var t := TopLevel(title, blocks);
      var top := Stored(Before(blocks));
      && OrderedDict.DistinctKeys(t)
      && NameKey in OrderedDict.Keys(t) && SpecialRulesKey in OrderedDict.Keys(t)
      && OrderedDict.Get(t, NameKey) ==
        (if OrderedDict.LastValue(top, NameKey).Some? then OrderedDict.LastValue(top, NameKey) else Some(Str(title)))
      && (forall k :: k != NameKey && k != SpecialRulesKey ==> OrderedDict.Get(t, k) == OrderedDict.LastValue(top, k))
  {
    var init := Initial(title);
    var top := Stored(Before(blocks));
    assert OrderedDict.Keys(init) == [NameKey, SpecialRulesKey];
    OrderedDict.PutAllKeys(init, top);
    OrderedDict.PutAllGet(init, top, NameKey);
    forall k | k != NameKey && k != SpecialRulesKey
      ensures OrderedDict.Get(TopLevel(title, blocks), k) == OrderedDict.LastValue(top, k)
    {
      OrderedDict.PutAllGet(init, top, k);
    }
  }

  /**
   * When blocks were nested, the `scenario_special_rules` entry of the record
   * is a dict holding, under each of their keys, the last content stored; the
   * other entries are those of the top level.
   */
  lemma NestGet(top: seq<(string, Value)>, nested: seq<(string, Value)>)
    requires OrderedDict.DistinctKeys(top)
    requires Nest(top, nested).Ok? && |nested| > 0
    ensures var info := Nest(top, nested).value;
      && OrderedDict.DistinctKeys(info)
      && OrderedDict.Keys(info) == OrderedDict.Keys(top)
      && (forall k :: k != SpecialRulesKey ==> OrderedDict.Get(info, k) == OrderedDict.Get(top, k))
      && OrderedDict.Get(info, SpecialRulesKey).Some? && OrderedDict.Get(info, SpecialRulesKey).value.Obj?
      && (forall k :: OrderedDict.LastValue(nested, k).Some? ==>
            OrderedDict.Get(OrderedDict.Get(info, SpecialRulesKey).value.entries, k) == OrderedDict.LastValue(nested, k))
  {
    var rules := OrderedDict.Get(top, SpecialRulesKey).value.entries;
    var inner := OrderedDict.PutAll(rules, nested);
    OrderedDict.PutDistinct(top, SpecialRulesKey, Obj(inner));
    forall k
      ensures OrderedDict.Get(Nest(top, nested).value, k) == if k == SpecialRulesKey then Some(Obj(inner)) else OrderedDict.Get(top, k)
    {
      OrderedDict.PutGet(top, SpecialRulesKey, Obj(inner), k);
    }
    forall k | OrderedDict.LastValue(nested, k).Some?
      ensures OrderedDict.Get(inner, k) == OrderedDict.LastValue(nested, k)
    {
      OrderedDict.PutAllGet(rules, nested, k);
    }
  }
}
