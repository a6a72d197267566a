/**
  `format_nbt`: the one-line summary the viewer shows for an inventory item's
  `tag` compound: its display name, its enchantments with Roman levels, and
  its stack size, joined by " | ".
 */
module ItemNbt {
  import opened PyValues
  import Roman

  /** The text shown when there is nothing to summarise. */
  const NoNbt := "无 NBT 数据"

  const Namespace := "minecraft:"
  const PartSeparator := " | "

  /** Localised enchantment names, keyed by namespaced id. */
  const EnchantNames: map<string, string> := map[
    "minecraft:sharpness" := "锋利",
    "minecraft:sweeping" := "横扫之刃",
    "minecraft:unbreaking" := "耐久",
    "minecraft:efficiency" := "效率",
    "minecraft:fortune" := "时运",
    "minecraft:power" := "力量",
    "minecraft:punch" := "冲击",
    "minecraft:flame" := "火矢",
    "minecraft:infinity" := "无限",
    "minecraft:protection" := "保护",
    "minecraft:fire_protection" := "防火",
    "minecraft:feather_falling" := "摔落保护",
    "minecraft:blast_protection" := "爆炸保护",
    "minecraft:projectile_protection" := "投射物保护",
    "minecraft:respiration" := "水下呼吸",
    "minecraft:aqua_affinity" := "水下速掘",
    "minecraft:thorns" := "荆棘",
    "minecraft:depth_strider" := "深海探索者",
    "minecraft:frost_walker" := "冰霜行者",
    "minecraft:binding_curse" := "绑定诅咒",
    "minecraft:vanishing_curse" := "消失诅咒",
    "minecraft:lure" := "诱饵",
    "minecraft:luck_of_the_sea" := "海之眷顾",
    "minecraft:mending" := "经验修补",
    "minecraft:soul_speed" := "灵魂疾走",
    "minecraft:impaling" := "穿刺",
    "minecraft:riptide" := "激流",
    "minecraft:channeling" := "引雷",
    "minecraft:multishot" := "多重射击",
    "minecraft:quick_charge" := "快速装填",
    "minecraft:piercing" := "穿透",
    "minecraft:loyalty" := "忠诚",
    "minecraft:snipe" := "狙击弓步",
    "minecraft:blessing" := "祝福",
    "minecraft:regality" := "王者",
    "minecraft:bane_of_arthropods" := "节肢杀手",
    "minecraft:smite" := "亡灵杀手"
  ]

  /** The id with case folded and every "minecraft:" taken out. */
  function BareId(idText: string): string
  {
    RemoveAll(Lower(idText), Namespace)
  }

  /** The shown name of an enchantment id: the table's, or the bare id when unknown. */
  function EnchantName(idText: string): string
  {
    var bare := BareId(idText);
    if Namespace + bare in EnchantNames then EnchantNames[Namespace + bare] else bare
  }

  /** The text appended for one enchantment compound: name, space, Roman level. */
  function EnchantLine(entry: Tag): Result<string>
  {
    var id :- Get(entry, "id", TStr("未知"));
    var lvl :- Get(entry, "lvl", TInt(0));
    var idText :- ToStr(id);
    var level :- ToInt(lvl);
    Ok(EnchantName(idText) + " " + Roman.Roman(level))
  }

  /** The lines the enchantment loop collects: compounds in list order, others skipped. */
  function EnchantLines(items: seq<Tag>): Result<seq<string>>
  {
    if items == [] then Ok([])
    else
      var done :- EnchantLines(items[..|items| - 1]);
      var entry := items[|items| - 1];
      if entry.TDict? then
        var line :- EnchantLine(entry);
        Ok(done + [line])
      else Ok(done)
  }

  /** The compound entries of a list, in order. */
  function Compounds(items: seq<Tag>): (r: seq<Tag>)
    ensures |r| <= |items|
  {
    if items == [] then []
    else Compounds(items[..|items| - 1]) + (if items[|items| - 1].TDict? then [items[|items| - 1]] else [])
  }

  /** The display-name part: present when `display` holds a Name. */
  function NamePart(nbt: Tag): Result<seq<string>>
  {
    var display :- Get(nbt, "display", TDict([]));
    var hasName :- Contains(display, "Name");
    if hasName then
      var name :- Index(display, "Name");
      var text :- ToStr(name);
      Ok(["名称: '" + text + "'"])
    else Ok([])
  }

  /** The enchantment part: present when a non-empty list yields at least one line. */
  function EnchantPart(nbt: Tag): Result<seq<string>>
  {
    var enchantments :- Get(nbt, "Enchantments", TList([]));
    if enchantments.TList? && |enchantments.items| > 0 then
      var lines :- EnchantLines(enchantments.items);
      if |lines| > 0 then Ok(["附魔: " + Join(lines, ", ")]) else Ok([])
    else Ok([])
  }

  /** The stack-size part: present when Count is there and not None. */
  function CountPart(nbt: Tag): Result<seq<string>>
  {
    var stackSize :- Get(nbt, "Count", TNone);
    if stackSize != TNone then
      var text :- ToStr(stackSize);
      Ok(["数量: " + text])
    else Ok([])
  }

  /** What `format_nbt(nbt)` returns, or the exception it raises. */
  function NbtSummary(nbt: Tag): Result<string>
  {
    if !nbt.TDict? then Ok(NoNbt)
    else
      var name :- NamePart(nbt);
      var enchant :- EnchantPart(nbt);
      var count :- CountPart(nbt);
      var parts := name + enchant + count;
      Ok(if parts == [] then NoNbt else Join(parts, PartSeparator))
  }

  /**
    The body of the enchantment loop for one compound entry: the imperative form
    of `EnchantLine`, calling the `RomanNumeral` method for the level.
   */
  method EnchantmentText(entry: Tag) returns (r: Result<string>)
    ensures r == EnchantLine(entry)
  {
    var id :- Get(entry, "id", TStr("未知"));
    var lvl :- Get(entry, "lvl", TInt(0));
    var idText :- ToStr(id);
    var level :- ToInt(lvl);
    var levelText := Roman.RomanNumeral(level);
    r := Ok(EnchantName(idText) + " " + levelText);
  }

  /**
    `format_nbt`: the imperative form of `NbtSummary`, appending each part to a
    list and looping over the enchantment list.
   */
  method FormatNbt(nbt: Tag) returns (r: Result<string>)
    ensures r == NbtSummary(nbt)
  {
    if !nbt.TDict? {
      return Ok(NoNbt);
    }
    var result: seq<string> := [];

    var display :- Get(nbt, "display", TDict([]));
    var hasName :- Contains(display, "Name");
    if hasName {
      var name :- Index(display, "Name");
      var text :- ToStr(name);
      result := result + ["名称: '" + text + "'"];
      assert result == ["名称: '" + text + "'"];
    }
    assert NamePart(nbt) == Ok(result);
    ghost var namePart := result;

    var enchantments :- Get(nbt, "Enchantments", TList([]));
    if enchantments.TList? && |enchantments.items| > 0 {
      var lines :- EnchantmentLines(enchantments.items);
      if |lines| > 0 {
        result := result + ["附魔: " + Join(lines, ", ")];
      }
    }
    assert EnchantPart(nbt).Ok? && namePart + EnchantPart(nbt).value == result;
    ghost var upToEnchant := result;

    var stackSize :- Get(nbt, "Count", TNone);
    if stackSize != TNone {
      var text :- ToStr(stackSize);
      result := result + ["数量: " + text];
    }
    assert CountPart(nbt).Ok? && upToEnchant + CountPart(nbt).value == result;
    r := Ok(if result == [] then NoNbt else Join(result, PartSeparator));
  }

  /** The loop over the enchantment list, collecting one line per compound entry. */
  method EnchantmentLines(items: seq<Tag>) returns (r: Result<seq<string>>)
    ensures r == EnchantLines(items)
  {
    var lines: seq<string> := [];
    var k := 0;
    while k < |items|
      invariant 0 <= k <= |items|
      invariant EnchantLines(items[..k]) == Ok(lines)
    {
      var entry := items[k];
      assert items[..k + 1][..k] == items[..k];
      if entry.TDict? {
        var line := EnchantmentText(entry);
        if line.Raise? {
          EnchantLinesStop(items, k + 1);
          return Raise(line.exc);
        }
        lines := lines + [line.value];
      }
      k := k + 1;
    }
    assert items[..k] == items;
    return Ok(lines);
  }

  /** Once a prefix of the list raises, the whole loop raises the same exception. */
  lemma {:induction false} EnchantLinesStop(items: seq<Tag>, k: nat)
    requires k <= |items| && EnchantLines(items[..k]).Raise?
    ensures EnchantLines(items) == EnchantLines(items[..k])
    decreases |items| - k
  {
    if k < |items| {
      var next := items[..k + 1];
      assert next[..k] == items[..k];
      EnchantLinesStop(items, k + 1);
    } else {
      assert items[..k] == items;
    }
  }

  // ---------------------------------------------------------------------------
  // Properties.

  lemma {:induction false} JoinHead(parts: seq<string>, sep: string)
    requires parts != [] && parts[0] != []
    ensures Join(parts, sep) != [] && Join(parts, sep)[0] == parts[0][0]
  {
  }

  /**
    The summary is the "no NBT data" sentinel exactly when the input is not a
    dict, or when it is a dict for which no part is produced.
   */
  lemma SummarySentinel(nbt: Tag)
    requires NbtSummary(nbt).Ok?
    ensures NbtSummary(nbt).value == NoNbt <==>
      (!nbt.TDict? || NamePart(nbt) == EnchantPart(nbt) == CountPart(nbt) == Ok([]))
  {
    if nbt.TDict? {
      var parts := NamePart(nbt).value + EnchantPart(nbt).value + CountPart(nbt).value;
      if parts != [] {
        assert parts[0][0] in {'名', '附', '数'};
        JoinHead(parts, PartSeparator);
        assert NoNbt[0] == '无';
      }
    }
  }

  /** The enchantment loop's lines are one per compound entry, in list order. */
  lemma {:induction false} EnchantLinesPerCompound(items: seq<Tag>)
    requires EnchantLines(items).Ok?
    ensures var lines := EnchantLines(items).value;
      && |lines| == |Compounds(items)|
      && forall k :: 0 <= k < |lines| ==> EnchantLine(Compounds(items)[k]) == Ok(lines[k])
  {
    if items != [] {
      var init := items[..|items| - 1];
      EnchantLinesPerCompound(init);
    }
  }

  /** Entry `k` is a compound whose line raises. */
  predicate LineRaisesAt(items: seq<Tag>, k: int)
  {
    0 <= k < |items| && items[k].TDict? && EnchantLine(items[k]).Raise?
  }

  /** The loop raises exactly when some compound entry's line raises. */
  lemma {:induction false} EnchantLinesRaise(items: seq<Tag>)
    ensures EnchantLines(items).Raise? <==> exists k :: LineRaisesAt(items, k)
  {
    if items != [] {
      var init := items[..|items| - 1];
      var last := |items| - 1;
      EnchantLinesRaise(init);
      if EnchantLines(items).Raise? {
        if EnchantLines(init).Raise? {
          var k :| LineRaisesAt(init, k);
          assert LineRaisesAt(items, k);
        } else {
          assert LineRaisesAt(items, last);
        }
      } else {
        forall k | 0 <= k < |items|
          ensures !LineRaisesAt(items, k)
        {
          if k < last {
            assert !LineRaisesAt(init, k);
          }
        }
      }
    }
  }

  lemma {:induction false} LowerIdempotent(s: string)
    ensures Lower(Lower(s)) == Lower(s)
  {
  }

  lemma {:induction false} LowerAppend(a: string, b: string)
    ensures Lower(a + b) == Lower(a) + Lower(b)
    decreases |a|
  {
    if a == [] {
      assert a + b == b;
    } else {
      assert (a + b)[1..] == a[1..] + b;
      LowerAppend(a[1..], b);
    }
  }

  /** Text without upper-case ASCII letters is its own lower case. */
  lemma LowerNoUpper(s: string)
    requires forall k :: 0 <= k < |s| ==> !('A' <= s[k] <= 'Z')
    ensures Lower(s) == s
  {
    assert forall k :: 0 <= k < |s| ==> Lower(s)[k] == s[k];
  }

  /** Ids are matched without regard to ASCII case. */
  lemma EnchantNameIgnoresCase(idText: string)
    ensures EnchantName(Lower(idText)) == EnchantName(idText)
  {
    LowerIdempotent(idText);
  }

  /** A leading namespace makes no difference to the name shown. */
  lemma EnchantNameIgnoresNamespace(idText: string)
    ensures EnchantName(Namespace + idText) == EnchantName(idText)
  {
    LowerAppend(Namespace, idText);
    LowerNamespace();
    RemoveAllPrefix(Namespace, Lower(idText));
    assert BareId(Namespace + idText) == BareId(idText);
  }

  lemma LowerNamespace()
    ensures Lower(Namespace) == Namespace
  {
    NamespaceNoUpper();
    LowerNoUpper(Namespace);
  }

  lemma NamespaceNoUpper()
    ensures forall k :: 0 <= k < |Namespace| ==> !('A' <= Namespace[k] <= 'Z')
  {
  }

  /** A leading occurrence of the pattern is removed. */
  lemma RemoveAllPrefix(pat: string, rest: string)
    requires pat != []
    ensures RemoveAll(pat + rest, pat) == RemoveAll(rest, pat)
  {
    var s := pat + rest;
    assert s[..|pat|] == pat;
    assert s[|pat|..] == rest;
  }

  /** A string without the pattern is left as it is. */
  lemma {:induction false} RemoveAllAbsent(s: string, pat: string)
    requires pat != [] && !IsSubstring(pat, s)
    ensures RemoveAll(s, pat) == s
    decreases |s|
  {
    if |s| >= |pat| {
      assert !OccursAt(s, pat, 0);
      assert !IsSubstring(pat, s[1..]) by {
        if IsSubstring(pat, s[1..]) {
          var k :| 0 <= k <= |s[1..]| - |pat| && OccursAt(s[1..], pat, k);
          assert s[k + 1..k + 1 + |pat|] == s[1..][k..k + |pat|];
          assert OccursAt(s, pat, k + 1);
        }
      }
      RemoveAllAbsent(s[1..], pat);
    }
  }

  /**
    A lower-case id with no namespace in it is looked up with the namespace in
    front; an id the table lacks is shown as it is.
   */
  lemma EnchantNameLookup(idText: string)
    requires Lower(idText) == idText && !IsSubstring(Namespace, idText)
    ensures Namespace + idText in EnchantNames ==> EnchantName(idText) == EnchantNames[Namespace + idText]
    ensures Namespace + idText !in EnchantNames ==> EnchantName(idText) == idText
  {
    RemoveAllAbsent(idText, Namespace);
  }

  /** A compound with an id and no lvl is shown at level "I". */
  lemma EnchantLineDefaultLevel(id: string)
    ensures EnchantLine(TDict([("id", TStr(id))])) == Ok(EnchantName(id) + " I")
  {
    var e := TDict([("id", TStr(id))]);
    assert Get(e, "id", TStr("未知")) == Ok(TStr(id));
    assert Lookup(e.entries, "lvl") == None;
    assert Get(e, "lvl", TInt(0)) == Ok(TInt(0));
    assert EnchantLine(e) == Ok(EnchantName(id) + " " + Roman.Roman(0));
    Roman.RomanExamples();
    var name := EnchantName(id);
    assert name + " " + "I" == name + " I";
  }

  /** With an integer level, the level is shown as its Roman numeral. */
  lemma EnchantLineLevel(id: string, lvl: int)
    ensures EnchantLine(TDict([("id", TStr(id)), ("lvl", TInt(lvl))])) == Ok(EnchantName(id) + " " + Roman.Roman(lvl))
  {
    var e := TDict([("id", TStr(id)), ("lvl", TInt(lvl))]);
    assert Get(e, "id", TStr("未知")) == Ok(TStr(id));
    assert Lookup(e.entries, "lvl") == Some(TInt(lvl));
    assert Get(e, "lvl", TInt(0)) == Ok(TInt(lvl));
  }
}
