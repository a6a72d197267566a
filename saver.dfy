/**
  The `MinecraftSaver` getters: facts read from a loaded level.dat tree.  The
  tree is set once when the save is opened and never changed afterwards, so
  every getter is a function of it (`levelDat`).
 */
module Saver {
  import opened PyValues

  datatype Spawn = Spawn(x: int, y: int, z: int)

  datatype WorldInfo = WorldInfo(
    name: string,
    gameMode: string,
    spawn: Spawn,
    time: int,
    lastPlayed: int,
    difficulty: string)

  datatype Position = Position(x: Float, y: Float, z: Float)

  const UnknownName := "未知"
  const UnknownMode := "未知模式"
  const UnknownDifficulty := "未知难度"
  const Overworld := "minecraft:overworld"
  const DimensionUnreadable := "无法读取维度"

  const GameModes: map<int, string> := map[0 := "生存模式", 1 := "创造模式", 2 := "冒险模式", 3 := "旁观者模式"]

  const Difficulties: map<int, string> := map[0 := "和平", 1 := "简单", 2 := "普通", 3 := "困难"]

  const Dimensions: map<string, string> := map[
    "minecraft:overworld" := "主世界",
    "overworld" := "主世界",
    "minecraft:the_nether" := "下界",
    "nether" := "下界",
    "minecraft:the_end" := "末地",
    "end" := "末地"
  ]

  /** The origin, returned when the position cannot be read. */
  const Origin := Position(IntToFloat(0), IntToFloat(0), IntToFloat(0))

  // ---------------------------------------------------------------------------
  // Game mode, difficulty and world info.

  function ModeName(gameType: int): string
  {
    if gameType in GameModes then GameModes[gameType] else UnknownMode
  }

  function DifficultyName(difficulty: int): string
  {
    if difficulty in Difficulties then Difficulties[difficulty] else UnknownDifficulty
  }

  /** `int(d.get(key, default))`. */
  function IntField(d: Tag, key: string, default: int): Result<int>
  {
    var v :- Get(d, key, TInt(default));
    ToInt(v)
  }

  /** `get_game_mode(player)`: a missing playerGameType counts as 0. */
  function GameMode(player: Tag): Result<string>
  {
    var gameType :- IntField(player, "playerGameType", 0);
    Ok(ModeName(gameType))
  }

  /** `get_difficulty(data)`: a missing Difficulty counts as 0. */
  function Difficulty(data: Tag): Result<string>
  {
    var difficulty :- IntField(data, "Difficulty", 0);
    Ok(DifficultyName(difficulty))
  }

  /** `get_world_info()`; nothing here is absorbed, every exception reaches the caller. */
  function GetWorldInfo(levelDat: Tag): Result<WorldInfo>
  {
    var data :- Index(levelDat, "Data");
    var player :- Get(data, "Player", TDict([]));
    var nameTag :- Get(data, "LevelName", TStr(UnknownName));
    var name :- ToStr(nameTag);
    var mode :- GameMode(player);
    var x :- IntField(data, "SpawnX", 0);
    var y :- IntField(data, "SpawnY", 0);
    var z :- IntField(data, "SpawnZ", 0);
    var time :- IntField(data, "Time", 0);
    var lastPlayed :- IntField(data, "LastPlayed", 0);
    var difficulty :- Difficulty(data);
    Ok(WorldInfo(name, mode, Spawn(x, y, z), time, lastPlayed, difficulty))
  }

  // ---------------------------------------------------------------------------
  // Player position and dimension: both absorb every exception.

  /** The body of the `try` in `get_player_position`. */
  function ReadPosition(levelDat: Tag): Result<Position>
  {
    var data :- Index(levelDat, "Data");
    var player :- Index(data, "Player");
    var pos :- Index(player, "Pos");
    var first :- At(pos, 0);
    var x :- ToFloat(first);
    var second :- At(pos, 1);
    var y :- ToFloat(second);
    var third :- At(pos, 2);
    var z :- ToFloat(third);
    Ok(Position(x, y, z))
  }

  /** `get_player_position()`. */
  function GetPlayerPosition(levelDat: Tag): Position
  {
    match ReadPosition(levelDat)
    case Ok(p) => p
    case Raise(_) => Origin
  }

  /** The label shown for a dimension's text. */
  function DimensionLabel(text: string): string
  {
    if text in Dimensions then Dimensions[text] else "未知维度(" + text + ")"
  }

  /** The body of the `try` in `get_dimension`. */
  function ReadDimension(levelDat: Tag): Result<string>
  {
    var data :- Index(levelDat, "Data");
    var player :- Index(data, "Player");
    var dimension :- Get(player, "Dimension", TStr(Overworld));
    var text :- ToStr(dimension);
    Ok(DimensionLabel(text))
  }

  /** `get_dimension()`. */
  function GetDimension(levelDat: Tag): (r: string)
    ensures r == DimensionUnreadable <==> ReadDimension(levelDat).Raise?
  {
    match ReadDimension(levelDat)
    case Ok(shown) =>
      assert shown[0] != DimensionUnreadable[0];
      shown
    case Raise(_) => DimensionUnreadable
  }

  // ---------------------------------------------------------------------------
  // Lemmas: game mode and difficulty.

  /** The four game types have four different names; every other int is unknown. */
  lemma ModeNames(gameType: int)
    ensures ModeName(0) == "生存模式" && ModeName(1) == "创造模式"
    ensures ModeName(2) == "冒险模式" && ModeName(3) == "旁观者模式"
    ensures ModeName(gameType) == UnknownMode <==> !(0 <= gameType <= 3)
  {
  }

  /** A player compound without playerGameType is in survival mode. */
  lemma GameModeDefault(es: seq<(string, Tag)>)
    requires Lookup(es, "playerGameType").None?
    ensures GameMode(TDict(es)) == Ok("生存模式")
  {
  }

  /** The four difficulties have four different names; every other int is unknown. */
  lemma DifficultyNames(difficulty: int)
    ensures DifficultyName(0) == "和平" && DifficultyName(1) == "简单"
    ensures DifficultyName(2) == "普通" && DifficultyName(3) == "困难"
    ensures DifficultyName(difficulty) == UnknownDifficulty <==> !(0 <= difficulty <= 3)
  {
  }

  // ---------------------------------------------------------------------------
  // Lemmas: world info.

  /** A level.dat without Data raises, and the exception is not absorbed. */
  lemma WorldInfoNeedsData(levelDat: Tag)
    requires Index(levelDat, "Data").Raise?
    ensures GetWorldInfo(levelDat) == Raise(Index(levelDat, "Data").exc)
  {
  }

  /** The key is absent or holds an int. */
  predicate IntOrAbsent(es: seq<(string, Tag)>, key: string)
  {
    match Lookup(es, key)
    case None => true
    case Some(v) => v.TInt?
  }

  /** The int stored under the key, or the default when it is absent. */
  function IntOr(es: seq<(string, Tag)>, key: string, default: int): int
    requires IntOrAbsent(es, key)
  {
    match Lookup(es, key)
    case None => default
    case Some(v) => v.i
  }

  lemma IntFieldOf(es: seq<(string, Tag)>, key: string)
    requires IntOrAbsent(es, key)
    ensures IntField(TDict(es), key, 0) == Ok(IntOr(es, key, 0))
  {
  }

  /**
    On a well-typed Data compound (ints where ints belong, a string name, a
    player compound) the world info is read without raising: each field is the
    stored value, or its default when the key is absent; spawn is read from the
    three top-level keys SpawnX, SpawnY and SpawnZ.
   */
  lemma WorldInfoWellTyped(levelDat: Tag, es: seq<(string, Tag)>, ps: seq<(string, Tag)>)
    requires Index(levelDat, "Data") == Ok(TDict(es))
    requires Lookup(es, "Player") == Some(TDict(ps)) || (Lookup(es, "Player").None? && ps == [])
    requires Lookup(es, "LevelName").None? || Lookup(es, "LevelName").value.TStr?
    requires IntOrAbsent(ps, "playerGameType")
    requires IntOrAbsent(es, "SpawnX") && IntOrAbsent(es, "SpawnY") && IntOrAbsent(es, "SpawnZ")
    requires IntOrAbsent(es, "Time") && IntOrAbsent(es, "LastPlayed") && IntOrAbsent(es, "Difficulty")
    ensures GetWorldInfo(levelDat) == Ok(WorldInfo(
      if Lookup(es, "LevelName").None? then UnknownName else Lookup(es, "LevelName").value.s,
      ModeName(IntOr(ps, "playerGameType", 0)),
      Spawn(IntOr(es, "SpawnX", 0), IntOr(es, "SpawnY", 0), IntOr(es, "SpawnZ", 0)),
      IntOr(es, "Time", 0),
      IntOr(es, "LastPlayed", 0),
      DifficultyName(IntOr(es, "Difficulty", 0))))
  {
    var data := TDict(es);
    assert Get(data, "Player", TDict([])) == Ok(TDict(ps));
    IntFieldOf(ps, "playerGameType");
    assert GameMode(TDict(ps)) == Ok(ModeName(IntOr(ps, "playerGameType", 0)));
    IntFieldOf(es, "Difficulty");
    assert Difficulty(data) == Ok(DifficultyName(IntOr(es, "Difficulty", 0)));
    IntFieldOf(es, "SpawnX");
    IntFieldOf(es, "SpawnY");
    IntFieldOf(es, "SpawnZ");
    IntFieldOf(es, "Time");
    IntFieldOf(es, "LastPlayed");
  }

  /** An empty Data compound gives every default. */
  lemma WorldInfoDefaults()
    ensures GetWorldInfo(TDict([("Data", TDict([]))]))
      == Ok(WorldInfo("未知", "生存模式", Spawn(0, 0, 0), 0, 0, "和平"))
  {
    WorldInfoWellTyped(TDict([("Data", TDict([]))]), [], []);
  }

  // ---------------------------------------------------------------------------
  // Lemmas: position and dimension.

  /** A Pos list of three or more floats gives its first three. */
  lemma PositionFirstThree(levelDat: Tag, items: seq<Tag>)
    requires Index(levelDat, "Data").Ok? && Index(Index(levelDat, "Data").value, "Player").Ok?
    requires Index(Index(Index(levelDat, "Data").value, "Player").value, "Pos") == Ok(TList(items))
    requires |items| >= 3 && items[0].TFloat? && items[1].TFloat? && items[2].TFloat?
    ensures GetPlayerPosition(levelDat) == Position(items[0].f, items[1].f, items[2].f)
  {
  }

  /** Missing Data, Player or Pos, or a Pos with fewer than three elements, gives the origin. */
  lemma PositionFallback(levelDat: Tag)
    requires
      || Index(levelDat, "Data").Raise?
      || Index(Index(levelDat, "Data").value, "Player").Raise?
      || Index(Index(Index(levelDat, "Data").value, "Player").value, "Pos").Raise?
      || (var pos := Index(Index(Index(levelDat, "Data").value, "Player").value, "Pos").value;
          pos.TList? && |pos.items| < 3)
    ensures GetPlayerPosition(levelDat) == Origin
  {
  }

  /** The six table entries give three labels; any other text is shown raw. */
  lemma DimensionLabels(text: string)
    ensures DimensionLabel(text) in {"主世界", "下界", "末地"} <==> text in Dimensions
    ensures text !in Dimensions ==> DimensionLabel(text) == "未知维度(" + text + ")"
    ensures DimensionLabel("minecraft:overworld") == DimensionLabel("overworld") == "主世界"
    ensures DimensionLabel("minecraft:the_nether") == DimensionLabel("nether") == "下界"
    ensures DimensionLabel("minecraft:the_end") == DimensionLabel("end") == "末地"
  {
    if text !in Dimensions {
      var shown := DimensionLabel(text);
      assert shown[0] == '未';
    }
  }

  /** A player compound without Dimension is in the overworld. */
  lemma DimensionDefault(levelDat: Tag, ps: seq<(string, Tag)>)
    requires Index(levelDat, "Data").Ok? && Index(Index(levelDat, "Data").value, "Player") == Ok(TDict(ps))
    requires Lookup(ps, "Dimension").None?
    ensures GetDimension(levelDat) == "主世界"
  {
  }

  /** Missing Data or Player is reported as unreadable. */
  lemma DimensionUnreadableWithoutPlayer(levelDat: Tag)
    requires Index(levelDat, "Data").Raise? || Index(Index(levelDat, "Data").value, "Player").Raise?
    ensures GetDimension(levelDat) == DimensionUnreadable
  {
  }

  lemma DimensionExampleEnd()
    ensures GetDimension(TDict([("Data", TDict([("Player", TDict([("Dimension", TStr("minecraft:the_end"))]))]))])) == "末地"
  {
  }

  lemma DimensionExampleCustom()
    ensures GetDimension(TDict([("Data", TDict([("Player", TDict([("Dimension", TStr("custom:void"))]))]))]))
      == "未知维度(custom:void)"
  {
    DimensionLabels("custom:void");
  }

  lemma DimensionExampleInt()
    ensures GetDimension(TDict([("Data", TDict([("Player", TDict([("Dimension", TInt(0))]))]))])) == "未知维度(0)"
  {
    DimensionLabels("0");
  }

  // ---------------------------------------------------------------------------
  // Inventory.

  datatype InventoryItem = InventoryItem(slot: int, id: string, count: int, tag: Tag)

  /** The record built for one inventory entry that has an id. */
  function ItemOf(entry: Tag): Result<InventoryItem>
  {
    var slot :- IntField(entry, "Slot", -1);
    var idTag :- Index(entry, "id");
    var id :- ToStr(idTag);
    var count :- IntField(entry, "Count", 0);
    var tag :- Get(entry, "tag", TNone);
    Ok(InventoryItem(slot, id, count, tag))
  }

  /**
    The walk over the inventory entries: an entry without an id is skipped, the
    others are converted in order, and the first exception ends the walk.
   */
  function Collect(entries: seq<Tag>): Result<seq<InventoryItem>>
  {
    if entries == [] then Ok([])
    else
      var done :- Collect(entries[..|entries| - 1]);
      var entry := entries[|entries| - 1];
      var hasId :- Contains(entry, "id");
      if !hasId then Ok(done)
      else
        var item :- ItemOf(entry);
        Ok(done + [item])
  }

  /** The entries the walk visits: the player's Inventory, a missing one read as empty. */
  function InventoryEntries(levelDat: Tag): Result<seq<Tag>>
  {
    var data :- Index(levelDat, "Data");
    var player :- Index(data, "Player");
    var inventory :- Get(player, "Inventory", TList([]));
    Iterate(inventory)
  }

  /** What `get_player_inventory()` returns: any exception gives the empty list. */
  function Inventory(levelDat: Tag): seq<InventoryItem>
  {
    match InventoryEntries(levelDat)
    case Raise(_) => []
    case Ok(entries) =>
      match Collect(entries)
      case Ok(items) => items
      case Raise(_) => []
  }

  /** `get_player_inventory()`: the loop over the entries. */
  method GetPlayerInventory(levelDat: Tag) returns (inventory: seq<InventoryItem>)
    ensures inventory == Inventory(levelDat)
  {
    var walk := InventoryEntries(levelDat);
    if walk.Raise? {
      return [];
    }
    var entries := walk.value;
    inventory := [];
    var k := 0;
    while k < |entries|
      invariant 0 <= k <= |entries|
      invariant Collect(entries[..k]) == Ok(inventory)
    {
      var entry := entries[k];
      assert entries[..k + 1][..k] == entries[..k];
      var hasId := Contains(entry, "id");
      if hasId.Raise? {
        CollectStop(entries, k + 1);
        return [];
      }
      if hasId.value {
        var item := ItemOf(entry);
        if item.Raise? {
          CollectStop(entries, k + 1);
          return [];
        }
        inventory := inventory + [item.value];
      }
      k := k + 1;
    }
    assert entries[..k] == entries;
  }

  /** Once the walk has raised on a prefix it raises on the whole. */
  lemma {:induction false} CollectStop(entries: seq<Tag>, k: nat)
    requires k <= |entries| && Collect(entries[..k]).Raise?
    ensures Collect(entries).Raise?
    decreases |entries| - k
  {
    if k < |entries| {
      assert entries[..k + 1][..k] == entries[..k];
      CollectStop(entries, k + 1);
    } else {
      assert entries[..k] == entries;
    }
  }

  // ---------------------------------------------------------------------------
  // Lemmas: inventory.

  /** The entries that have an id, in order: what the walk selects. */
  function WithId(entries: seq<Tag>): (kept: seq<Tag>)
    ensures |kept| <= |entries|
    ensures forall e :: e in kept ==> e in entries && Contains(e, "id") == Ok(true)
  {
    if entries == [] then []
    else
      var init := WithId(entries[..|entries| - 1]);
      var e := entries[|entries| - 1];
      if Contains(e, "id") == Ok(true) then init + [e] else init
  }

  /** `a` is `b` with some elements dropped. */
  predicate IsSubsequence(a: seq<Tag>, b: seq<Tag>)
    decreases |b|
  {
    || a == []
    || (b != [] && (
         || (a[|a| - 1] == b[|b| - 1] && IsSubsequence(a[..|a| - 1], b[..|b| - 1]))
         || IsSubsequence(a, b[..|b| - 1])))
  }

  /** The positions of the entries that have an id. */
  function IdPositions(entries: seq<Tag>): set<int>
  {
    set k | 0 <= k < |entries| && Contains(entries[k], "id") == Ok(true)
  }

  /**
    The selection keeps order and drops exactly the entries without an id: it is
    a subsequence of the entries, every element has an id, every entry with an
    id is in it, and it is as long as the number of positions holding an entry
    with an id, so every such position is taken once.
   */
  lemma WithIdSelects(entries: seq<Tag>)
    ensures IsSubsequence(WithId(entries), entries)
    ensures forall e :: e in WithId(entries) ==> Contains(e, "id") == Ok(true)
    ensures forall e :: e in entries && Contains(e, "id") == Ok(true) ==> e in WithId(entries)
    ensures |WithId(entries)| == |IdPositions(entries)|
  {
    WithIdOrder(entries);
    WithIdCount(entries);
  }

  lemma {:induction false} WithIdOrder(entries: seq<Tag>)
    ensures IsSubsequence(WithId(entries), entries)
    ensures forall e :: e in entries && Contains(e, "id") == Ok(true) ==> e in WithId(entries)
    decreases |entries|
  {
    if entries != [] {
      var init := entries[..|entries| - 1];
      var e := entries[|entries| - 1];
      WithIdOrder(init);
      assert entries == init + [e];
      if Contains(e, "id") == Ok(true) {
        assert (WithId(init) + [e])[..|WithId(init)|] == WithId(init);
      }
    }
  }

  lemma {:induction false} WithIdCount(entries: seq<Tag>)
    ensures |WithId(entries)| == |IdPositions(entries)|
    decreases |entries|
  {
    if entries != [] {
      var n := |entries| - 1;
      var init := entries[..n];
      WithIdCount(init);
      var before := IdPositions(init);
      var after := IdPositions(entries);
      var kept := Contains(entries[n], "id") == Ok(true);
      forall k | k in after ensures k in before || (k == n && kept) {
        if k < n {
          assert entries[k] == init[k];
        }
      }
      forall k | k in before ensures k in after {
        assert entries[k] == init[k];
      }
      if kept {
        assert after == before + {n};
      } else {
        assert after == before;
      }
    }
  }

  /** Entry `k` makes the walk raise: `'id' in entry` raises, or the entry has an id and its record raises. */
  predicate FailsAt(entries: seq<Tag>, k: nat)
    requires k < |entries|
  {
    EntryFails(entries[k])
  }

  predicate EntryFails(entry: Tag)
  {
    || Contains(entry, "id").Raise?
    || (Contains(entry, "id") == Ok(true) && ItemOf(entry).Raise?)
  }

  /** The walk raises exactly when some entry fails. */
  lemma {:induction false} CollectRaises(entries: seq<Tag>)
    ensures Collect(entries).Raise? <==> exists k: nat :: k < |entries| && FailsAt(entries, k)
    decreases |entries|
  {
    if entries != [] {
      var n := |entries| - 1;
      var init := entries[..n];
      CollectRaises(init);
      if Collect(entries).Raise? {
        if Collect(init).Raise? {
          var k: nat :| k < |init| && FailsAt(init, k);
          assert init[k] == entries[k];
          assert FailsAt(entries, k);
        } else {
          assert FailsAt(entries, n);
        }
      } else {
        forall k: nat | k < |entries|
          ensures !FailsAt(entries, k)
        {
          if k < n {
            assert init[k] == entries[k];
            assert !FailsAt(init, k);
          }
        }
      }
    }
  }

  /** When the walk succeeds it holds one record per selected entry, in order. */
  lemma {:induction false} CollectSelects(entries: seq<Tag>)
    requires Collect(entries).Ok?
    ensures var items := Collect(entries).value;
      && |items| == |WithId(entries)|
      && forall k :: 0 <= k < |items| ==> ItemOf(WithId(entries)[k]) == Ok(items[k])
    decreases |entries|
  {
    if entries != [] {
      var init := entries[..|entries| - 1];
      var e := entries[|entries| - 1];
      CollectSelects(init);
      var done := Collect(init).value;
      var items := Collect(entries).value;
      if Contains(e, "id") == Ok(true) {
        assert items == done + [ItemOf(e).value];
        assert WithId(entries) == WithId(init) + [e];
      }
    }
  }

  /**
    All or nothing: one failing entry empties the whole inventory; otherwise it
    holds the record of each entry with an id, in order.
   */
  lemma InventoryAllOrNothing(levelDat: Tag, entries: seq<Tag>)
    requires InventoryEntries(levelDat) == Ok(entries)
    ensures (exists k: nat :: k < |entries| && FailsAt(entries, k)) ==> Inventory(levelDat) == []
    ensures (forall k: nat :: k < |entries| ==> !FailsAt(entries, k)) ==>
      && |Inventory(levelDat)| == |WithId(entries)|
      && forall k :: 0 <= k < |WithId(entries)| ==> ItemOf(WithId(entries)[k]) == Ok(Inventory(levelDat)[k])
  {
    CollectRaises(entries);
    if Collect(entries).Ok? {
      CollectSelects(entries);
    }
  }

  /** An entry with only an id gets slot -1, count 0 and no tag. */
  lemma ItemDefaults(id: string)
    ensures ItemOf(TDict([("id", TStr(id))])) == Ok(InventoryItem(-1, id, 0, TNone))
  {
  }

  /** A player without Inventory, or a save without Data or Player, has an empty inventory. */
  lemma InventoryEmpty(levelDat: Tag)
    requires
      || Index(levelDat, "Data").Raise?
      || Index(Index(levelDat, "Data").value, "Player").Raise?
      || (Index(Index(levelDat, "Data").value, "Player").value.TDict?
          && Lookup(Index(Index(levelDat, "Data").value, "Player").value.entries, "Inventory").None?)
    ensures Inventory(levelDat) == []
  {
  }
}
