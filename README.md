# Minecraft archive viewer: the data core

The viewer opens a Minecraft save and reads its `level.dat`, a tree of NBT
tags. It then shows facts about the world and the player, and it renders
values for display and JSON export. This project models the part of the
viewer that turns that tree into the shown text and values:

- `Roman`: `roman_numeral`, the greedy loop that writes an enchantment
  level as a Roman numeral, with "I" for every number below 1.
- `TimeFormat`: `format_minecraft_time`, a tick counter shown as in-game
  days, hours and minutes. 24000 ticks make a day and 1000 ticks an hour.
- `Primitive`: `nbt_to_primitive`, which converts the tree into plain values
  within a depth budget (32 by default). Anything deeper becomes `"..."`. The
  two copies of this function, in `main.py` and `mc_saver.py`, have the same
  branches, and one model stands for both.
- `ItemNbt`: `format_nbt`, which builds the one-line summary of an item's tag:
  display name, translated enchantments and stack size.
- `Saver`: the `MinecraftSaver` getters. They cover world info, player
  position, dimension, inventory, game mode and difficulty.
- `PyValues`: the shared vocabulary. The decoded tree is a closed datatype
  `Tag`, covering ints, floats, strings, `None`, lists, compounds, wrapped
  tags that carry `py_data`, and anything else, which is known only by its
  `repr`. The Python operations the code applies to the tree are functions
  returning `Result` (a value, or the exception raised). Those operations
  are `dict.get`, subscription, `in`, iteration, `int()`, `str()` and
  `float()`.

Three operations are loops in the source, and each is a method here, proved
equal to a specification function:

- `Roman.RomanNumeral` is proved equal to `Roman.Roman`.
- `ItemNbt.FormatNbt` is proved equal to `ItemNbt.NbtSummary`.
- `Saver.GetPlayerInventory` is proved equal to `Saver.Inventory`.

The lemmas then state what the source promises about those functions. The
other operations are pure functions of the tree. The save is loaded once
and never modified, so each getter takes the tree (`levelDat`) as its
argument.

Exceptions follow the source:

- `get_world_info` lets every exception through, so its model returns a
  `Result`.
- `get_player_position`, `get_dimension` and `get_player_inventory` absorb
  every exception into a fixed fallback.
- `format_minecraft_time` absorbs every exception into "未知时间".
- `format_nbt` lets the exceptions of its body through.

The time split uses the code's floor division and floor modulo (`//`, `%`).
A negative counter therefore gives a negative day with hours and minutes in
range. For example, -1 is "-1 天 23 小时 59 分钟". A truncating division
would give a different answer, but the code floors. Dafny's `/` and `%`
agree with Python's for the positive divisors used here.

## Model

| member | source | states |
|---|---|---|
| Roman.RomanNumeral | main.py:230-245 | The loop over the thirteen-row table returns exactly `Roman(num)`: the greedy symbols, or "I" when there are none. |
| Roman.RomanRoundTrip | main.py:233-245 | For every num >= 1, the standard subtractive reading of the result gives num back. |
| Roman.RomanFloor | main.py:244-245 | The result is never empty. Every num <= 0 gives "I". Every num >= 1 gives the greedy symbols themselves. |
| Roman.SpellDecode | main.py:240-243 | The symbols the loop appends from any row on read back as the number still to convert. |
| Roman.EmittedValue | main.py:240-243 | The values of the rows the loop emits add up to the number converted. |
| Roman.EmittedRowsOrdered | main.py:240-243 | Rows are emitted in table order and never revisited. |
| Roman.EmittedOrdered | main.py:233-243 | The values of the emitted symbols never increase. |
| Roman.EmittedNothingBelowOne | main.py:241 | A number below 1 makes the loop emit nothing from any row. |
| Roman.RomanExamples | main.py:233-245 | 4 gives "IV" and 0 gives "I". |
| Roman.RomanExample1994 | main.py:233-245 | 1994 gives "MCMXCIV". |
| TimeFormat.FormatMinecraftTime | main.py:203-216 | The result is "未知时间" exactly when `int(tick)` raises. Any other result is the rendered day, hour and minute, whose meaning SplitTicksSound states. |
| TimeFormat.SplitTicksSound | main.py:207-211 | Days is the floor of tick/24000, negative counters included. Hours lie in 0..23 and minutes in 0..59. The minute is the one that the ticks left after the hour fall in. |
| TimeFormat.SplitTicksDayShift | main.py:208-211 | Adding n whole days adds n to the day and leaves the hour and minute unchanged. |
| TimeFormat.FormatExampleOneDay | main.py:203-213 | 24000 ticks show as "1 天 0 小时 0 分钟". |
| TimeFormat.FormatExampleHalfPast | main.py:203-213 | 25500 ticks show as "1 天 1 小时 30 分钟". |
| TimeFormat.FormatExampleNegative | main.py:203-213 | -1 shows as "-1 天 23 小时 59 分钟", because floor division is used. |
| TimeFormat.FormatExampleNotANumber | main.py:214-216 | A value that `int()` rejects (a list, non-numeric text) shows as "未知时间". |
| Primitive.ToPrimitive | main.py:247-266 | `nbt_to_primitive` with its depth budget, one model for both copies (also mc_saver.py:8-24). Its meaning is stated by DepthBound, DeepEnough, DepthGuard, DictKeepsKeys, DictAtBudgetOne and ListKeepsOrder. |
| Primitive.DepthBound | main.py:247-266 | The converted value never nests lists and dicts deeper than the budget, and nests none once the budget is spent. |
| Primitive.DeepEnough | main.py:250-263 | With a budget larger than the tree's height the guard never fires: the result equals the conversion with no budget at all. |
| Primitive.DefaultBudget | main.py:139-142 | At the default budget of 32 used by every caller, results nest at most 32 levels, and a tree under 32 levels high is converted in full. |
| Primitive.DepthGuard | mc_saver.py:10-13 | A budget <= 0 gives "...". Otherwise ints, floats and strings come back unchanged. |
| Primitive.KeyIsString | main.py:259 | A dict key is converted exactly as a string value is. |
| Primitive.DictKeepsKeys | mc_saver.py:16-20 | With a budget >= 2 and distinct keys, a dict keeps every key, in order, each with its value converted at one less budget. |
| Primitive.DictAtBudgetOne | main.py:257-261 | At budget 1 every key becomes "...", so a non-empty dict collapses to the single entry "..." : "...". |
| Primitive.BuildDictDistinct | main.py:258-261 | A comprehension over pairs whose keys are distinct keeps every pair in order. |
| Primitive.ListKeepsOrder | mc_saver.py:21-22 | A list keeps its length and order, and element k is element k converted at one less budget. |
| ItemNbt.FormatNbt | main.py:268-342 | The summary method returns `NbtSummary(nbt)`, exceptions included. A non-dict gives the sentinel. Otherwise the name, enchantment and count parts are joined with a vertical-bar separator. |
| ItemNbt.EnchantmentText | main.py:326-333 | One enchantment compound renders as its translated name, a space and the Roman numeral of its level. |
| ItemNbt.EnchantmentLines | main.py:324-333 | The loop over the enchantment list returns `EnchantLines(items)`: one line per compound entry, or the first exception raised. |
| ItemNbt.SummarySentinel | main.py:268-342 | The summary is "无 NBT 数据" exactly when the tag is not a compound or none of the three parts is present. |
| ItemNbt.EnchantLinesPerCompound | main.py:324-333 | The enchantment lines are one per compound entry, in list order. Non-compound entries are skipped. |
| ItemNbt.EnchantLinesRaise | main.py:325-333 | The enchantment loop raises exactly when some compound entry's line raises. |
| ItemNbt.EnchantNameIgnoresCase | main.py:330-331 | Ids are matched regardless of ASCII case. |
| ItemNbt.EnchantNameIgnoresNamespace | main.py:330-331 | A leading "minecraft:" makes no difference to the shown name. |
| ItemNbt.EnchantNameLookup | main.py:284-331 | A bare lower-case id is shown under its table name when the table has it, and as itself otherwise. |
| ItemNbt.EnchantLineDefaultLevel | main.py:327-333 | A compound with an id and no lvl is shown at level "I". |
| ItemNbt.EnchantLineLevel | main.py:327-333 | An integer level is shown as its Roman numeral after the name. |
| Saver.GameMode | mc_saver.py:96-104 | `get_game_mode`: the name of `int(player.get('playerGameType', 0))`. ModeNames and GameModeDefault state its table and default. |
| Saver.Difficulty | mc_saver.py:106-114 | `get_difficulty`: the name of `int(data.get('Difficulty', 0))`. DifficultyNames states its table. |
| Saver.GetWorldInfo | mc_saver.py:35-49 | `get_world_info`, every exception propagated. WorldInfoNeedsData, WorldInfoWellTyped and WorldInfoDefaults state its meaning. |
| Saver.GetPlayerPosition | mc_saver.py:51-60 | `get_player_position`, every exception absorbed into the origin. PositionFirstThree and PositionFallback state its meaning. |
| Saver.GetDimension | mc_saver.py:62-75 | The result is "无法读取维度" exactly when reading the dimension raises. No label, known or raw, can be mistaken for it. |
| Saver.ModeNames | mc_saver.py:96-104 | Game types 0..3 give the four mode names. Every other int gives "未知模式". |
| Saver.GameModeDefault | mc_saver.py:97 | A player without playerGameType is in survival mode. |
| Saver.DifficultyNames | mc_saver.py:106-114 | Difficulties 0..3 give the four names. Every other int gives "未知难度". |
| Saver.WorldInfoNeedsData | mc_saver.py:35-36 | A save without Data raises, and the exception is not absorbed. |
| Saver.IntFieldOf | mc_saver.py:42-46 | An int-or-absent field reads as the stored int, or as 0 when it is absent. |
| Saver.WorldInfoWellTyped | mc_saver.py:35-49 | On well-typed Data the world info never raises. Each field is the stored value or its default ("未知", 0, survival, peaceful), and spawn comes from SpawnX/Y/Z. |
| Saver.WorldInfoDefaults | mc_saver.py:35-49 | An empty Data compound gives every default. |
| Saver.PositionFirstThree | mc_saver.py:51-58 | A Pos list of at least three floats gives its first three. |
| Saver.PositionFallback | mc_saver.py:51-60 | A missing Data, Player or Pos, or a Pos with fewer than three elements, gives the origin. |
| Saver.DimensionLabels | mc_saver.py:64-73 | The six table ids give their three labels, and only those ids give one of the three. Any other text is shown as "未知维度(text)". |
| Saver.DimensionDefault | mc_saver.py:64 | A player without Dimension is in the overworld. |
| Saver.DimensionUnreadableWithoutPlayer | mc_saver.py:62-75 | A missing Data or Player gives "无法读取维度". |
| Saver.DimensionExampleEnd | mc_saver.py:62-73 | "minecraft:the_end" gives "末地". |
| Saver.DimensionExampleCustom | mc_saver.py:62-73 | "custom:void" gives "未知维度(custom:void)". |
| Saver.DimensionExampleInt | mc_saver.py:62-73 | The int 0 gives "未知维度(0)". |
| Saver.GetPlayerInventory | mc_saver.py:77-94 | The loop returns `Inventory(levelDat)`, the empty list whenever any step raises. |
| Saver.WithIdSelects | mc_saver.py:81-83 | The selection is a subsequence of the entries and contains only entries with an id. Every entry with an id is in it, and its length is the number of positions holding an entry with an id, so exactly the entries lacking an id are dropped. |
| Saver.CollectRaises | mc_saver.py:80-90 | The walk over the entries raises exactly when some entry fails its `in` test or its record. |
| Saver.CollectSelects | mc_saver.py:81-90 | A walk that succeeds holds one record per entry with an id, in order. |
| Saver.InventoryAllOrNothing | mc_saver.py:78-94 | One failing entry empties the whole inventory. Otherwise record k is the record of the k-th entry with an id. |
| Saver.ItemDefaults | mc_saver.py:84-89 | An entry with only an id gets slot -1, count 0 and no tag. |
| Saver.InventoryEmpty | mc_saver.py:78-94 | A save without Data or Player, or a player without Inventory, has an empty inventory. |
| PyValues.IntTextRoundTrip | main.py:207 | The decimal text of every int is read back by `int()` as that int. |
| PyValues.Lookup | mc_saver.py:37 | A key is absent from a compound exactly when no entry carries it. A found value is the one stored under the key at its first entry. |

## Left out

- The Tkinter window, the file dialogs, the logging and the JSON export: user interface and I/O.
- `MinecraftSaver.__init__` and `_load_level_dat` read `level.dat` through nbtlib. Decoding is outside this model, which starts from the decoded tree.
- `format_real_time`: it needs the calendar and clock of the `datetime` library.
- Floats are opaque: their printed text plus the int they truncate to. Float arithmetic, and the rounding of very large ints by `float()`, are not modelled.
- PyValues.ToStr: `str()` of a list, compound or wrapped tag raises TypeError in the model. nbtlib's rendering of those values is not part of this model.
- PyValues.ToInt: `int()` of text accepts an optional sign and ASCII digits only. Surrounding whitespace, underscores and non-ASCII digits are not modelled.
- PyValues.ToFloat: `float()` of text is modelled as raising ValueError.
- PyValues.Lower: `str.lower` is modelled for ASCII letters only.
- Primitive.ToPrimitive: the program converts a byte, int or long array tag (numpy-backed, iterable, neither `str` nor `bytes`) element by element through its list branch. The model has no array case: such a tag is opaque and converts to its `repr`. The element-wise conversion of arrays is not modelled.
- A compound with a repeated key is looked up at its first entry. Decoded compounds have distinct keys.
- The message that `get_player_inventory` prints before returning the empty list is output only, and is left out.

