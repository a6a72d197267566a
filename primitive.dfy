/**
  `nbt_to_primitive`: a decoded tree turned into plain Python values for
  export, with a depth budget that replaces whatever lies too deep by "...".
  The function appears twice in the source, once per file, with the same
  branches; this module models both.
 */
module Primitive {
  import opened PyValues

  /** Plain Python values: the result of the conversion. */
  datatype Value =
    | VInt(i: int)
    | VFloat(f: Float)
    | VStr(s: string)
    | VList(items: seq<Value>)
    | VDict(entries: seq<(Value, Value)>)

  /** What the conversion returns once the budget is spent. */
  const Elided := VStr("...")

  /** The budget the callers use when they give none. */
  const DefaultMaxDepth := 32

  /** `d[k] = v` on a Python dict: a present key keeps its place, a new key goes last. */
  function Put(d: seq<(Value, Value)>, k: Value, v: Value): seq<(Value, Value)>
  {
    if d == [] then [(k, v)]
    else if d[0].0 == k then [(k, v)] + d[1..]
    else [d[0]] + Put(d[1..], k, v)
  }

  /** The dict a comprehension builds by storing its pairs one after another. */
  function BuildDict(pairs: seq<(Value, Value)>): seq<(Value, Value)>
  {
    if pairs == [] then []
    else Put(BuildDict(pairs[..|pairs| - 1]), pairs[|pairs| - 1].0, pairs[|pairs| - 1].1)
  }

  /**
    `nbt_to_primitive` applied to a dict key: keys are strings, so only the
    budget check and the string branch apply.
   */
  function KeyToPrimitive(key: string, maxDepth: int): Value
  {
    if maxDepth <= 0 then Elided else VStr(key)
  }

  /** `nbt_to_primitive(t, maxDepth)`. */
  function ToPrimitive(t: Tag, maxDepth: int): Value
    decreases t
  {
    if maxDepth <= 0 then Elided
    else match t
      case TInt(i) => VInt(i)
      case TFloat(f) => VFloat(f)
      case TStr(s) => VStr(s)
      case TWrapped(inner) => ToPrimitive(inner, maxDepth - 1)
      case TDict(es) =>
        VDict(BuildDict(seq(|es|, k requires 0 <= k < |es| =>
          (KeyToPrimitive(es[k].0, maxDepth - 1), ToPrimitive(es[k].1, maxDepth - 1)))))
      case TList(items) =>
        VList(seq(|items|, k requires 0 <= k < |items| => ToPrimitive(items[k], maxDepth - 1)))
      case TNone => VStr("None")
      case TOpaque(r) => VStr(r)
  }

  // ---------------------------------------------------------------------------
  // Nesting depth, and a conversion without a budget to compare against.

  function MaxOf(s: seq<nat>): nat
  {
    if s == [] then 0 else if s[0] > MaxOf(s[1..]) then s[0] else MaxOf(s[1..])
  }

  /** How many lists and dicts are nested in a value. */
  function Depth(v: Value): nat
  {
    match v
    case VList(items) =>
      1 + MaxOf(seq(|items|, k requires 0 <= k < |items| => Depth(items[k])))
    case VDict(es) =>
      1 + MaxOf(seq(|es|, k requires 0 <= k < |es| =>
        if Depth(es[k].0) > Depth(es[k].1) then Depth(es[k].0) else Depth(es[k].1)))
    case _ => 0
  }

  /** How many wrappers, lists and dicts are nested in a tree. */
  function Height(t: Tag): nat
  {
    match t
    case TWrapped(inner) => 1 + Height(inner)
    case TList(items) => 1 + MaxOf(seq(|items|, k requires 0 <= k < |items| => Height(items[k])))
    case TDict(es) => 1 + MaxOf(seq(|es|, k requires 0 <= k < |es| => Height(es[k].1)))
    case _ => 0
  }

  /** The conversion with no budget at all. */
  function Plain(t: Tag): Value
  {
    match t
    case TInt(i) => VInt(i)
    case TFloat(f) => VFloat(f)
    case TStr(s) => VStr(s)
    case TWrapped(inner) => Plain(inner)
    case TDict(es) => VDict(BuildDict(seq(|es|, k requires 0 <= k < |es| => (VStr(es[k].0), Plain(es[k].1)))))
    case TList(items) => VList(seq(|items|, k requires 0 <= k < |items| => Plain(items[k])))
    case TNone => VStr("None")
    case TOpaque(r) => VStr(r)
  }

  predicate DistinctKeys(es: seq<(string, Tag)>)
  {
    forall a, b :: 0 <= a < b < |es| ==> es[a].0 != es[b].0
  }

  // ---------------------------------------------------------------------------
  // Lemmas about dict building.

  lemma {:induction false} MaxOfBound(s: seq<nat>, b: nat)
    requires forall k :: 0 <= k < |s| ==> s[k] <= b
    ensures MaxOf(s) <= b
  {
    if s != [] {
      MaxOfBound(s[1..], b);
    }
  }

  lemma {:induction false} MaxOfAtLeast(s: seq<nat>, k: nat)
    requires k < |s|
    ensures s[k] <= MaxOf(s)
  {
    if k > 0 {
      MaxOfAtLeast(s[1..], k - 1);
    }
  }

  /** Every entry of a stored-into dict is either an old entry or the new pair. */
  lemma {:induction false} PutFrom(d: seq<(Value, Value)>, k: Value, v: Value)
    ensures forall e :: e in Put(d, k, v) ==> e in d || e == (k, v)
  {
    if d != [] && d[0].0 != k {
      PutFrom(d[1..], k, v);
    }
  }

  /** Every entry of a built dict is one of the pairs it was built from. */
  lemma {:induction false} BuildDictFrom(pairs: seq<(Value, Value)>)
    ensures forall e :: e in BuildDict(pairs) ==> e in pairs
  {
    if pairs != [] {
      var init := pairs[..|pairs| - 1];
      var last := pairs[|pairs| - 1];
      BuildDictFrom(init);
      PutFrom(BuildDict(init), last.0, last.1);
      forall e | e in BuildDict(pairs) ensures e in pairs {
        if e in BuildDict(init) {
          assert e in init;
          var j :| 0 <= j < |init| && init[j] == e;
          assert pairs[j] == e;
        }
      }
    }
  }

  function Keys(d: seq<(Value, Value)>): seq<Value>
  {
    seq(|d|, k requires 0 <= k < |d| => d[k].0)
  }

  /** Storing a key that is not present appends it. */
  lemma {:induction false} PutNew(d: seq<(Value, Value)>, k: Value, v: Value)
    requires k !in Keys(d)
    ensures Put(d, k, v) == d + [(k, v)]
  {
    if d != [] {
      assert d[0].0 == Keys(d)[0];
      assert Keys(d[1..]) == Keys(d)[1..];
      PutNew(d[1..], k, v);
      assert d == [d[0]] + d[1..];
    }
  }

  /** Pairs whose keys are pairwise different build a dict holding exactly them, in order. */
  lemma {:induction false} BuildDictDistinct(pairs: seq<(Value, Value)>)
    requires forall a, b :: 0 <= a < b < |pairs| ==> pairs[a].0 != pairs[b].0
    ensures BuildDict(pairs) == pairs
  {
    if pairs != [] {
      var init := pairs[..|pairs| - 1];
      var last := pairs[|pairs| - 1];
      BuildDictDistinct(init);
      assert last.0 !in Keys(init);
      PutNew(init, last.0, last.1);
      assert init + [last] == pairs;
    }
  }

  /** Pairs that are all the same build a one-entry dict. */
  lemma {:induction false} BuildDictConstant(pairs: seq<(Value, Value)>, p: (Value, Value))
    requires forall k :: 0 <= k < |pairs| ==> pairs[k] == p
    ensures BuildDict(pairs) == if pairs == [] then [] else [p]
  {
    if pairs != [] {
      BuildDictConstant(pairs[..|pairs| - 1], p);
    }
  }

  // ---------------------------------------------------------------------------
  // Properties of the conversion.

  /** Converting a key is converting it as a string. */
  lemma KeyIsString(key: string, maxDepth: int)
    ensures KeyToPrimitive(key, maxDepth) == ToPrimitive(TStr(key), maxDepth)
  {
  }

  /**
    The depth guard: a spent budget gives "..." whatever the input, and with
    budget left ints, floats and strings come back unchanged.
   */
  lemma DepthGuard(t: Tag, maxDepth: int)
    ensures maxDepth <= 0 ==> ToPrimitive(t, maxDepth) == VStr("...")
    ensures maxDepth > 0 && t.TInt? ==> ToPrimitive(t, maxDepth) == VInt(t.i)
    ensures maxDepth > 0 && t.TFloat? ==> ToPrimitive(t, maxDepth) == VFloat(t.f)
    ensures maxDepth > 0 && t.TStr? ==> ToPrimitive(t, maxDepth) == VStr(t.s)
  {
  }

  /** The result never nests more lists and dicts than the budget allows. */
  lemma {:induction false} DepthBound(t: Tag, maxDepth: int)
    ensures Depth(ToPrimitive(t, maxDepth)) <= if maxDepth > 0 then maxDepth else 0
    decreases t
  {
    if maxDepth > 0 {
      var d := maxDepth - 1;
      match t
      case TWrapped(inner) =>
        DepthBound(inner, d);
      case TList(items) =>
        var out := seq(|items|, k requires 0 <= k < |items| => ToPrimitive(items[k], d));
        var depths := seq(|out|, k requires 0 <= k < |out| => Depth(out[k]));
        forall k | 0 <= k < |items| ensures depths[k] <= d {
          DepthBound(items[k], d);
        }
        MaxOfBound(depths, d);
      case TDict(es) =>
        var pairs := seq(|es|, k requires 0 <= k < |es| => (KeyToPrimitive(es[k].0, d), ToPrimitive(es[k].1, d)));
        var built := BuildDict(pairs);
        assert ToPrimitive(t, maxDepth) == VDict(built);
        BuildDictFrom(pairs);
        var depths := seq(|built|, k requires 0 <= k < |built| =>
          if Depth(built[k].0) > Depth(built[k].1) then Depth(built[k].0) else Depth(built[k].1));
        forall k | 0 <= k < |built| ensures depths[k] <= d {
          assert built[k] in pairs;
          var j :| 0 <= j < |pairs| && pairs[j] == built[k];
          DepthBound(es[j].1, d);
        }
        MaxOfBound(depths, d);
      case _ =>
    }
  }

  /** With more budget than the tree is high, the guard never fires. */
  lemma {:induction false} DeepEnough(t: Tag, maxDepth: int)
    requires maxDepth > Height(t)
    ensures ToPrimitive(t, maxDepth) == Plain(t)
    decreases t
  {
    var d := maxDepth - 1;
    match t
    case TWrapped(inner) =>
      DeepEnough(inner, d);
    case TList(items) =>
      var hs := seq(|items|, k requires 0 <= k < |items| => Height(items[k]));
      forall k | 0 <= k < |items| ensures ToPrimitive(items[k], d) == Plain(items[k]) {
        MaxOfAtLeast(hs, k);
        DeepEnough(items[k], d);
      }
    case TDict(es) =>
      var hs := seq(|es|, k requires 0 <= k < |es| => Height(es[k].1));
      var pairs := seq(|es|, k requires 0 <= k < |es| => (KeyToPrimitive(es[k].0, d), ToPrimitive(es[k].1, d)));
      var plainPairs := seq(|es|, k requires 0 <= k < |es| => (VStr(es[k].0), Plain(es[k].1)));
      forall k | 0 <= k < |es| ensures pairs[k] == plainPairs[k] {
        MaxOfAtLeast(hs, k);
        DeepEnough(es[k].1, d);
      }
      assert pairs == plainPairs;
    case _ =>
  }

  /**
    With a budget of at least 2, a dict with distinct keys keeps its keys in
    their order, each value converted with one less unit of budget.
   */
  /**
    At the budget the callers use, every tree less than 32 levels high is
    converted in full, and no result nests more than 32 levels.
   */
  lemma DefaultBudget(t: Tag)
    ensures Depth(ToPrimitive(t, DefaultMaxDepth)) <= 32
    ensures Height(t) < 32 ==> ToPrimitive(t, DefaultMaxDepth) == Plain(t)
  {
    DepthBound(t, DefaultMaxDepth);
    if Height(t) < 32 {
      DeepEnough(t, DefaultMaxDepth);
    }
  }

  lemma DictKeepsKeys(es: seq<(string, Tag)>, maxDepth: int)
    requires maxDepth >= 2 && DistinctKeys(es)
    ensures ToPrimitive(TDict(es), maxDepth)
      == VDict(seq(|es|, k requires 0 <= k < |es| => (VStr(es[k].0), ToPrimitive(es[k].1, maxDepth - 1))))
  {
    var d := maxDepth - 1;
    var pairs := seq(|es|, k requires 0 <= k < |es| => (KeyToPrimitive(es[k].0, d), ToPrimitive(es[k].1, d)));
    var expected := seq(|es|, k requires 0 <= k < |es| => (VStr(es[k].0), ToPrimitive(es[k].1, d)));
    assert pairs == expected;
    BuildDictDistinct(pairs);
  }

  /**
    With a budget of exactly 1, every key and value becomes "...", so a
    non-empty dict collapses to the single entry {"...": "..."}.
   */
  lemma DictAtBudgetOne(es: seq<(string, Tag)>)
    ensures ToPrimitive(TDict(es), 1) == VDict(if es == [] then [] else [(Elided, Elided)])
  {
    var pairs := seq(|es|, k requires 0 <= k < |es| => (KeyToPrimitive(es[k].0, 0), ToPrimitive(es[k].1, 0)));
    BuildDictConstant(pairs, (Elided, Elided));
  }

  /** A list keeps its length and order, each element converted with one less unit of budget. */
  lemma ListKeepsOrder(items: seq<Tag>, maxDepth: int, k: nat)
    requires maxDepth > 0 && k < |items|
    ensures ToPrimitive(TList(items), maxDepth).VList?
    ensures |ToPrimitive(TList(items), maxDepth).items| == |items|
    ensures ToPrimitive(TList(items), maxDepth).items[k] == ToPrimitive(items[k], maxDepth - 1)
  {
  }
}
