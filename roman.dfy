/**
  `roman_numeral`: greedy conversion of an enchantment level to a Roman
  numeral, with "I" as the answer for every number that produces no symbols.
 */
module Roman {

  /** The conversion table, largest value first, subtractive pairs included. */
  const Numerals: seq<(int, string)> := [
    (1000, "M"), (900, "CM"), (500, "D"), (400, "CD"),
    (100, "C"), (90, "XC"), (50, "L"), (40, "XL"),
    (10, "X"), (9, "IX"), (5, "V"), (4, "IV"), (1, "I")
  ]

  /** The value of one Roman symbol; 0 for any other character. */
  function SymbolValue(c: char): nat
  {
    match c
    case 'I' => 1
    case 'V' => 5
    case 'X' => 10
    case 'L' => 50
    case 'C' => 100
    case 'D' => 500
    case 'M' => 1000
    case _ => 0
  }

  /**
    The standard reading of a Roman numeral, independent of the table: a symbol
    followed by a larger one is subtracted, every other symbol is added.
   */
  function Decode(s: string): int
  {
    if s == [] then 0
    else if |s| >= 2 && SymbolValue(s[0]) < SymbolValue(s[1]) then Decode(s[1..]) - SymbolValue(s[0])
    else Decode(s[1..]) + SymbolValue(s[0])
  }

  /**
    The table rows the greedy loop appends, in order, when it starts at row `i`
    with `num` left to convert.
   */
  function Emitted(num: int, i: nat): (rows: seq<nat>)
    requires i <= |Numerals|
    ensures forall k :: 0 <= k < |rows| ==> i <= rows[k] < |Numerals|
    decreases |Numerals| - i, if num > 0 then num else 0
  {
    if i == |Numerals| then []
    else if num >= Numerals[i].0 then
      assert Numerals[i].0 >= 1 by { TableFacts(); }
      [i] + Emitted(num - Numerals[i].0, i)
    else Emitted(num, i + 1)
  }

  /** The symbols of the given table rows, concatenated. */
  function Spell(rows: seq<nat>): string
    requires forall k :: 0 <= k < |rows| ==> rows[k] < |Numerals|
  {
    if rows == [] then "" else Numerals[rows[0]].1 + Spell(rows[1..])
  }

  /** The sum of the values of the given table rows. */
  function RowsValue(rows: seq<nat>): int
    requires forall k :: 0 <= k < |rows| ==> rows[k] < |Numerals|
  {
    if rows == [] then 0 else Numerals[rows[0]].0 + RowsValue(rows[1..])
  }

  /** What `roman_numeral(num)` returns for an int. */
  function Roman(num: int): string
  {
    var res := Spell(Emitted(num, 0));
    if res == "" then "I" else res
  }

  /** `roman_numeral`: the greedy loop, appending one table symbol at a time. */
  method RomanNumeral(num: int) returns (s: string)
    ensures s == Roman(num)
  {
    var res := "";
    var n := num;
    var i := 0;
    while i < |Numerals|
      invariant 0 <= i <= |Numerals|
      invariant res + Spell(Emitted(n, i)) == Spell(Emitted(num, 0))
    {
      var (value, symbol) := Numerals[i];
      EmitStep(n, i);
      while n >= value
        invariant res + Spell(Emitted(n, i)) == Spell(Emitted(num, 0))
        decreases n
      {
        EmitStep(n, i);
        ConcatAssoc(res, symbol, Spell(Emitted(n - value, i)));
        res := res + symbol;
        n := n - value;
      }
      EmitStep(n, i);
      i := i + 1;
    }
    s := if res == "" then "I" else res;
  }

  lemma ConcatAssoc(a: string, b: string, c: string)
    ensures (a + b) + c == a + (b + c)
  {
  }

  /** One step of the loop: take row `i` once, or move past it. */
  lemma EmitStep(n: int, i: nat)
    requires i < |Numerals|
    ensures Numerals[i].0 >= 1
    ensures n >= Numerals[i].0 ==>
      Spell(Emitted(n, i)) == Numerals[i].1 + Spell(Emitted(n - Numerals[i].0, i))
    ensures n < Numerals[i].0 ==> Emitted(n, i) == Emitted(n, i + 1)
  {
    TableFacts();
    assert RowFacts(i);
    if n >= Numerals[i].0 {
      assert Emitted(n, i) == [i] + Emitted(n - Numerals[i].0, i);
    }
  }

  // ---------------------------------------------------------------------------
  // Facts about the table.

  /** What the proofs need to know about one table row. */
  predicate RowFacts(i: nat)
    requires i < |Numerals|
  {
    var (value, symbol) := Numerals[i];
    && value >= 1
    && |symbol| >= 1
    && SymbolValue(symbol[0]) <= value <= SymbolValue(symbol[|symbol| - 1])
    && Decode(symbol) == value
    && (i + 1 < |Numerals| ==> Numerals[i + 1].0 < value)
  }

  lemma TableFacts()
    ensures forall i :: 0 <= i < |Numerals| ==> RowFacts(i)
    ensures Numerals[|Numerals| - 1].0 == 1
  {
    assert RowFacts(0) && RowFacts(1) && RowFacts(2) && RowFacts(3);
    assert RowFacts(4) && RowFacts(5) && RowFacts(6) && RowFacts(7);
    assert RowFacts(8) && RowFacts(9) && RowFacts(10) && RowFacts(11) && RowFacts(12);
    forall i | 0 <= i < |Numerals|
      ensures RowFacts(i)
    {
      assert i in {0, 1, 2, 3, 4, 5, 6, 7, 8, 9, 10, 11, 12};
    }
  }

  lemma RowFactsAt(i: nat)
    requires i < |Numerals|
    ensures RowFacts(i)
  {
    TableFacts();
  }

  lemma {:induction false} TableSorted(i: nat, j: nat)
    requires i <= j < |Numerals|
    ensures Numerals[j].0 <= Numerals[i].0
    decreases j - i
  {
    TableFacts();
    if i < j {
      TableSorted(i + 1, j);
    }
  }

  // ---------------------------------------------------------------------------
  // Properties of the greedy loop.

  /** Nothing is emitted for a number below 1. */
  lemma {:induction false} EmittedNothingBelowOne(num: int, i: nat)
    requires num <= 0 && i <= |Numerals|
    ensures Emitted(num, i) == []
    decreases |Numerals| - i
  {
    TableFacts();
    if i < |Numerals| {
      EmittedNothingBelowOne(num, i + 1);
    }
  }

  /** The emitted rows' values add up to the number converted. */
  lemma {:induction false} EmittedValue(num: int, i: nat)
    requires num >= 0 && i < |Numerals|
    ensures RowsValue(Emitted(num, i)) == num
    decreases |Numerals| - i, num
  {
    TableFacts();
    if num >= Numerals[i].0 {
      EmittedValue(num - Numerals[i].0, i);
    } else if i + 1 < |Numerals| {
      EmittedValue(num, i + 1);
    }
  }

  /** Rows are emitted in table order. */
  lemma {:induction false} EmittedRowsOrdered(num: int, i: nat)
    requires i <= |Numerals|
    ensures forall a, b :: 0 <= a < b < |Emitted(num, i)| ==> Emitted(num, i)[a] <= Emitted(num, i)[b]
    decreases |Numerals| - i, if num > 0 then num else 0
  {
    TableFacts();
    if i < |Numerals| {
      if num >= Numerals[i].0 {
        var rest := Emitted(num - Numerals[i].0, i);
        EmittedRowsOrdered(num - Numerals[i].0, i);
        var rows := Emitted(num, i);
        assert rows == [i] + rest;
        forall a, b | 0 <= a < b < |rows| ensures rows[a] <= rows[b] {
          assert rows[b] == rest[b - 1];
          if a > 0 {
            assert rows[a] == rest[a - 1];
          }
        }
      } else {
        EmittedRowsOrdered(num, i + 1);
      }
    }
  }

  /** The values of the emitted rows never increase. */
  lemma EmittedOrdered(num: int, i: nat)
    requires i <= |Numerals|
    ensures var rows := Emitted(num, i);
      forall a, b :: 0 <= a < b < |rows| ==> Numerals[rows[b]].0 <= Numerals[rows[a]].0
  {
    var rows := Emitted(num, i);
    EmittedRowsOrdered(num, i);
    forall a, b | 0 <= a < b < |rows|
      ensures Numerals[rows[b]].0 <= Numerals[rows[a]].0
    {
      TableSorted(rows[a], rows[b]);
    }
  }

  /** Reading a concatenation splits when the seam does not call for a subtraction. */
  lemma {:induction false} DecodeAppend(a: string, b: string)
    requires a != []
    requires b != [] ==> SymbolValue(b[0]) <= SymbolValue(a[|a| - 1])
    ensures Decode(a + b) == Decode(a) + Decode(b)
    decreases |a|
  {
    if |a| == 1 {
      assert (a + b)[1..] == b;
    } else {
      assert (a + b)[1..] == a[1..] + b;
      DecodeAppend(a[1..], b);
    }
  }

  /** The first symbol the loop emits from row `i` on is worth at most row `i`'s value. */
  lemma {:induction false} SpellHead(num: int, i: nat)
    requires i <= |Numerals|
    ensures var s := Spell(Emitted(num, i));
      s != [] ==> i < |Numerals| && SymbolValue(s[0]) <= Numerals[i].0
    decreases |Numerals| - i, if num > 0 then num else 0
  {
    if i < |Numerals| {
      RowFactsAt(i);
      EmitStep(num, i);
      var sym := Numerals[i].1;
      if num >= Numerals[i].0 {
        var s := sym + Spell(Emitted(num - Numerals[i].0, i));
        assert s[0] == sym[0];
      } else {
        SpellHead(num, i + 1);
      }
    }
  }

  /** Reading the emitted symbols gives back the number converted. */
  lemma {:induction false} SpellDecode(num: int, i: nat)
    requires num >= 0 && i < |Numerals|
    ensures Decode(Spell(Emitted(num, i))) == num
    decreases |Numerals| - i, num
  {
    var value := Numerals[i].0;
    var sym := Numerals[i].1;
    RowFactsAt(i);
    EmitStep(num, i);
    if num >= value {
      var rest := Spell(Emitted(num - value, i));
      SpellHead(num - value, i);
      assert value <= SymbolValue(sym[|sym| - 1]);
      assert rest != [] ==> SymbolValue(rest[0]) <= value;
      DecodeAppend(sym, rest);
      SpellDecode(num - value, i);
    } else if i + 1 < |Numerals| {
      SpellDecode(num, i + 1);
    } else {
      TableFacts();
      EmittedNothingBelowOne(num, i);
    }
  }

  /** For a positive number the result reads back as that number. */
  lemma RomanRoundTrip(num: int)
    requires num >= 1
    ensures Decode(Roman(num)) == num
  {
    SpellDecode(num, 0);
    assert Spell(Emitted(num, 0)) != "";
  }

  /** The result is never empty, and every number below 1 gives "I". */
  lemma RomanFloor(num: int)
    ensures Roman(num) != ""
    ensures num <= 0 ==> Roman(num) == "I"
    ensures num >= 1 ==> Roman(num) == Spell(Emitted(num, 0))
  {
    if num <= 0 {
      EmittedNothingBelowOne(num, 0);
    } else {
      SpellDecode(num, 0);
    }
  }

  lemma RomanExamples()
    ensures Roman(4) == "IV"
    ensures Roman(0) == "I"
  {
    RomanFloor(0);
    EmittedNothingBelowOne(0, 11);
    assert Emitted(4, 11) == [11];
    assert Emitted(4, 5) == Emitted(4, 11);
    assert Emitted(4, 0) == Emitted(4, 5);
  }

  lemma EmittedFor1994()
    ensures Emitted(1994, 0) == [0, 1, 5, 11]
  {
    EmittedNothingBelowOne(0, 11);
    assert Emitted(4, 11) == [11];
    assert Emitted(4, 10) == Emitted(4, 11);
    assert Emitted(4, 9) == Emitted(4, 10);
    assert Emitted(4, 8) == Emitted(4, 9);
    assert Emitted(4, 7) == Emitted(4, 8);
    assert Emitted(4, 6) == Emitted(4, 7);
    assert Emitted(4, 5) == Emitted(4, 6);
    assert Emitted(94, 5) == [5] + Emitted(4, 5);
    assert Emitted(94, 4) == Emitted(94, 5);
    assert Emitted(94, 3) == Emitted(94, 4);
    assert Emitted(94, 2) == Emitted(94, 3);
    assert Emitted(94, 1) == Emitted(94, 2);
    assert Emitted(994, 1) == [1] + Emitted(94, 1);
    assert Emitted(994, 0) == Emitted(994, 1);
    assert Emitted(1994, 0) == [0] + Emitted(994, 0);
  }

  lemma RomanExample1994()
    ensures Roman(1994) == "MCMXCIV"
  {
    EmittedFor1994();
    assert Spell([11]) == "IV";
    assert Spell([5, 11]) == "XCIV";
    assert Spell([1, 5, 11]) == "CMXCIV";
  }
}
