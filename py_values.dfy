/**
  The already-decoded level.dat tree, and the handful of Python operations the
  viewer applies to it: `dict.get`, subscription, `in`, iteration, and the
  built-in conversions `int()`, `str()` and `float()`.  Each operation that can
  raise in Python returns a `Result` whose failure names the exception class.
 */
module PyValues {

  /** The exception classes the core can raise while reading a tree. */
  datatype Exception =
    | KeyError
    | IndexError
    | TypeError
    | AttributeError
    | ValueError
    | OverflowError

  /** A Python computation: a value, or the exception it raised. */
  datatype Result<+T> = Ok(value: T) | Raise(exc: Exception) {
    predicate IsFailure() { Raise? }

    function PropagateFailure<U>(): Result<U>
      requires Raise?
    {
      Raise(exc)
    }

    function Extract(): T
      requires Ok?
    {
      value
    }
  }

  datatype Option<+T> = None | Some(value: T)

  /**
    A Python float, taken as given rather than computed: `text` is what `str()`
    prints for it and `trunc` is what `int()` returns for it (None for inf and nan).
   */
  datatype Float = Float(text: string, trunc: Option<int>)

  /**
    A node of the decoded tree, as the viewer's code can tell nodes apart:
    integer tags (Byte, Short, Int, Long) are Python ints, Float and Double tags
    Python floats, String tags Python strings, List tags lists and Compound tags
    dicts.  `TWrapped` is an object carrying `py_data`, `TOpaque` any other
    object, known only by its `repr`.
   */
  datatype Tag =
    | TInt(i: int)
    | TFloat(f: Float)
    | TStr(s: string)
    | TNone
    | TList(items: seq<Tag>)
    | TDict(entries: seq<(string, Tag)>)
    | TWrapped(inner: Tag)
    | TOpaque(repr: string)

  // ---------------------------------------------------------------------------
  // Decimal text of integers: what `str()` prints and what `int()` reads back.

  predicate IsDigit(c: char) { '0' <= c <= '9' }

  predicate AllDigits(s: string) { forall k :: 0 <= k < |s| ==> IsDigit(s[k]) }

  function DigitChar(d: int): (c: char)
    requires 0 <= d < 10
    ensures IsDigit(c) && c as int - '0' as int == d
  {
    ('0' as int + d) as char
  }

  /** The decimal digits of a natural number, most significant first. */
  function NatText(n: nat): (s: string)
    ensures |s| >= 1 && AllDigits(s)
    decreases n
  {
    if n < 10 then [DigitChar(n)] else NatText(n / 10) + [DigitChar(n % 10)]
  }

  /** `str(i)` for a Python int. */
  function Decimal(i: int): string
  {
    if i < 0 then "-" + NatText(-i) else NatText(i)
  }

  /** The number a string of decimal digits denotes. */
  function DigitsValue(s: string): nat
    requires AllDigits(s)
    decreases |s|
  {
    if s == [] then 0
    else DigitsValue(s[..|s| - 1]) * 10 + (s[|s| - 1] as int - '0' as int)
  }

  /** `int(s)` for a string: an optional sign followed by at least one ASCII digit. */
  function ParseInt(s: string): Option<int>
  {
    if |s| > 0 && (s[0] == '-' || s[0] == '+') then
      if |s| > 1 && AllDigits(s[1..]) then
        var v: int := DigitsValue(s[1..]);
        Some(if s[0] == '-' then -v else v)
      else None
    else if |s| > 0 && AllDigits(s) then Some(DigitsValue(s))
    else None
  }

  lemma {:induction false} NatTextValue(n: nat)
    ensures DigitsValue(NatText(n)) == n
    decreases n
  {
    if n >= 10 {
      var s := NatText(n);
      assert s[..|s| - 1] == NatText(n / 10);
      NatTextValue(n / 10);
    }
  }

  /** `int(str(i)) == i`: the text printed for an int reads back as that int. */
  lemma IntTextRoundTrip(i: int)
    ensures ParseInt(Decimal(i)) == Some(i)
  {
    var s := Decimal(i);
    if i < 0 {
      assert s[0] == '-' && s[1..] == NatText(-i);
      NatTextValue(-i);
    } else {
      assert s == NatText(i) && IsDigit(s[0]);
      NatTextValue(i);
    }
  }

  // ---------------------------------------------------------------------------
  // String helpers used by the formatting code.

  /** `str.lower`, restricted to ASCII letters. */
  function Lower(s: string): (r: string)
    ensures |r| == |s|
    ensures forall k :: 0 <= k < |s| ==> r[k] == (if 'A' <= s[k] <= 'Z' then (s[k] as int + 32) as char else s[k])
  {
    if s == [] then []
    else [if 'A' <= s[0] <= 'Z' then (s[0] as int + 32) as char else s[0]] + Lower(s[1..])
  }

  /** `s.replace(pat, '')`: one left-to-right pass removing non-overlapping occurrences. */
  function RemoveAll(s: string, pat: string): string
    requires pat != []
    decreases |s|
  {
    if |s| < |pat| then s
    else if s[..|pat|] == pat then RemoveAll(s[|pat|..], pat)
    else [s[0]] + RemoveAll(s[1..], pat)
  }

  predicate OccursAt(s: string, pat: string, k: int)
  {
    0 <= k && k + |pat| <= |s| && s[k..k + |pat|] == pat
  }

  /** `pat in s` for strings. */
  predicate IsSubstring(pat: string, s: string)
  {
    exists k | 0 <= k <= |s| - |pat| :: OccursAt(s, pat, k)
  }

  /** `sep.join(parts)`. */
  function Join(parts: seq<string>, sep: string): string
  {
    if parts == [] then ""
    else if |parts| == 1 then parts[0]
    else parts[0] + sep + Join(parts[1..], sep)
  }

  // ---------------------------------------------------------------------------
  // Python operations on tree nodes.

  /** The value stored under `key` in a dict's entries. */
  function Lookup(entries: seq<(string, Tag)>, key: string): (r: Option<Tag>)
    ensures r.None? <==> forall k :: 0 <= k < |entries| ==> entries[k].0 != key
    ensures r.Some? ==>
      exists k :: 0 <= k < |entries| && entries[k] == (key, r.value) && forall j :: 0 <= j < k ==> entries[j].0 != key
  {
    if entries == [] then None
    else if entries[0].0 == key then Some(entries[0].1)
    else Lookup(entries[1..], key)
  }

  /** `t.get(key, default)`; only dicts have `get`. */
  function Get(t: Tag, key: string, default: Tag): Result<Tag>
  {
    match t
    case TDict(entries) =>
      (match Lookup(entries, key)
       case Some(v) => Ok(v)
       case None => Ok(default))
    case _ => Raise(AttributeError)
  }

  /** `t[key]` with a string key. */
  function Index(t: Tag, key: string): Result<Tag>
  {
    match t
    case TDict(entries) =>
      (match Lookup(entries, key)
       case Some(v) => Ok(v)
       case None => Raise(KeyError))
    case _ => Raise(TypeError)
  }

  /** `t[n]` with a non-negative int index. */
  function At(t: Tag, n: nat): Result<Tag>
  {
    match t
    case TList(items) => if n < |items| then Ok(items[n]) else Raise(IndexError)
    case TStr(s) => if n < |s| then Ok(TStr([s[n]])) else Raise(IndexError)
    case TDict(_) => Raise(KeyError)  // a dict of string keys has no int key
    case _ => Raise(TypeError)
  }

  /** `key in t` with a string key. */
  function Contains(t: Tag, key: string): Result<bool>
  {
    match t
    case TDict(entries) => Ok(Lookup(entries, key).Some?)
    case TStr(s) => Ok(IsSubstring(key, s))
    case TList(items) => Ok(TStr(key) in items)
    case _ => Raise(TypeError)
  }

  /** What `for x in t` visits: list elements, dict keys, or string characters. */
  function Iterate(t: Tag): Result<seq<Tag>>
  {
    match t
    case TList(items) => Ok(items)
    case TDict(entries) => Ok(seq(|entries|, k requires 0 <= k < |entries| => TStr(entries[k].0)))
    case TStr(s) => Ok(seq(|s|, k requires 0 <= k < |s| => TStr([s[k]])))
    case _ => Raise(TypeError)
  }

  /** `int(t)`. */
  function ToInt(t: Tag): Result<int>
  {
    match t
    case TInt(i) => Ok(i)
    case TFloat(f) =>
      (match f.trunc
       case Some(k) => Ok(k)
       case None => if f.text == "nan" then Raise(ValueError) else Raise(OverflowError))
    case TStr(s) =>
      (match ParseInt(s)
       case Some(k) => Ok(k)
       case None => Raise(ValueError))
    case _ => Raise(TypeError)
  }

  /** `str(t)`; the text of lists, dicts and wrapped objects is not modelled. */
  function ToStr(t: Tag): Result<string>
  {
    match t
    case TStr(s) => Ok(s)
    case TInt(i) => Ok(Decimal(i))
    case TFloat(f) => Ok(f.text)
    case TNone => Ok("None")
    case TOpaque(r) => Ok(r)
    case _ => Raise(TypeError)
  }

  /** `float(i)` for an int, printed with a trailing ".0". */
  function IntToFloat(i: int): Float
  {
    Float(Decimal(i) + ".0", Some(i))
  }

  /** `float(t)`; strings are not parsed. */
  function ToFloat(t: Tag): Result<Float>
  {
    match t
    case TFloat(f) => Ok(f)
    case TInt(i) => Ok(IntToFloat(i))
    case TStr(_) => Raise(ValueError)
    case _ => Raise(TypeError)
  }
}
