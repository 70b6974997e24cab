/** The values the scripts pass around: Python scalars, lists and dicts as they
    come from the block parsers or from the item feed, plus Python's truthiness,
    numeric equality, str() rendering and the float() parse the scripts use. */
module Values {
  import opened Text

  datatype Option<T> = None | Some(value: T)

  /** A Python value. A float is kept as the exact real its decimal text denotes.
      A dict keeps its keys in insertion order next to the key/value map;
      WellFormed says which of these values a Python dict can be. */
  datatype Value =
    | Null
    | Bool(b: bool)
    | Int(i: int)
    | Float(x: real)
    | Str(s: string)
    | List(items: seq<Value>)
    | Dict(keys: seq<string>, fields: map<string, Value>)

  /** A value Python can build: every dict lists each of its keys exactly once,
      in insertion order, and every element and field is such a value too. */
  predicate WellFormed(v: Value)
  {
    match v
    case List(items) => forall i :: 0 <= i < |items| ==> WellFormed(items[i])
    case Dict(keys, fields) =>
      && (forall i, j :: 0 <= i < j < |keys| ==> keys[i] != keys[j])
      && (forall i :: 0 <= i < |keys| ==> keys[i] in fields)
      && (forall k :: k in fields ==> k in keys && WellFormed(fields[k]))
    case _ => true
  }

  /** A dict whose iteration order does not matter to the code that uses it. */
  type Entity = map<string, Value>

  /** dict.get(k, default) */
  function Get(e: Entity, k: string, default: Value): (r: Value)
    ensures k in e ==> r == e[k]
    ensures k !in e ==> r == default
  {
    if k in e then e[k] else default
  }

  /** item.get(k, "").strip() runs: the field is a string or absent. */
  predicate StrField(e: Entity, k: string)
  {
    k !in e || e[k].Str?
  }

  /** item.get(k, "") for a field that is a string or absent. */
  function GetStr(e: Entity, k: string): (r: string)
    requires StrField(e, k)
    ensures k in e ==> e[k] == Str(r)
    ensures k !in e ==> r == ""
  {
    if k in e then e[k].s else ""
  }

  /** item.get(k, default) for a field that is a string or absent. */
  function GetStrOr(e: Entity, k: string, default: string): (r: string)
    requires StrField(e, k)
    ensures k in e ==> e[k] == Str(r)
    ensures k !in e ==> r == default
  {
    if k in e then e[k].s else default
  }

  /** The six weapon buckets of local_data. */
  const WeaponTypes: set<string> := {"sword", "hammer", "spear", "staff", "dagger", "axe"}

  /** bool(v) */
  predicate Truthy(v: Value)
  {
    match v
    case Null => false
    case Bool(b) => b
    case Int(i) => i != 0
    case Float(x) => x != 0.0
    case Str(s) => s != []
    case List(items) => items != []
    case Dict(_, fields) => fields != map[]
  }

  /** `a or b` */
  function Or(a: Value, b: Value): (r: Value)
    ensures Truthy(a) ==> r == a
    ensures !Truthy(a) ==> r == b
  {
    if Truthy(a) then a else b
  }

  /** bool, int and float take part in arithmetic and compare by value. */
  predicate IsNumber(v: Value) { v.Bool? || v.Int? || v.Float? }

  function AsReal(v: Value): real
    requires IsNumber(v)
  {
    match v
    case Bool(b) => if b then 1.0 else 0.0
    case Int(i) => i as real
    case Float(x) => x
  }

  /** Python `v == r` for a numeric literal r: only numbers can be equal to it. */
  predicate EqualsNumber(v: Value, r: real)
  {
    IsNumber(v) && AsReal(v) == r
  }

  // ---------------------------------------------------------------- decimal literals

  /** Digits with at most one '.', at least one digit: what int()/float() of a
      plain unsigned decimal accepts. */
  predicate IsDecimal(s: string)
  {
    if '.' in s then
      var (a, b) := SplitOnce(s, '.');
      '.' !in b && AllDigits(a) && AllDigits(b) && a + b != []
    else IsDigits(s)
  }

  predicate AllDigits(s: string) { forall i :: 0 <= i < |s| ==> IsDigit(s[i]) }

  function Pow10(n: nat): (r: nat)
    ensures r >= 1
  {
    if n == 0 then 1 else 10 * Pow10(n - 1)
  }

  /** The exact value of a decimal literal. */
  function DecimalValue(s: string): (r: real)
    requires IsDecimal(s)
    ensures r >= 0.0
  {
    if '.' in s then
      var (a, b) := SplitOnce(s, '.');
      DigitsValue(a) as real + DigitsValue(b) as real / Pow10(|b|) as real
    else DigitsValue(s) as real
  }

  /** float(s) on ASCII: surrounding whitespace, an optional sign and a decimal
      literal in the digits 0-9. None for every other text. That covers every
      text on which Python raises ValueError, and also some that Python reads:
      exponents, inf and nan, '_' between digits, non-ASCII digits and
      non-ASCII whitespace. */
  function ParseFloat(s: string): (r: Option<real>)
    ensures r.Some? <==> var t := Strip(s);
      IsDecimal(t) || (t != [] && (t[0] == '-' || t[0] == '+') && IsDecimal(t[1..]))
  {
    var t := Strip(s);
    if IsDecimal(t) then Some(DecimalValue(t))
    else if t != [] && t[0] == '-' && IsDecimal(t[1..]) then Some(-DecimalValue(t[1..]))
    else if t != [] && t[0] == '+' && IsDecimal(t[1..]) then Some(DecimalValue(t[1..]))
    else None
  }

  /** float() reads a decimal literal written in numerals back as its value ... */
  lemma ParseFloatDecimal(t: string, v: real)
    requires IsDecimal(t) && DecimalValue(t) == v
    requires forall k :: 0 <= k < |t| ==> IsNumeral(t[k])
    ensures ParseFloat(t) == Some(v)
  {
    NumeralsStrip(t);
  }

  /** ... and with a minus sign in front, as its negation. */
  lemma ParseFloatNegative(t: string, v: real)
    requires IsDecimal(t) && -DecimalValue(t) == v
    requires forall k :: 0 <= k < |t| ==> IsNumeral(t[k])
    ensures ParseFloat("-" + t) == Some(v)
  {
    var s := "-" + t;
    assert forall k :: 0 <= k < |s| ==> IsNumeral(s[k]) by {
      forall k | 0 <= k < |s| ensures IsNumeral(s[k]) { if k > 0 { assert s[k] == t[k - 1]; } }
    }
    NumeralsStrip(s);
    assert s[1..] == t;
    assert !IsDecimal(s) by {
      if '.' in s {
        var (a, b) := SplitOnce(s, '.');
        assert s[0] == (a + ['.'] + b)[0];
      }
    }
    assert ParseFloat(s) == Some(-DecimalValue(s[1..]));
  }

  /** float() reads a whole number written by str() back as that number. */
  lemma ParseFloatNat(n: nat)
    ensures ParseFloat(NatText(n)) == Some(n as real)
  {
    var t := NatText(n);
    assert t[0] !in Whitespace && t[|t| - 1] !in Whitespace;
    StripAnyOfClean(t, Whitespace);
    assert '.' !in t;
  }

  // ---------------------------------------------------------------- str()

  /** str(v) as an f-string renders it. */
  function Show(v: Value): string
  {
    match v
    case Null => "None"
    case Bool(b) => if b then "True" else "False"
    case Int(i) => IntText(i)
    case Float(x) => FloatText(x)
    case Str(s) => s
    case List(_) => "[...]"
    case Dict(_, _) => "{...}"
  }

  /** str(b).lower() for a bool, which the generators write into Java code. */
  function ShowLower(v: Value): string
  {
    Lower(Show(v))
  }

  /** repr of a float: integer part, '.', and the fractional digits without
      trailing zeros (at least one digit). */
  function FloatText(x: real): (r: string)
    ensures r != [] && Numerals(r)
  {
    if x < 0.0 then
      NumeralsConcat("-", UnsignedFloatText(-x));
      "-" + UnsignedFloatText(-x)
    else UnsignedFloatText(x)
  }

  function UnsignedFloatText(x: real): (r: string)
    requires x >= 0.0
    ensures r != [] && Numerals(r)
  {
    var whole := x.Floor;
    var t := NatText(whole);
    assert Numerals(t);
    NumeralsConcat(t, ".");
    NumeralsConcat(t + ".", FracText(x - whole as real));
    t + "." + FracText(x - whole as real)
  }

  /** The fractional digits repr writes: at most 17, trailing zeros dropped,
      at least one. */
  function FracText(f: real): (r: string)
    ensures r != [] && forall k :: 0 <= k < |r| ==> IsDigit(r[k])
  {
    FracDigitsAreDigits(f, 17);
    TrimZerosKeepsDigits(FracDigits(f, 17));
    var t := TrimZeros(FracDigits(f, 17));
    if t == [] then "0" else t
  }

  /** The characters str() writes for a number. */
  predicate IsNumeral(c: char) { IsDigit(c) || c == '.' || c == '-' }

  /** Text written in numerals has nothing for strip() to remove. */
  lemma NumeralsStrip(t: string)
    requires forall k :: 0 <= k < |t| ==> IsNumeral(t[k])
    ensures Strip(t) == t
  {
    if t != [] {
      assert IsNumeral(t[0]) && IsNumeral(t[|t| - 1]);
      StripAnyOfClean(t, Whitespace);
    }
  }

  /** str() of an int is written in numerals. */
  lemma IntTextNumerals(i: int)
    ensures forall k :: 0 <= k < |IntText(i)| ==> IsNumeral(IntText(i)[k])
  {
    if i < 0 {
      var t := NatText(-i);
      assert forall k :: 0 <= k < |t| ==> IsDigit(t[k]);
      assert IntText(i) == "-" + t;
    } else {
      var t := NatText(i);
      assert forall k :: 0 <= k < |t| ==> IsDigit(t[k]);
    }
  }

  /** Non-empty text in numerals is a clean comma-list field. */
  lemma NumeralsClean(t: string)
    requires t != [] && forall k :: 0 <= k < |t| ==> IsNumeral(t[k])
    ensures CleanField(t)
  {
    assert IsNumeral(t[0]) && IsNumeral(t[|t| - 1]);
    assert forall k :: 0 <= k < |t| ==> t[k] != ',';
  }

  lemma {:induction false} FracDigitsAreDigits(f: real, n: nat)
    ensures forall k :: 0 <= k < |FracDigits(f, n)| ==> IsDigit(FracDigits(f, n)[k])
    decreases n
  {
    if n > 0 && f > 0.0 {
      var d := (f * 10.0).Floor;
      if 0 <= d <= 9 {
        FracDigitsAreDigits(f * 10.0 - d as real, n - 1);
      }
    }
  }

  lemma {:induction false} TrimZerosKeepsDigits(s: string)
    requires forall k :: 0 <= k < |s| ==> IsDigit(s[k])
    ensures forall k :: 0 <= k < |TrimZeros(s)| ==> IsDigit(TrimZeros(s)[k])
    decreases |s|
  {
    if s != [] && s[|s| - 1] == '0' {
      TrimZerosKeepsDigits(s[..|s| - 1]);
    }
  }

  predicate Numerals(t: string) { forall k :: 0 <= k < |t| ==> IsNumeral(t[k]) }

  lemma NumeralsConcat(a: string, b: string)
    requires Numerals(a) && Numerals(b)
    ensures Numerals(a + b)
  {
    forall k | 0 <= k < |a + b| ensures IsNumeral((a + b)[k]) {
      if k >= |a| { assert (a + b)[k] == b[k - |a|]; }
    }
  }

  /** str() of a number is a clean comma-list field: no comma, nothing for strip(). */
  lemma ShowNumberClean(v: Value)
    requires IsNumber(v)
    ensures CleanField(Show(v))
  {
    match v
    case Bool(b) =>
      assert Show(v) == if b then "True" else "False";
    case Int(i) =>
      IntTextNumerals(i);
      assert IntText(i) != [] by {
        if i < 0 { assert IntText(i) == "-" + NatText(-i); }
      }
      NumeralsClean(IntText(i));
    case Float(x) =>
      NumeralsClean(FloatText(x));
  }

  function FracDigits(f: real, n: nat): string
    decreases n
  {
    if n == 0 || f <= 0.0 then []
    else
      var d := (f * 10.0).Floor;
      if 0 <= d <= 9 then ['0' + d as char] + FracDigits(f * 10.0 - d as real, n - 1) else []
  }

  function TrimZeros(s: string): (r: string)
    ensures r == [] || r[|r| - 1] != '0'
  {
    if s != [] && s[|s| - 1] == '0' then TrimZeros(s[..|s| - 1]) else s
  }

  /** round(x): the nearest integer, halves to the even neighbour. */
  function RoundHalfEven(x: real): (r: int)
    ensures x - 0.5 <= r as real <= x + 0.5
  {
    var f := x.Floor;
    var d := x - f as real;
    if d < 0.5 then f
    else if d > 0.5 then f + 1
    else if f % 2 == 0 then f else f + 1
  }

  /** int(x) for a float: truncation toward zero. */
  function Trunc(x: real): (r: int)
    ensures 0.0 <= x ==> r == x.Floor
    ensures x < 0.0 ==> r == -((-x).Floor)
  {
    if x >= 0.0 then x.Floor else -((-x).Floor)
  }

  // ---------------------------------------------------------------- building dicts

  /** What a per-line rule finds in each line, in line order; lines it rejects
      contribute nothing. */
  function Collect<T, U>(lines: seq<T>, rule: T -> Option<U>): (r: seq<U>)
    ensures |r| <= |lines|
  {
    if lines == [] then []
    else
      var last := rule(lines[|lines| - 1]);
      Collect(lines[..|lines| - 1], rule) + (if last.Some? then [last.value] else [])
  }

  lemma CollectStep<T, U>(lines: seq<T>, i: int, rule: T -> Option<U>)
    requires 0 <= i < |lines|
    ensures Collect(lines[..i + 1], rule)
         == Collect(lines[..i], rule) + (if rule(lines[i]).Some? then [rule(lines[i]).value] else [])
  {
    assert lines[..i + 1][..i] == lines[..i];
  }

  /** Everything collected was found in some line. */
  lemma {:induction false} CollectFrom<T, U>(lines: seq<T>, rule: T -> Option<U>, j: int)
    requires 0 <= j < |Collect(lines, rule)|
    ensures exists i :: 0 <= i < |lines| && rule(lines[i]) == Some(Collect(lines, rule)[j])
  {
    var init := lines[..|lines| - 1];
    if j < |Collect(init, rule)| {
      CollectFrom(init, rule, j);
      var i :| 0 <= i < |init| && rule(init[i]) == Some(Collect(init, rule)[j]);
      assert lines[i] == init[i];
    } else {
      assert rule(lines[|lines| - 1]) == Some(Collect(lines, rule)[j]);
    }
  }

  /** The dict that `d[k] = v` builds for each pair in order, starting from {}. */
  function Assigned<K, V>(pairs: seq<(K, V)>): map<K, V>
  {
    if pairs == [] then map[]
    else Assigned(pairs[..|pairs| - 1])[pairs[|pairs| - 1].0 := pairs[|pairs| - 1].1]
  }

  /** One more line of a dict-filling loop: the pair the rule finds in it, if
      any, is stored over what was there. */
  lemma AssignedStep<T, K, V>(lines: seq<T>, i: int, rule: T -> Option<(K, V)>)
    requires 0 <= i < |lines|
    ensures var e := rule(lines[i]);
      Assigned(Collect(lines[..i + 1], rule))
        == if e.Some? then Assigned(Collect(lines[..i], rule))[e.value.0 := e.value.1]
           else Assigned(Collect(lines[..i], rule))
  {
    var e := rule(lines[i]);
    CollectStep(lines, i, rule);
    AssignedAppend(Collect(lines[..i], rule), if e.Some? then [e.value] else []);
  }

  lemma AssignedAppend<K, V>(pairs: seq<(K, V)>, more: seq<(K, V)>)
    requires |more| <= 1
    ensures Assigned(pairs + more)
         == if more == [] then Assigned(pairs) else Assigned(pairs)[more[0].0 := more[0].1]
  {
    if more == [] {
      assert pairs + more == pairs;
    } else {
      assert (pairs + more)[..|pairs + more| - 1] == pairs;
    }
  }

  /** Last write wins: a key is present exactly when some pair assigns it, and it
      holds the value of the last pair that does. */
  lemma {:induction false} AssignedLastWriteWins<K, V>(pairs: seq<(K, V)>, i: int)
    requires 0 <= i < |pairs|
    requires forall j :: i < j < |pairs| ==> pairs[j].0 != pairs[i].0
    ensures pairs[i].0 in Assigned(pairs) && Assigned(pairs)[pairs[i].0] == pairs[i].1
  {
    if i < |pairs| - 1 {
      AssignedLastWriteWins(pairs[..|pairs| - 1], i);
    }
  }

  lemma {:induction false} AssignedKeys<K, V>(pairs: seq<(K, V)>, k: K)
    ensures k in Assigned(pairs) <==> exists i :: 0 <= i < |pairs| && pairs[i].0 == k
  {
    if pairs != [] {
      var init := pairs[..|pairs| - 1];
      AssignedKeys(init, k);
      if exists i :: 0 <= i < |init| && init[i].0 == k {
        var i :| 0 <= i < |init| && init[i].0 == k;
        assert pairs[i].0 == k;
      }
    }
  }

  /** The dict that `d.setdefault(k, v)` builds for each pair in order, starting
      from {}: the first write of a key wins. */
  function FirstAssigned<K, V>(pairs: seq<(K, V)>): map<K, V>
  {
    if pairs == [] then map[]
    else
      var d := FirstAssigned(pairs[..|pairs| - 1]);
      var p := pairs[|pairs| - 1];
      if p.0 in d then d else d[p.0 := p.1]
  }

  lemma FirstAssignedStep<K, V>(pairs: seq<(K, V)>, i: int)
    requires 0 <= i < |pairs|
    ensures FirstAssigned(pairs[..i + 1])
         == if pairs[i].0 in FirstAssigned(pairs[..i]) then FirstAssigned(pairs[..i])
            else FirstAssigned(pairs[..i])[pairs[i].0 := pairs[i].1]
  {
    assert pairs[..i + 1][..i] == pairs[..i];
  }

  /** First write wins: a key is present exactly when some pair assigns it, and it
      holds the value of the first pair that does. */
  lemma {:induction false} FirstAssignedFirstWins<K, V>(pairs: seq<(K, V)>, i: int)
    requires 0 <= i < |pairs|
    requires forall j :: 0 <= j < i ==> pairs[j].0 != pairs[i].0
    ensures pairs[i].0 in FirstAssigned(pairs) && FirstAssigned(pairs)[pairs[i].0] == pairs[i].1
  {
    var init := pairs[..|pairs| - 1];
    if i < |pairs| - 1 {
      FirstAssignedFirstWins(init, i);
    } else {
      FirstAssignedKeys(init, pairs[i].0);
    }
  }

  lemma {:induction false} FirstAssignedKeys<K, V>(pairs: seq<(K, V)>, k: K)
    ensures k in FirstAssigned(pairs) <==> exists i :: 0 <= i < |pairs| && pairs[i].0 == k
  {
    if pairs != [] {
      var init := pairs[..|pairs| - 1];
      FirstAssignedKeys(init, k);
      if exists i :: 0 <= i < |init| && init[i].0 == k {
        var i :| 0 <= i < |init| && init[i].0 == k;
        assert pairs[i].0 == k;
      }
    }
  }

  // ---------------------------------------------------------------- lists built by a loop

  /** Slicing facts about lists, stated once for every element type. */
  lemma AppendInit<T>(a: seq<T>, b: seq<T>)
    requires b != []
    ensures (a + b)[..|a + b| - 1] == a + b[..|b| - 1]
    ensures (a + b)[|a + b| - 1] == b[|b| - 1]
  {
  }

  lemma AppendSliceStep<T>(a: seq<T>, s: seq<T>, k: int, n: int)
    requires 0 <= k < n <= |s|
    ensures a + s[k..n] == (a + s[k..n - 1]) + [s[n - 1]]
  {
    assert s[k..n] == s[k..n - 1] + [s[n - 1]];
  }

  lemma AppendEmptySlice<T>(a: seq<T>, s: seq<T>, k: int)
    requires 0 <= k <= |s|
    ensures a + s[k..k] == a
  {
  }

  lemma AppendParts<T>(a: seq<T>, b: seq<T>)
    ensures (a + b)[..|a|] == a && (a + b)[|a|..] == b
  {
  }

  lemma PrefixStep<T>(s: seq<T>, i: int)
    requires 0 <= i < |s|
    ensures s[..i + 1][..i] == s[..i]
    ensures s[..i + 1][i] == s[i]
    ensures s[..i + 1] == s[..i] + [s[i]]
  {
  }

  /** [f(x) for x in s] */
  function MapEach<T, U>(s: seq<T>, f: T --> U): (r: seq<U>)
    requires forall i :: 0 <= i < |s| ==> f.requires(s[i])
    ensures |r| == |s| && forall i :: 0 <= i < |s| ==> r[i] == f(s[i])
  {
    seq(|s|, i requires 0 <= i < |s| => f(s[i]))
  }

  lemma MapEachOne<T, U>(x: T, f: T --> U)
    requires f.requires(x)
    ensures MapEach([x], f) == [f(x)]
  {
  }

  /** Mapping works run by run. */
  lemma MapEachAppend<T, U>(a: seq<T>, b: seq<T>, f: T --> U)
    requires forall i :: 0 <= i < |a| ==> f.requires(a[i])
    requires forall i :: 0 <= i < |b| ==> f.requires(b[i])
    ensures forall i :: 0 <= i < |a + b| ==> f.requires((a + b)[i])
    ensures MapEach(a + b, f) == MapEach(a, f) + MapEach(b, f)
  {
    assert forall i :: 0 <= i < |a + b| ==> f.requires((a + b)[i]) by {
      forall i | 0 <= i < |a + b| ensures f.requires((a + b)[i]) {
        if i >= |a| {
          assert (a + b)[i] == b[i - |a|];
        }
      }
    }
  }

  lemma PrefixOfPrefix<T>(s: seq<T>, k: int, m: int)
    requires 0 <= k <= m <= |s|
    ensures s[..m][..k] == s[..k]
  {
  }

  lemma WholePrefix<T>(s: seq<T>)
    ensures s[..|s|] == s
  {
  }

  /** The list a loop builds by appending f(x) for each x of s in order. */
  function Concat<T, U>(s: seq<T>, f: T -> seq<U>): seq<U>
  {
    if s == [] then [] else Concat(s[..|s| - 1], f) + f(s[|s| - 1])
  }

  lemma ConcatStep<T, U>(s: seq<T>, i: int, f: T -> seq<U>)
    requires 0 <= i < |s|
    ensures Concat(s[..i + 1], f) == Concat(s[..i], f) + f(s[i])
  {
    assert s[..i + 1][..i] == s[..i];
  }

  /** Appending works element by element: the list for two runs is the list of
      each run, one after the other. */
  lemma {:induction false} ConcatAppend<T, U>(a: seq<T>, b: seq<T>, f: T -> seq<U>)
    ensures Concat(a + b, f) == Concat(a, f) + Concat(b, f)
  {
    if b == [] {
      assert a + b == a;
    } else {
      var init := b[..|b| - 1];
      ConcatAppend(a, init, f);
      assert (a + b)[..|a + b| - 1] == a + init;
      assert (a + b)[|a + b| - 1] == b[|b| - 1];
      assert b[..|b| - 1] == init;
    }
  }

  lemma ConcatOne<T, U>(x: T, f: T -> seq<U>)
    ensures Concat([x], f) == f(x)
  {
    assert [x][..0] == [];
  }

  /** a keeps some of the elements of b, in their order in b. */
  predicate IsSubsequence<T(==)>(a: seq<T>, b: seq<T>)
  {
    if a == [] then true
    else if b == [] then false
    else if a[|a| - 1] == b[|b| - 1] then IsSubsequence(a[..|a| - 1], b[..|b| - 1])
    else IsSubsequence(a, b[..|b| - 1])
  }

  /** Keeping b's last element or not extends a subsequence of b's other elements. */
  lemma SubsequenceStep<T>(a: seq<T>, b: seq<T>, x: T, keep: bool)
    requires IsSubsequence(a, b)
    ensures IsSubsequence(if keep then a + [x] else a, b + [x])
  {
    var a', b' := if keep then a + [x] else a, b + [x];
    assert b'[..|b'| - 1] == b;
    if keep {
      assert a'[..|a'| - 1] == a;
    } else {
      SubsequenceDropLast(a, b, x);
    }
  }

  /** A subsequence of b is one of b with an element more at the end. */
  lemma {:induction false} SubsequenceDropLast<T>(a: seq<T>, b: seq<T>, x: T)
    requires IsSubsequence(a, b)
    ensures IsSubsequence(a, b + [x])
    decreases |a| + |b|, 1
  {
    assert (b + [x])[..|b|] == b;
    if a != [] && a[|a| - 1] == x {
      SubsequenceInit(a, b);
    }
  }

  /** Dropping the last element of a subsequence leaves a subsequence. */
  lemma {:induction false} SubsequenceInit<T>(a: seq<T>, b: seq<T>)
    requires a != [] && IsSubsequence(a, b)
    ensures IsSubsequence(a[..|a| - 1], b)
    decreases |a| + |b|, 0
  {
    var bi := b[..|b| - 1];
    assert bi + [b[|b| - 1]] == b;
    if a[|a| - 1] == b[|b| - 1] {
      SubsequenceDropLast(a[..|a| - 1], bi, b[|b| - 1]);
    } else {
      SubsequenceInit(a, bi);
      SubsequenceDropLast(a[..|a| - 1], bi, b[|b| - 1]);
    }
  }

  /** The list a loop builds by appending each x of s that passes keep, in order. */
  function Filter<T>(s: seq<T>, keep: T -> bool): (r: seq<T>)
    ensures |r| <= |s|
  {
    if s == [] then [] else Filter(s[..|s| - 1], keep) + (if keep(s[|s| - 1]) then [s[|s| - 1]] else [])
  }

  lemma FilterStep<T>(s: seq<T>, i: int, keep: T -> bool)
    requires 0 <= i < |s|
    ensures Filter(s[..i + 1], keep) == Filter(s[..i], keep) + (if keep(s[i]) then [s[i]] else [])
  {
    assert s[..i + 1][..i] == s[..i];
  }

  /** Everything the filter keeps passes. */
  lemma {:induction false} FilterPasses<T>(s: seq<T>, keep: T -> bool)
    ensures forall k :: 0 <= k < |Filter(s, keep)| ==> keep(Filter(s, keep)[k])
  {
    if s != [] {
      FilterPasses(s[..|s| - 1], keep);
    }
  }

  /** Nothing that passes is lost. */
  lemma {:induction false} FilterComplete<T>(s: seq<T>, keep: T -> bool, i: int)
    requires 0 <= i < |s| && keep(s[i])
    ensures s[i] in Filter(s, keep)
  {
    if i < |s| - 1 {
      FilterComplete(s[..|s| - 1], keep, i);
    }
  }

  /** Everything kept comes from s. */
  lemma {:induction false} FilterMember<T>(s: seq<T>, keep: T -> bool, x: T)
    requires x in Filter(s, keep)
    ensures x in s && keep(x)
  {
    var init := s[..|s| - 1];
    if x in Filter(init, keep) {
      FilterMember(init, keep, x);
      var i :| 0 <= i < |init| && init[i] == x;
      assert s[i] == x;
    }
  }

  /** The kept elements keep their order in s. */
  lemma {:induction false} FilterSubsequence<T>(s: seq<T>, keep: T -> bool)
    ensures IsSubsequence(Filter(s, keep), s)
  {
    if s != [] {
      var init, last := s[..|s| - 1], s[|s| - 1];
      FilterSubsequence(init, keep);
      SubsequenceStep(Filter(init, keep), init, last, keep(last));
      assert init + [last] == s;
      if !keep(last) {
        assert Filter(s, keep) == Filter(init, keep) + [] == Filter(init, keep);
      }
    }
  }

  /** Filtering twice is filtering once. */
  lemma {:induction false} FilterIdempotent<T>(s: seq<T>, keep: T -> bool)
    ensures Filter(Filter(s, keep), keep) == Filter(s, keep)
  {
    if s != [] {
      var init, last := s[..|s| - 1], s[|s| - 1];
      FilterIdempotent(init, keep);
      var once := Filter(init, keep);
      if keep(last) {
        var twice := once + [last];
        assert twice[..|twice| - 1] == once && twice[|twice| - 1] == last;
        assert Filter(twice, keep) == Filter(once, keep) + [last];
      } else {
        assert Filter(s, keep) == once + [] == once;
      }
    }
  }

  /** Filtering works run by run. */
  lemma {:induction false} FilterAppend<T>(a: seq<T>, b: seq<T>, keep: T -> bool)
    ensures Filter(a + b, keep) == Filter(a, keep) + Filter(b, keep)
    decreases |b|
  {
    if b == [] {
      assert a + b == a;
    } else {
      var init := b[..|b| - 1];
      FilterAppend(a, init, keep);
      assert (a + b)[..|a + b| - 1] == a + init;
      assert (a + b)[|a + b| - 1] == b[|b| - 1];
    }
  }

  /** The filter keeps every copy of an element that passes and none of one that fails. */
  lemma {:induction false} FilterCount<T>(s: seq<T>, keep: T -> bool, x: T)
    ensures multiset(Filter(s, keep))[x] == if keep(x) then multiset(s)[x] else 0
  {
    if s != [] {
      var init := s[..|s| - 1];
      FilterCount(init, keep, x);
      assert s == init + [s[|s| - 1]];
    }
  }

  /** Filtering two permutations of each other gives permutations of each other. */
  lemma FilterPermutation<T>(a: seq<T>, b: seq<T>, keep: T -> bool)
    requires multiset(a) == multiset(b)
    ensures multiset(Filter(a, keep)) == multiset(Filter(b, keep))
  {
    var fa, fb := multiset(Filter(a, keep)), multiset(Filter(b, keep));
    forall x ensures fa[x] == fb[x] {
      FilterCount(a, keep, x);
      FilterCount(b, keep, x);
      assert multiset(a)[x] == multiset(b)[x];
    }
    MultisetExt(fa, fb);
  }

  lemma MultisetExt<T>(m: multiset<T>, n: multiset<T>)
    requires forall x :: m[x] == n[x]
    ensures m == n
  {
  }

  // ---------------------------------------------------------------- lists of dicts

  /** The dict elements of a list, in order: what `isinstance(block, dict)` lets through. */
  function DictsOf(items: seq<Value>): (r: seq<Entity>)
    ensures |r| <= |items|
  {
    if items == [] then []
    else
      var last := items[|items| - 1];
      DictsOf(items[..|items| - 1]) + (if last.Dict? then [last.fields] else [])
  }

  lemma DictsOfStep(items: seq<Value>, i: int)
    requires 0 <= i < |items|
    ensures DictsOf(items[..i + 1]) == DictsOf(items[..i]) + (if items[i].Dict? then [items[i].fields] else [])
  {
    assert items[..i + 1][..i] == items[..i];
  }

  /** The dict elements are exactly the maps of the list's dict values. */
  lemma {:induction false} DictsOfMembers(items: seq<Value>, e: Entity)
    ensures e in DictsOf(items) <==> exists i :: 0 <= i < |items| && items[i].Dict? && items[i].fields == e
  {
    if items != [] {
      var init := items[..|items| - 1];
      DictsOfMembers(init, e);
      if e in DictsOf(init) {
        var i :| 0 <= i < |init| && init[i].Dict? && init[i].fields == e;
        assert items[i] == init[i];
      }
      if exists i :: 0 <= i < |items| && items[i].Dict? && items[i].fields == e {
        var i :| 0 <= i < |items| && items[i].Dict? && items[i].fields == e;
        if i < |init| {
          assert init[i] == items[i];
        }
      }
    }
  }

  /** The test "x belongs to group b" for a grouping key. */
  function Matches<T>(key: T -> string, b: string): T -> bool
  {
    x => key(x) == b
  }

  /** groups[k].append(x) on a dict of lists. */
  function AppendTo<T>(groups: map<string, seq<T>>, k: string, x: T): (r: map<string, seq<T>>)
    requires k in groups
    ensures forall b :: b in r <==> b in groups
    ensures r[k] == groups[k] + [x]
    ensures forall b :: b in groups && b != k ==> r[b] == groups[b]
  {
    groups[k := groups[k] + [x]]
  }

  /** Appending each item to the group of its key keeps every group equal to the
      items of the prefix with that key. */
  lemma GroupStep<T>(s: seq<T>, i: int, key: T -> string, groups: map<string, seq<T>>)
    requires 0 <= i < |s| && key(s[i]) in groups
    requires forall b :: b in groups ==> groups[b] == Filter(s[..i], Matches(key, b))
    ensures forall b :: b in groups ==> AppendTo(groups, key(s[i]), s[i])[b] == Filter(s[..i + 1], Matches(key, b))
  {
    forall b | b in groups
      ensures AppendTo(groups, key(s[i]), s[i])[b] == Filter(s[..i + 1], Matches(key, b))
    {
      FilterStep(s, i, Matches(key, b));
    }
  }

  /** One step of a grouping loop: the i-th item, whose key k is already known,
      goes to the end of its group. */
  method GroupAppend<T>(s: seq<T>, i: int, key: T -> string, groups: map<string, seq<T>>, k: string)
    returns (groups': map<string, seq<T>>)
    requires 0 <= i < |s| && k == key(s[i]) && k in groups
    requires forall b :: b in groups ==> groups[b] == Filter(s[..i], Matches(key, b))
    ensures forall b :: b in groups' <==> b in groups
    ensures forall b :: b in groups' ==> groups'[b] == Filter(s[..i + 1], Matches(key, b))
  {
    GroupStep(s, i, key, groups);
    groups' := AppendTo(groups, k, s[i]);
  }

  /** The sizes of the groups bs, added up. */
  function GroupSizes<T>(s: seq<T>, key: T -> string, bs: seq<string>): nat
  {
    if bs == [] then 0 else GroupSizes(s, key, bs[..|bs| - 1]) + |Filter(s, Matches(key, bs[|bs| - 1]))|
  }

  /** One more item adds one to the group of its key and nothing elsewhere. */
  lemma {:induction false} GroupSizesStep<T>(s: seq<T>, key: T -> string, bs: seq<string>)
    requires s != []
    requires forall i, j :: 0 <= i < j < |bs| ==> bs[i] != bs[j]
    ensures GroupSizes(s, key, bs) == GroupSizes(s[..|s| - 1], key, bs) + (if key(s[|s| - 1]) in bs then 1 else 0)
  {
    if bs != [] {
      var init := bs[..|bs| - 1];
      var b := bs[|bs| - 1];
      GroupSizesStep(s, key, init);
      assert |Filter(s, Matches(key, b))| == |Filter(s[..|s| - 1], Matches(key, b))| + (if key(s[|s| - 1]) == b then 1 else 0) by {
        FilterStep(s, |s| - 1, Matches(key, b));
        assert s[..|s|] == s;
      }
      assert key(s[|s| - 1]) in bs <==> key(s[|s| - 1]) in init || key(s[|s| - 1]) == b;
      if key(s[|s| - 1]) == b {
        assert key(s[|s| - 1]) !in init;
      }
    }
  }

  /** When every key is one of the distinct groups bs, the groups partition s:
      their sizes add up to its length. */
  lemma {:induction false} GroupSizesTotal<T>(s: seq<T>, key: T -> string, bs: seq<string>)
    requires forall i, j :: 0 <= i < j < |bs| ==> bs[i] != bs[j]
    requires forall i :: 0 <= i < |s| ==> key(s[i]) in bs
    ensures GroupSizes(s, key, bs) == |s|
  {
    if s == [] {
      EmptyGroups(key, bs);
    } else {
      GroupSizesTotal(s[..|s| - 1], key, bs);
      GroupSizesStep(s, key, bs);
    }
  }

  lemma {:induction false} EmptyGroups<T>(key: T -> string, bs: seq<string>)
    ensures GroupSizes([], key, bs) == 0
  {
    if bs != [] {
      EmptyGroups(key, bs[..|bs| - 1]);
    }
  }

  /** any(p(x) for x in s) */
  function AnyOf<T>(s: seq<T>, p: T -> bool): bool
  {
    s != [] && (AnyOf(s[..|s| - 1], p) || p(s[|s| - 1]))
  }

  lemma AnyOfStep<T>(s: seq<T>, i: int, p: T -> bool)
    requires 0 <= i < |s|
    ensures AnyOf(s[..i + 1], p) == (AnyOf(s[..i], p) || p(s[i]))
  {
    assert s[..i + 1][..i] == s[..i];
  }

  lemma {:induction false} AnyOfIff<T>(s: seq<T>, p: T -> bool)
    ensures AnyOf(s, p) <==> exists i :: 0 <= i < |s| && p(s[i])
  {
    if s != [] {
      var init := s[..|s| - 1];
      AnyOfIff(init, p);
      if exists i :: 0 <= i < |init| && p(init[i]) {
        var i :| 0 <= i < |init| && p(init[i]);
        assert s[i] == init[i];
      }
      if exists i :: 0 <= i < |s| && p(s[i]) {
        var i :| 0 <= i < |s| && p(s[i]);
        if i < |init| {
          assert init[i] == s[i];
        }
      }
    }
  }

  /** {key(x) for x in s if p(x)}, the set a loop builds with add(). */
  function KeysWhere<T>(s: seq<T>, key: T -> string, p: T -> bool): set<string>
  {
    if s == [] then {}
    else KeysWhere(s[..|s| - 1], key, p) + (if p(s[|s| - 1]) then {key(s[|s| - 1])} else {})
  }

  lemma KeysWhereStep<T>(s: seq<T>, i: int, key: T -> string, p: T -> bool)
    requires 0 <= i < |s|
    ensures KeysWhere(s[..i + 1], key, p) == KeysWhere(s[..i], key, p) + (if p(s[i]) then {key(s[i])} else {})
  {
    assert s[..i + 1][..i] == s[..i];
  }

  lemma {:induction false} KeysWhereIff<T>(s: seq<T>, key: T -> string, p: T -> bool, k: string)
    ensures k in KeysWhere(s, key, p) <==> exists i :: 0 <= i < |s| && key(s[i]) == k && p(s[i])
  {
    if s != [] {
      var init := s[..|s| - 1];
      KeysWhereIff(init, key, p, k);
      if exists i :: 0 <= i < |init| && key(init[i]) == k && p(init[i]) {
        var i :| 0 <= i < |init| && key(init[i]) == k && p(init[i]);
        assert s[i] == init[i];
      }
      if exists i :: 0 <= i < |s| && key(s[i]) == k && p(s[i]) {
        var i :| 0 <= i < |s| && key(s[i]) == k && p(s[i]);
        if i < |init| {
          assert init[i] == s[i];
        }
      }
    }
  }

  /** The dict of lists after `d[k].extend(f(k))` for each k of ks in order. */
  function AppendEach<U>(m: map<string, seq<U>>, ks: seq<string>, f: string -> seq<U>): (r: map<string, seq<U>>)
    requires forall i :: 0 <= i < |ks| ==> ks[i] in m
    ensures forall k :: k in r <==> k in m
  {
    if ks == [] then m
    else
      var before := AppendEach(m, ks[..|ks| - 1], f);
      var k := ks[|ks| - 1];
      before[k := before[k] + f(k)]
  }

  lemma AppendEachStep<U>(m: map<string, seq<U>>, ks: seq<string>, i: int, f: string -> seq<U>)
    requires 0 <= i < |ks|
    requires forall j :: 0 <= j < |ks| ==> ks[j] in m
    ensures AppendEach(m, ks[..i + 1], f)
         == AppendEach(m, ks[..i], f)[ks[i] := AppendEach(m, ks[..i], f)[ks[i]] + f(ks[i])]
  {
    assert ks[..i + 1][..i] == ks[..i];
  }

  /** Each key of ks gets f of it once, at the end of its list; the other lists
      stay as they were. */
  lemma {:induction false} AppendEachResult<U>(m: map<string, seq<U>>, ks: seq<string>, f: string -> seq<U>)
    requires forall i :: 0 <= i < |ks| ==> ks[i] in m
    requires forall i, j :: 0 <= i < j < |ks| ==> ks[i] != ks[j]
    ensures forall k :: k in m ==> AppendEach(m, ks, f)[k] == m[k] + (if k in ks then f(k) else [])
  {
    if ks != [] {
      var init := ks[..|ks| - 1];
      AppendEachResult(m, init, f);
      assert ks[|ks| - 1] !in init;
      forall k | k in m ensures AppendEach(m, ks, f)[k] == m[k] + (if k in ks then f(k) else []) {
        assert k in ks <==> k in init || k == ks[|ks| - 1];
      }
    }
  }

  // ---------------------------------------------------------------- collections

  /** The type-keyed collection of item dicts the filter and the online merge update
      in place: local_data in the scripts. */
  class LocalData {
    var byType: map<string, seq<Entity>>

    constructor (m: map<string, seq<Entity>>)
      ensures byType == m
    {
      byType := m;
    }
  }
}
