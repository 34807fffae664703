/** The Mongo-like filter language of `parseFilter.ts`: a filter object is
    read key by key; `$or`, `$and` and `$not` combine sub-filters, every
    other key is a field condition, either a bare literal (strict equality)
    or an operator map. Evaluation follows `every`/`some`, so it stops at the
    first key (or sub-filter) that decides the answer, and an unsupported
    operator is an error only when evaluation reaches it. */
module Filters {
  import opened Wrappers

  /** A JSON-like field value. `VNaN` is the number NaN; lists compare by
      identity in JavaScript, so no list is `===` to another value. */
  datatype Value =
    | VInt(i: int)
    | VNaN
    | VStr(s: string)
    | VBool(b: bool)
    | VList(items: seq<Value>)

  /** A stored record: field name to value; an absent key reads as `undefined`. */
  type Item = map<string, Value>

  /** The right-hand side of a field key: a literal (an array literal included)
      or an operator map, its keys in `Object.keys` order. */
  datatype Condition =
    | Literal(literal: Value)
    | Operators(ops: seq<(string, Value)>)

  /** One key of a filter object with its value. */
  datatype Entry =
    | Or(anyOf: seq<Filter>)
    | And(allOf: seq<Filter>)
    | Not(negated: Filter)
    | Field(name: string, cond: Condition)

  /** A filter: `null`/`undefined` (`Absent`) or an object whose keys, in
      `Object.keys` order, are `entries`. */
  datatype Filter = Absent | Keys(entries: seq<Entry>)

  /** `item[key]`: `None` stands for `undefined`. */
  function Lookup(item: Item, key: string): Option<Value>
  {
    if key in item then Some(item[key]) else None
  }

  /** `actual === expected`: lists are distinct objects and NaN is never
      equal to itself. On the other primitives it is equality. */
  predicate StrictEquals(actual: Option<Value>, expected: Value)
    ensures StrictEquals(actual, expected) ==> actual == Some(expected)
    ensures actual == Some(expected) && (expected.VInt? || expected.VStr? || expected.VBool?) ==>
      StrictEquals(actual, expected)
  {
    !expected.VList? && expected != VNaN && actual == Some(expected)
  }

  /** `items.includes(actual)` (SameValueZero: NaN is found, lists only by
      identity, and no element is `undefined`). Unlike `===`, NaN finds
      NaN. */
  predicate Includes(items: seq<Value>, actual: Option<Value>)
    ensures Includes(items, actual) ==> actual.Some? && actual.value in items
    ensures actual == Some(VNaN) ==> (Includes(items, actual) <==> VNaN in items)
  {
    actual.Some? && !actual.value.VList? && actual.value in items
  }

  /** The UTF-16 code units of one character: the character itself below
      U+10000, otherwise its high and low surrogates. */
  function CodeUnits(c: char): (u: seq<int>)
    ensures 1 <= |u| <= 2
    ensures |u| == 1 <==> c as int < 0x10000
    ensures |u| == 1 ==> u[0] == c as int && !(0xD800 <= u[0] < 0xE000)
    ensures |u| == 2 ==> 0xD800 <= u[0] < 0xDC00 && 0xDC00 <= u[1] < 0xE000
  {
    var n := c as int;
    if n < 0x10000 then [n]
    else [0xD800 + (n - 0x10000) / 0x400, 0xDC00 + (n - 0x10000) % 0x400]
  }

  /** A string as JavaScript holds it: its UTF-16 code units. */
  function Utf16(s: string): (u: seq<int>)
    ensures |u| >= |s|
  {
    if s == [] then [] else CodeUnits(s[0]) + Utf16(s[1..])
  }

  /** A surrogate pair gives back the code point it was made from. */
  lemma SurrogatesDecode(c: char)
    requires c as int >= 0x10000
    ensures c as int == 0x10000 + (CodeUnits(c)[0] - 0xD800) * 0x400 + (CodeUnits(c)[1] - 0xDC00)
  {
  }

  /** No two characters share their code units. */
  lemma CodeUnitsInjective(c: char, d: char)
    requires CodeUnits(c) == CodeUnits(d)
    ensures c == d
  {
    if c as int >= 0x10000 {
      SurrogatesDecode(c);
      SurrogatesDecode(d);
    }
  }

  /** No two strings share their code units, so the code-unit order below
      separates every two different strings. */
  lemma {:induction false} Utf16Injective(a: string, b: string)
    requires Utf16(a) == Utf16(b)
    ensures a == b
    decreases |a|
  {
    if a != [] && b != [] {
      var ua, ub := CodeUnits(a[0]), CodeUnits(b[0]);
      assert ua[0] == Utf16(a)[0] && ub[0] == Utf16(b)[0];
      assert |ua| == |ub|;
      assert ua == Utf16(a)[..|ua|] == Utf16(b)[..|ub|] == ub;
      CodeUnitsInjective(a[0], b[0]);
      Utf16Injective(a[1..], b[1..]);
      assert a == [a[0]] + a[1..] && b == [b[0]] + b[1..];
    }
  }

  /** Lexicographic order on code-unit sequences: a proper prefix comes
      first, otherwise the first differing unit decides. */
  predicate UnitsLess(a: seq<int>, b: seq<int>)
    decreases |a|
  {
    if a == [] then b != []
    else if b == [] then false
    else if a[0] != b[0] then a[0] < b[0]
    else UnitsLess(a[1..], b[1..])
  }

  /** `a < b` on strings: the order of their UTF-16 code units, as the
      abstract relational comparison of ECMAScript defines it for two
      strings. */
  predicate StrLess(a: string, b: string)
  {
    UnitsLess(Utf16(a), Utf16(b))
  }

  /** The number a value converts to, for the values whose conversion is
      modelled: integers and booleans. */
  function Numeric(v: Value): Option<int>
  {
    match v
    case VInt(n) => Some(n)
    case VBool(b) => Some(if b then 1 else 0)
    case _ => None
  }

  /** The abstract relational comparison `x < y`: `Some(b)` is a definite
      answer, `None` is JavaScript's `undefined` (NaN took part, a field was
      absent, or the operand types are outside the model). */
  function LessThan(x: Option<Value>, y: Option<Value>): (r: Option<bool>)
    ensures x.None? || y.None? || x == Some(VNaN) || y == Some(VNaN) ==> r.None?
    ensures x.Some? && y.Some? && x.value.VStr? && y.value.VStr? ==> r == Some(StrLess(x.value.s, y.value.s))
    ensures x.Some? && y.Some? && x.value.VInt? && y.value.VInt? ==> r == Some(x.value.i < y.value.i)
  {
    if x.None? || y.None? then None
    else if x.value.VStr? && y.value.VStr? then Some(StrLess(x.value.s, y.value.s))
    else
      var a := Numeric(x.value);
      var b := Numeric(y.value);
      if a.Some? && b.Some? then Some(a.value < b.value) else None
  }

  /** The eight supported operators. */
  predicate IsOperator(op: string)
  {
    op in {"$eq", "$ne", "$gt", "$gte", "$lt", "$lte", "$in", "$nin"}
  }

  const UnsupportedPrefix: string := "Unsupported operator: "

  /** The message `evaluateOperator` throws for an operator it does not
      know. */
  predicate IsUnsupportedMessage(m: string)
  {
    UnsupportedPrefix <= m && !IsOperator(m[|UnsupportedPrefix|..])
  }

  /** `evaluateOperator(key, op, expected, item)`: it throws exactly for an
      operator outside the eight, naming it. */
  function EvalOperator(key: string, op: string, expected: Value, item: Item): (r: Result<bool>)
    ensures r.Err? <==> !IsOperator(op)
    ensures r.Err? ==> r.error == UnsupportedPrefix + op && IsUnsupportedMessage(r.error)
  {
    var actual := Lookup(item, key);
    if op == "$eq" then Ok(StrictEquals(actual, expected))
    else if op == "$ne" then Ok(!StrictEquals(actual, expected))
    else if op == "$gt" then Ok(LessThan(Some(expected), actual) == Some(true))
    else if op == "$gte" then Ok(LessThan(actual, Some(expected)) == Some(false))
    else if op == "$lt" then Ok(LessThan(actual, Some(expected)) == Some(true))
    else if op == "$lte" then Ok(LessThan(Some(expected), actual) == Some(false))
    else if op == "$in" then Ok(expected.VList? && Includes(expected.items, actual))
    else if op == "$nin" then Ok(expected.VList? && !Includes(expected.items, actual))
    else
      assert (UnsupportedPrefix + op)[|UnsupportedPrefix|..] == op;
      Err(UnsupportedPrefix + op)
  }

  /** `Object.keys(ops).every(op => evaluateOperator(...))`. */
  function EvalOperators(key: string, ops: seq<(string, Value)>, item: Item): (r: Result<bool>)
    ensures r.Err? ==> IsUnsupportedMessage(r.error)
  {
    if ops == [] then Ok(true)
    else
      var r := EvalOperator(key, ops[0].0, ops[0].1, item);
      if r.Err? || !r.value then r else EvalOperators(key, ops[1..], item)
  }

  /** `applyCondition(key, value, item)`: a literal never throws, and an
      operator map throws only for an unsupported operator. */
  function ApplyCondition(key: string, cond: Condition, item: Item): (r: Result<bool>)
    ensures cond.Literal? ==> r.Ok?
    ensures r.Err? ==> IsUnsupportedMessage(r.error)
  {
    match cond
    case Literal(v) => Ok(StrictEquals(Lookup(item, key), v))
    case Operators(ops) => EvalOperators(key, ops, item)
  }

  /** `parseFilter(f)(item)`. */
  function Eval(f: Filter, item: Item): Result<bool>
    decreases f, 1
  {
    match f
    case Absent => Ok(true)
    case Keys(es) => EvalEntries(es, item)
  }

  /** `Object.keys(filter).every(...)` over the entries. */
  function EvalEntries(es: seq<Entry>, item: Item): Result<bool>
    decreases es, 0
  {
    if es == [] then Ok(true)
    else
      var r := EvalEntry(es[0], item);
      if r.Err? || !r.value then r else EvalEntries(es[1..], item)
  }

  /** The `switch (key)` of one entry. */
  function EvalEntry(e: Entry, item: Item): Result<bool>
    decreases e, 0
  {
    match e
    case Or(fs) => EvalAny(fs, item)
    case And(fs) => EvalAll(fs, item)
    case Not(g) =>
      var r := Eval(g, item);
      if r.Err? then r else Ok(!r.value)
    case Field(k, c) => ApplyCondition(k, c, item)
  }

  /** `subFilters.some(sub => parseFilter(sub)(item))`. */
  function EvalAny(fs: seq<Filter>, item: Item): Result<bool>
    decreases fs, 0
  {
    if fs == [] then Ok(false)
    else
      var r := Eval(fs[0], item);
      if r.Err? || r.value then r else EvalAny(fs[1..], item)
  }

  /** `subFilters.every(sub => parseFilter(sub)(item))`. */
  function EvalAll(fs: seq<Filter>, item: Item): Result<bool>
    decreases fs, 0
  {
    if fs == [] then Ok(true)
    else
      var r := Eval(fs[0], item);
      if r.Err? || !r.value then r else EvalAll(fs[1..], item)
  }

  predicate Accepts(f: Filter, item: Item)
  {
    Eval(f, item) == Ok(true)
  }

  predicate Rejects(f: Filter, item: Item)
  {
    Eval(f, item) == Ok(false)
  }

  // ---------------------------------------------------------------------
  // Properties of the evaluator

  /** The only error a filter raises is an unsupported operator: whatever
      `parseFilter(f)(item)` throws is `Unsupported operator: <op>` for an
      `op` outside the eight. */
  lemma {:induction false} FilterErrorsAreUnsupported(f: Filter, item: Item)
    ensures Eval(f, item).Err? ==> IsUnsupportedMessage(Eval(f, item).error)
    decreases f, 1
  {
    match f
    case Absent =>
    case Keys(es) => EntriesErrorsAreUnsupported(es, item);
  }

  /** The same for the keys of one filter object. */
  lemma {:induction false} EntriesErrorsAreUnsupported(es: seq<Entry>, item: Item)
    ensures EvalEntries(es, item).Err? ==> IsUnsupportedMessage(EvalEntries(es, item).error)
    decreases es, 0
  {
    if es != [] {
      EntryErrorsAreUnsupported(es[0], item);
      EntriesErrorsAreUnsupported(es[1..], item);
    }
  }

  /** The same for one key: `$or`, `$and`, `$not` pass on the errors of
      their sub-filters, and a field condition fails only on an operator. */
  lemma {:induction false} EntryErrorsAreUnsupported(e: Entry, item: Item)
    ensures EvalEntry(e, item).Err? ==> IsUnsupportedMessage(EvalEntry(e, item).error)
    decreases e, 0
  {
    match e
    case Or(fs) => AnyErrorsAreUnsupported(fs, item);
    case And(fs) => AllErrorsAreUnsupported(fs, item);
    case Not(g) => FilterErrorsAreUnsupported(g, item);
    case Field(_, _) =>
  }

  /** The same for the sub-filters of `$or`. */
  lemma {:induction false} AnyErrorsAreUnsupported(fs: seq<Filter>, item: Item)
    ensures EvalAny(fs, item).Err? ==> IsUnsupportedMessage(EvalAny(fs, item).error)
    decreases fs, 0
  {
    if fs != [] {
      FilterErrorsAreUnsupported(fs[0], item);
      AnyErrorsAreUnsupported(fs[1..], item);
    }
  }

  /** The same for the sub-filters of `$and`. */
  lemma {:induction false} AllErrorsAreUnsupported(fs: seq<Filter>, item: Item)
    ensures EvalAll(fs, item).Err? ==> IsUnsupportedMessage(EvalAll(fs, item).error)
    decreases fs, 0
  {
    if fs != [] {
      FilterErrorsAreUnsupported(fs[0], item);
      AllErrorsAreUnsupported(fs[1..], item);
    }
  }

  /** A `null`, `undefined` or `{}` filter accepts every item. */
  lemma EmptyFilterAcceptsAll(item: Item)
    ensures Accepts(Absent, item) && Accepts(Keys([]), item)
  {
  }

  /** The keys of one filter object are conjunctive: the item is accepted iff
      every key's test is `true`; otherwise the answer (`false` or an error)
      is that of the first key whose test is not `true`, all keys before it
      having held. */
  lemma {:induction false} KeysAreConjunctive(es: seq<Entry>, item: Item)
    ensures Accepts(Keys(es), item) <==>
      forall i | 0 <= i < |es| :: EvalEntry(es[i], item) == Ok(true)
    ensures !Accepts(Keys(es), item) ==>
      exists i | 0 <= i < |es| ::
        Eval(Keys(es), item) == EvalEntry(es[i], item) &&
        forall j | 0 <= j < i :: EvalEntry(es[j], item) == Ok(true)
  {
    assert Eval(Keys(es), item) == EvalEntries(es, item);
    if es != [] {
      KeysAreConjunctive(es[1..], item);
      assert Eval(Keys(es[1..]), item) == EvalEntries(es[1..], item);
      var r := EvalEntry(es[0], item);
      if r == Ok(true) {
        assert EvalEntries(es, item) == EvalEntries(es[1..], item);
        assert forall i | 1 <= i < |es| :: es[i] == es[1..][i - 1];
        if !Accepts(Keys(es[1..]), item) {
          var i :| 0 <= i < |es[1..]| &&
            Eval(Keys(es[1..]), item) == EvalEntry(es[1..][i], item) &&
            forall j | 0 <= j < i :: EvalEntry(es[1..][j], item) == Ok(true);
          assert Eval(Keys(es), item) == EvalEntry(es[i + 1], item);
          assert forall j | 0 <= j < i + 1 :: EvalEntry(es[j], item) == Ok(true) by {
            forall j | 0 <= j < i + 1 ensures EvalEntry(es[j], item) == Ok(true) {
              if j > 0 { assert es[j] == es[1..][j - 1]; }
            }
          }
        } else {
          forall i | 0 <= i < |es| ensures EvalEntry(es[i], item) == Ok(true) {
            if i > 0 { assert es[i] == es[1..][i - 1]; }
          }
        }
      } else {
        assert EvalEntries(es, item) == r;
        assert !Accepts(Keys(es), item);
      }
    }
  }

  /** `$or` is a disjunction read left to right: it rejects iff every
      sub-filter rejects (so `$or: []` rejects everything); otherwise the
      answer is that of the first sub-filter that does not reject. */
  lemma {:induction false} OrIsDisjunctive(fs: seq<Filter>, item: Item)
    ensures EvalEntry(Or(fs), item) == Ok(false) <==>
      forall i | 0 <= i < |fs| :: Rejects(fs[i], item)
    ensures EvalEntry(Or(fs), item) != Ok(false) ==>
      exists i | 0 <= i < |fs| ::
        EvalEntry(Or(fs), item) == Eval(fs[i], item) &&
        forall j | 0 <= j < i :: Rejects(fs[j], item)
  {
    if fs != [] {
      OrIsDisjunctive(fs[1..], item);
      if Rejects(fs[0], item) {
        assert forall i | 1 <= i < |fs| :: fs[i] == fs[1..][i - 1];
        if EvalEntry(Or(fs[1..]), item) != Ok(false) {
          var i :| 0 <= i < |fs[1..]| &&
            EvalEntry(Or(fs[1..]), item) == Eval(fs[1..][i], item) &&
            forall j | 0 <= j < i :: Rejects(fs[1..][j], item);
          assert EvalEntry(Or(fs), item) == Eval(fs[i + 1], item);
          assert forall j | 0 <= j < i + 1 :: Rejects(fs[j], item) by {
            forall j | 0 <= j < i + 1 ensures Rejects(fs[j], item) {
              if j > 0 { assert fs[j] == fs[1..][j - 1]; }
            }
          }
        }
      }
    }
  }

  /** `$and` is a conjunction read left to right: it accepts iff every
      sub-filter accepts (so `$and: []` accepts everything); otherwise the
      answer is that of the first sub-filter that does not accept. */
  lemma {:induction false} AndIsConjunctive(fs: seq<Filter>, item: Item)
    ensures EvalEntry(And(fs), item) == Ok(true) <==>
      forall i | 0 <= i < |fs| :: Accepts(fs[i], item)
    ensures EvalEntry(And(fs), item) != Ok(true) ==>
      exists i | 0 <= i < |fs| ::
        EvalEntry(And(fs), item) == Eval(fs[i], item) &&
        forall j | 0 <= j < i :: Accepts(fs[j], item)
  {
    if fs != [] {
      AndIsConjunctive(fs[1..], item);
      if Accepts(fs[0], item) {
        assert forall i | 1 <= i < |fs| :: fs[i] == fs[1..][i - 1];
        if EvalEntry(And(fs[1..]), item) != Ok(true) {
          var i :| 0 <= i < |fs[1..]| &&
            EvalEntry(And(fs[1..]), item) == Eval(fs[1..][i], item) &&
            forall j | 0 <= j < i :: Accepts(fs[1..][j], item);
          assert EvalEntry(And(fs), item) == Eval(fs[i + 1], item);
          assert forall j | 0 <= j < i + 1 :: Accepts(fs[j], item) by {
            forall j | 0 <= j < i + 1 ensures Accepts(fs[j], item) {
              if j > 0 { assert fs[j] == fs[1..][j - 1]; }
            }
          }
        }
      }
    }
  }

  /** When no sub-filter fails, `$or` accepts iff some sub-filter accepts and
      `$and` accepts iff all of them accept. */
  lemma {:induction false} LogicalWithoutErrors(fs: seq<Filter>, item: Item)
    requires forall i | 0 <= i < |fs| :: Eval(fs[i], item).Ok?
    ensures EvalEntry(Or(fs), item) == Ok(exists i | 0 <= i < |fs| :: Accepts(fs[i], item))
    ensures EvalEntry(And(fs), item) == Ok(forall i | 0 <= i < |fs| :: Accepts(fs[i], item))
  {
    OrIsDisjunctive(fs, item);
    AndIsConjunctive(fs, item);
    if exists i | 0 <= i < |fs| :: Accepts(fs[i], item) {
      var k :| 0 <= k < |fs| && Accepts(fs[k], item);
      assert !Rejects(fs[k], item);
      assert EvalEntry(Or(fs), item) != Ok(false);
      var i :| 0 <= i < |fs| && EvalEntry(Or(fs), item) == Eval(fs[i], item) &&
        forall j | 0 <= j < i :: Rejects(fs[j], item);
      assert Eval(fs[i], item).Ok? && Eval(fs[i], item).value;
    } else {
      forall i | 0 <= i < |fs| ensures Rejects(fs[i], item) {
        assert Eval(fs[i], item).Ok? && !Eval(fs[i], item).value;
      }
    }
    if !forall i | 0 <= i < |fs| :: Accepts(fs[i], item) {
      var i :| 0 <= i < |fs| && EvalEntry(And(fs), item) == Eval(fs[i], item) &&
        forall j | 0 <= j < i :: Accepts(fs[j], item);
      assert Eval(fs[i], item).Ok? && !Eval(fs[i], item).value;
    }
  }

  /** A filter object with a single key is decided by that key. */
  lemma SingleKey(e: Entry, item: Item)
    ensures Eval(Keys([e]), item) == EvalEntry(e, item)
  {
    assert [e][0] == e && [e][1..] == [];
    assert EvalEntries([], item) == Ok(true);
  }

  /** `{$not: g}` accepts exactly the items `g` rejects, rejects exactly the
      items `g` accepts and fails exactly when `g` fails. */
  lemma NotNegates(g: Filter, item: Item)
    ensures Accepts(Keys([Not(g)]), item) <==> Rejects(g, item)
    ensures Rejects(Keys([Not(g)]), item) <==> Accepts(g, item)
    ensures Eval(Keys([Not(g)]), item).Err? <==> Eval(g, item).Err?
  {
    SingleKey(Not(g), item);
  }

  /** `{$not: {$not: g}}` is equivalent to `g`, errors included. */
  lemma DoubleNegation(g: Filter, item: Item)
    ensures Eval(Keys([Not(Keys([Not(g)]))]), item) == Eval(g, item)
  {
    SingleKey(Not(g), item);
    SingleKey(Not(Keys([Not(g)])), item);
  }

  /** A bare literal is strict equality with `item[key]`: a primitive other
      than NaN matches a present, equal field; an array literal or NaN never
      matches. */
  lemma LiteralIsStrictEquality(key: string, v: Value, item: Item)
    ensures EvalEntry(Field(key, Literal(v)), item) ==
      Ok(!v.VList? && v != VNaN && key in item && item[key] == v)
  {
  }

  /** An operator map needs every listed operator to hold (an empty map
      accepts); otherwise its answer is that of the first operator that
      does not hold. */
  lemma {:induction false} OperatorsAreConjunctive(key: string, ops: seq<(string, Value)>, item: Item)
    ensures EvalOperators(key, ops, item) == Ok(true) <==>
      forall i | 0 <= i < |ops| :: EvalOperator(key, ops[i].0, ops[i].1, item) == Ok(true)
    ensures EvalOperators(key, ops, item) != Ok(true) ==>
      exists i | 0 <= i < |ops| ::
        EvalOperators(key, ops, item) == EvalOperator(key, ops[i].0, ops[i].1, item) &&
        forall j | 0 <= j < i :: EvalOperator(key, ops[j].0, ops[j].1, item) == Ok(true)
  {
    if ops != [] {
      OperatorsAreConjunctive(key, ops[1..], item);
      if EvalOperator(key, ops[0].0, ops[0].1, item) == Ok(true) {
        assert forall i | 1 <= i < |ops| :: ops[i] == ops[1..][i - 1];
        if EvalOperators(key, ops[1..], item) != Ok(true) {
          var i :| 0 <= i < |ops[1..]| &&
            EvalOperators(key, ops[1..], item) == EvalOperator(key, ops[1..][i].0, ops[1..][i].1, item) &&
            forall j | 0 <= j < i :: EvalOperator(key, ops[1..][j].0, ops[1..][j].1, item) == Ok(true);
          assert EvalOperators(key, ops, item) == EvalOperator(key, ops[i + 1].0, ops[i + 1].1, item);
          assert forall j | 0 <= j < i + 1 :: EvalOperator(key, ops[j].0, ops[j].1, item) == Ok(true) by {
            forall j | 0 <= j < i + 1 ensures EvalOperator(key, ops[j].0, ops[j].1, item) == Ok(true) {
              if j > 0 { assert ops[j] == ops[1..][j - 1]; }
            }
          }
        }
      }
    }
  }

  /** An unsupported operator fails with "Unsupported operator: <op>" once
      evaluation reaches it, that is, when every operator listed before it
      held. */
  lemma {:induction false} UnsupportedOperatorWhenReached(key: string, ops: seq<(string, Value)>, i: nat, item: Item)
    requires i < |ops| && !IsOperator(ops[i].0)
    requires forall j | 0 <= j < i :: EvalOperator(key, ops[j].0, ops[j].1, item) == Ok(true)
    ensures EvalOperators(key, ops, item) == Err(UnsupportedPrefix + ops[i].0)
  {
    OperatorsAreConjunctive(key, ops, item);
    assert EvalOperator(key, ops[i].0, ops[i].1, item) == Err(UnsupportedPrefix + ops[i].0);
    var k :| 0 <= k < |ops| &&
      EvalOperators(key, ops, item) == EvalOperator(key, ops[k].0, ops[k].1, item) &&
      forall j | 0 <= j < k :: EvalOperator(key, ops[j].0, ops[j].1, item) == Ok(true);
    assert k == i;
  }

  /** The converse: when an operator map fails, evaluation reached an
      unsupported operator, every operator before it having held, and the
      error names that operator. */
  lemma ErrorMeansUnsupportedReached(key: string, ops: seq<(string, Value)>, item: Item)
    requires EvalOperators(key, ops, item).Err?
    ensures exists i | 0 <= i < |ops| ::
      !IsOperator(ops[i].0) &&
      (forall j | 0 <= j < i :: EvalOperator(key, ops[j].0, ops[j].1, item) == Ok(true)) &&
      EvalOperators(key, ops, item) == Err(UnsupportedPrefix + ops[i].0)
  {
    OperatorsAreConjunctive(key, ops, item);
  }

  /** `x < y` and `y < x` never both hold. */
  lemma LessThanIsAsymmetric(x: Option<Value>, y: Option<Value>)
    ensures !(LessThan(x, y) == Some(true) && LessThan(y, x) == Some(true))
    ensures LessThan(x, y) == Some(true) ==> LessThan(y, x) == Some(false)
  {
    if x.Some? && y.Some? && x.value.VStr? && y.value.VStr? {
      StrLessTrichotomy(x.value.s, y.value.s);
    }
  }

  /** `$ne` is the negation of `$eq`; neither fails. */
  lemma NeNegatesEq(key: string, v: Value, item: Item)
    ensures EvalOperator(key, "$eq", v, item).Ok? && EvalOperator(key, "$ne", v, item).Ok?
    ensures EvalOperator(key, "$ne", v, item).value == !EvalOperator(key, "$eq", v, item).value
  {
  }

  /** On an integer field compared with an integer, the ordering operators
      are the integer order, so `$gt`/`$lte` and `$lt`/`$gte` are
      complementary pairs. */
  lemma IntegerComparisons(key: string, n: int, item: Item)
    requires key in item && item[key].VInt?
    ensures EvalOperator(key, "$gt", VInt(n), item) == Ok(item[key].i > n)
    ensures EvalOperator(key, "$gte", VInt(n), item) == Ok(item[key].i >= n)
    ensures EvalOperator(key, "$lt", VInt(n), item) == Ok(item[key].i < n)
    ensures EvalOperator(key, "$lte", VInt(n), item) == Ok(item[key].i <= n)
  {
  }

  /** On an absent field every ordering operator is false (`undefined`
      converts to NaN). */
  lemma AbsentFieldIsIncomparable(key: string, v: Value, item: Item)
    requires key !in item
    ensures EvalOperator(key, "$gt", v, item) == Ok(false)
    ensures EvalOperator(key, "$gte", v, item) == Ok(false)
    ensures EvalOperator(key, "$lt", v, item) == Ok(false)
    ensures EvalOperator(key, "$lte", v, item) == Ok(false)
  {
  }

  /** `UnitsLess` is a strict total order on code-unit sequences. */
  lemma {:induction false} UnitsLessTrichotomy(a: seq<int>, b: seq<int>)
    ensures !(UnitsLess(a, b) && UnitsLess(b, a))
    ensures UnitsLess(a, b) || a == b || UnitsLess(b, a)
    ensures a == b ==> !UnitsLess(a, b)
    decreases |a|
  {
    if a != [] && b != [] {
      UnitsLessTrichotomy(a[1..], b[1..]);
      if a[0] == b[0] && a[1..] == b[1..] {
        assert a == [a[0]] + a[1..] && b == [b[0]] + b[1..];
      }
    }
  }

  /** `StrLess` is a strict total order: exactly one of `a < b`, `a == b`,
      `b < a` holds. */
  lemma StrLessTrichotomy(a: string, b: string)
    ensures !(StrLess(a, b) && StrLess(b, a))
    ensures StrLess(a, b) || a == b || StrLess(b, a)
    ensures a == b ==> !StrLess(a, b)
  {
    UnitsLessTrichotomy(Utf16(a), Utf16(b));
    if Utf16(a) == Utf16(b) {
      Utf16Injective(a, b);
    }
  }

  /** The code-unit order is not the code-point order: U+10000 is written
      with the high surrogate 0xD800, so it sorts before U+FFFF. */
  lemma AstralBeforeHighBmp()
    ensures StrLess("\U{10000}", "\U{FFFF}") && !StrLess("\U{FFFF}", "\U{10000}")
  {
    assert Utf16("\U{10000}") == [0xD800, 0xDC00];
    assert Utf16("\U{FFFF}") == [0xFFFF];
  }

  /** On a string field compared with a string the ordering operators are the
      lexicographic order, and `$lte` holds exactly when the field is below
      or equal to the operand. */
  lemma StringComparisons(key: string, t: string, item: Item)
    requires key in item && item[key].VStr?
    ensures EvalOperator(key, "$gt", VStr(t), item) == Ok(StrLess(t, item[key].s))
    ensures EvalOperator(key, "$lt", VStr(t), item) == Ok(StrLess(item[key].s, t))
    ensures EvalOperator(key, "$lte", VStr(t), item) == Ok(StrLess(item[key].s, t) || item[key].s == t)
    ensures EvalOperator(key, "$gte", VStr(t), item) == Ok(StrLess(t, item[key].s) || item[key].s == t)
  {
    StrLessTrichotomy(item[key].s, t);
  }

  /** With a list operand, `$in` is membership of the field's (primitive)
      value and `$nin` its complement; with any other operand both are
      false. */
  lemma InAndNin(key: string, v: Value, item: Item)
    ensures v.VList? ==>
      EvalOperator(key, "$in", v, item) == Ok(key in item && !item[key].VList? && item[key] in v.items) &&
      EvalOperator(key, "$nin", v, item) == Ok(!(key in item && !item[key].VList? && item[key] in v.items))
    ensures !v.VList? ==>
      EvalOperator(key, "$in", v, item) == Ok(false) && EvalOperator(key, "$nin", v, item) == Ok(false)
  {
  }
}
