/**
 * The concrete semantics of the flow expression language: the value rule of
 * each grammar construct (server/src/app/evaluators/transformers/concrete_transfomer.py).
 * The parse tree walk itself belongs to the parser library and is not part
 * of this model; each rule here takes its already evaluated operands.
 */
module ConcreteTransformer {
  import opened Wrappers
  import opened Text
  import opened PyValues

  // ----- slicing and literals -----

  /** A Python slice bound: negative counts from the end, then clamped into `[0, n]`. */
  function SliceBound(k: int, n: nat): (r: nat)
    ensures r <= n
    ensures 0 <= k <= n ==> r == k
    ensures k < 0 && 0 <= k + n ==> r == k + n
  {
    if k < 0 then (if k + n < 0 then 0 else k + n)
    else if k > n then n
    else k
  }

  /** Python `s[lo:hi]`. */
  function PySlice(s: string, lo: int, hi: int): (r: string)
    ensures |r| <= |s|
    ensures 0 <= lo <= hi <= |s| ==> r == s[lo..hi]
    ensures 0 <= lo <= |s| && lo <= hi ==> r == s[lo..if hi <= |s| then hi else |s|]
  {
    var a := SliceBound(lo, |s|);
    var b := SliceBound(hi, |s|);
    if a < b then s[a..b] else ""
  }

  /** `string`: a quoted token without its quotes (`tok.value[1:-1]`). */
  function StringLiteral(tok: string): (r: string)
    ensures |tok| >= 2 ==> r == tok[1..|tok| - 1]
  {
    PySlice(tok, 1, -1)
  }

  /** `pair`: a context key loses its double quotes when it has them at both ends. */
  function Pair(raw: string, value: Value): (r: (string, Value))
    ensures r.1 == value
    ensures |raw| >= 2 && raw[0] == '"' && raw[|raw| - 1] == '"' ==> r.0 == raw[1..|raw| - 1]
    ensures !(StartsWith(raw, "\"") && EndsWith(raw, "\"")) ==> r.0 == raw
  {
    var key := if StartsWith(raw, "\"") && EndsWith(raw, "\"") then PySlice(raw, 1, -1) else raw;
    (key, value)
  }

  /** The dict `context_literal` builds: pairs stored in order, a later key overriding an earlier one. */
  function DictOf(pairs: seq<(string, Value)>): map<string, Value> {
    if pairs == [] then map[]
    else DictOf(pairs[..|pairs| - 1])[pairs[|pairs| - 1].0 := pairs[|pairs| - 1].1]
  }

  /** The dict holds exactly the keys of the pairs, each with the value of its last pair. */
  lemma {:induction false} DictOfLookup(pairs: seq<(string, Value)>, k: string)
    ensures k in DictOf(pairs) <==> exists i :: 0 <= i < |pairs| && pairs[i].0 == k
    ensures forall i :: 0 <= i < |pairs| && pairs[i].0 == k && (forall j :: i < j < |pairs| ==> pairs[j].0 != k) ==>
      k in DictOf(pairs) && DictOf(pairs)[k] == pairs[i].1
  {
    if pairs != [] {
      var init := pairs[..|pairs| - 1];
      DictOfLookup(init, k);
      assert forall i :: 0 <= i < |init| ==> init[i] == pairs[i];
      if k in DictOf(init) {
        var i :| 0 <= i < |init| && init[i].0 == k;
        assert pairs[i].0 == k;
      }
    }
  }

  /** `context_literal`: the loop storing each pair into a fresh dict. */
  method ContextLiteral(pairs: seq<(string, Value)>) returns (d: map<string, Value>)
    ensures d == DictOf(pairs)
  {
    d := map[];
    for i := 0 to |pairs|
      invariant d == DictOf(pairs[..i])
    {
      var (k, v) := pairs[i];
      assert pairs[..i + 1][..i] == pairs[..i];
      d := d[k := v];
    }
    assert pairs[..|pairs|] == pairs;
  }

  // ----- names and indexing -----

  /** Following `keys` from `v`: each step needs a dict (`TypeError`) holding the key (`KeyError`). */
  function Walk(v: Value, keys: seq<string>): PyResult {
    if keys == [] then Ok(v)
    else if !v.VDict? then Err(TypeError)
    else if keys[0] !in v.entries then Err(KeyError)
    else Walk(v.entries[keys[0]], keys[1..])
  }

  /** The value of a dotted name `name.k1.k2…` in `env`; an unknown name raises `NameError`. */
  function Resolve(env: map<string, Value>, name: string, keys: seq<string>): (r: PyResult)
    ensures name !in env ==> r == Err(NameError)
    ensures name in env && keys == [] ==> r == Ok(env[name])
    ensures r.Err? ==> r.error in {NameError, KeyError, TypeError}
  {
    if name !in env then Err(NameError) else WalkErrors(env[name], keys); Walk(env[name], keys)
  }

  lemma {:induction false} WalkErrors(v: Value, keys: seq<string>)
    ensures Walk(v, keys).Err? ==> Walk(v, keys).error in {KeyError, TypeError}
  {
    if keys != [] && v.VDict? && keys[0] in v.entries {
      WalkErrors(v.entries[keys[0]], keys[1..]);
    }
  }

  /** A walk along `a + b` is the walk along `a` continued along `b`; an error on `a` stops it. */
  lemma {:induction false} WalkAppend(v: Value, a: seq<string>, b: seq<string>)
    ensures Walk(v, a + b) == match Walk(v, a) case Ok(w) => Walk(w, b) case Err(e) => Err(e)
  {
    if a != [] {
      assert (a + b)[0] == a[0] && (a + b)[1..] == a[1..] + b;
      if v.VDict? && a[0] in v.entries {
        WalkAppend(v.entries[a[0]], a[1..], b);
      }
    } else {
      assert a + b == b;
    }
  }

  /** `name_access`: the loop from the variable through its keys. */
  method NameAccess(env: map<string, Value>, name: string, rest: seq<string>) returns (r: PyResult)
    ensures r == Resolve(env, name, rest)
  {
    if name !in env {
      return Err(NameError);
    }
    var val := env[name];
    var i := 0;
    while i < |rest|
      invariant 0 <= i <= |rest|
      invariant Walk(val, rest[i..]) == Resolve(env, name, rest)
    {
      var key := rest[i];
      assert rest[i..][1..] == rest[i + 1..];
      if val.VDict? {
        if key in val.entries {
          val := val.entries[key];
        } else {
          return Err(KeyError);
        }
      } else {
        return Err(TypeError);
      }
      i := i + 1;
    }
    return Ok(val);
  }

  /** The element at a 0-based position of a list, tuple or string (a string gives a one-character string). */
  function Item(c: Value, k: int): Value
    requires IsSequence(c) && 0 <= k < Len(c)
  {
    match c
    case VList(xs) => xs[k]
    case VTuple(xs) => xs[k]
    case VStr(s) => VStr([s[k]])
  }

  /**
   * `_do_index`: 1-based indexing. It succeeds exactly for a numeric index
   * within `1..len` of a list, tuple or string; a bad index or container
   * raises `TypeError`, an index out of range `IndexError`.
   */
  function DoIndex(container: Value, idx: Value): (r: PyResult)
    ensures r.Ok? <==> IsInt(idx) && IsSequence(container) && 1 <= IntOf(idx) <= Len(container)
    ensures r.Ok? ==> r.value == Item(container, IntOf(idx) - 1)
    ensures r.Err? ==> r.error == (if IsInt(idx) && IsSequence(container) then IndexError else TypeError)
  {
    if idx.VNone? then Err(TypeError)
    else if !IsInt(idx) then Err(TypeError)
    else
      var pyIdx := IntOf(idx) - 1;
      if container.VNone? then Err(TypeError)
      else if !IsSequence(container) then Err(TypeError)
      else if pyIdx < 0 || pyIdx >= Len(container) then Err(IndexError)
      else Ok(Item(container, pyIdx))
  }

  /**
   * `name_index`: the dotted name is resolved as `name_access` does and the
   * result indexed; without any name the rule raises `RuntimeError`.
   */
  method NameIndex(env: map<string, Value>, names: seq<string>, idx: Value) returns (r: PyResult)
    ensures names == [] ==> r == Err(RuntimeError)
    ensures names != [] ==>
      r == match Resolve(env, names[0], names[1..]) case Ok(v) => DoIndex(v, idx) case Err(e) => Err(e)
  {
    if |names| < 1 {
      return Err(RuntimeError);
    }
    var val := NameAccess(env, names[0], names[1..]);
    if val.Err? {
      return val;
    }
    r := DoIndex(val.value, idx);
  }

  // ----- logic -----

  /** `if_expr`: both branches are already evaluated; a non-bool condition raises. */
  function IfExpr(cond: Value, thenV: Value, elseV: Value): (r: PyResult)
    ensures r.Ok? <==> cond.VBool?
    ensures r.Err? ==> r.error == TypeError
    ensures cond == VBool(true) ==> r == Ok(thenV)
    ensures cond == VBool(false) ==> r == Ok(elseV)
  {
    if cond.VNone? then Err(TypeError)
    else if !cond.VBool? then Err(TypeError)
    else Ok(if cond.b then thenV else elseV)
  }

  /** `or_op`: a true first operand decides without inspecting the second. */
  function OrOp(a: Value, b: Value): PyResult {
    if !a.VBool? then Err(TypeError)
    else if a.b then Ok(VBool(true))
    else if !b.VBool? then Err(TypeError)
    else Ok(b)
  }

  /** `and_op`: a false first operand decides without inspecting the second. */
  function AndOp(a: Value, b: Value): PyResult {
    if !a.VBool? then Err(TypeError)
    else if !a.b then Ok(VBool(false))
    else if !b.VBool? then Err(TypeError)
    else Ok(b)
  }

  /** `not_op` */
  function NotOp(a: Value): PyResult {
    if !a.VBool? then Err(TypeError) else Ok(VBool(!a.b))
  }

  /**
   * The connectives: boolean truth tables on bools, short circuit on the
   * deciding first operand whatever the second, `TypeError` on any other
   * operand they inspect, and De Morgan's law between them.
   */
  lemma Connectives(a: Value, b: Value)
    ensures a.VBool? && b.VBool? ==>
      OrOp(a, b) == Ok(VBool(a.b || b.b)) && AndOp(a, b) == Ok(VBool(a.b && b.b))
      && NotOp(OrOp(a, b).value) == AndOp(NotOp(a).value, NotOp(b).value)
    ensures OrOp(VBool(true), b) == Ok(VBool(true)) && AndOp(VBool(false), b) == Ok(VBool(false))
    ensures !a.VBool? ==> OrOp(a, b) == Err(TypeError) && AndOp(a, b) == Err(TypeError) && NotOp(a) == Err(TypeError)
    ensures !b.VBool? ==> OrOp(VBool(false), b) == Err(TypeError) && AndOp(VBool(true), b) == Err(TypeError)
  {
  }

  // ----- comparison -----

  /** `_do_in_operator`: substring test on strings, membership on lists and tuples. */
  function DoIn(left: Value, right: Value): (r: PyResult)
    ensures right.VStr? && left.VStr? ==> r == Ok(VBool(ContainsSub(right.s, left.s)))
    ensures right.VStr? && !left.VStr? ==> r == Err(TypeError)
    ensures right.VList? ==> r == Ok(VBool(exists i :: 0 <= i < |right.items| && PyEq(right.items[i], left)))
    ensures right.VTuple? ==> r == Ok(VBool(exists i :: 0 <= i < |right.elems| && PyEq(right.elems[i], left)))
    ensures !IsSequence(right) ==> r == Err(TypeError)
  {
    if right.VNone? then Err(TypeError)
    else if right.VStr? then
      if !left.VStr? then Err(TypeError) else Ok(VBool(ContainsSub(right.s, left.s)))
    else if right.VList? then Ok(VBool(Contains(right.items, left)))
    else if right.VTuple? then Ok(VBool(Contains(right.elems, left)))
    else Err(TypeError)
  }

  /**
   * `compare`: `eq` and `ne` never raise; every other operator raises
   * `TypeError` on a `None` operand; `a > b` is `b < a`; an unknown
   * operator raises `RuntimeError`.
   */
  function Compare(left: Value, op: string, right: Value): (r: PyResult)
    ensures op == "eq" ==> r == Ok(VBool(PyEq(left, right)))
    ensures op == "ne" ==> r == Ok(VBool(!PyEq(left, right)))
    ensures op != "eq" && op != "ne" && (left.VNone? || right.VNone?) ==> r == Err(TypeError)
    ensures op !in {"eq", "ne", "lt", "le", "gt", "ge", "in_op", "in"} && !left.VNone? && !right.VNone? ==> r == Err(RuntimeError)
  {
    if op == "eq" then Ok(VBool(PyEq(left, right)))
    else if op == "ne" then Ok(VBool(!PyEq(left, right)))
    else if left.VNone? || right.VNone? then Err(TypeError)
    else if op == "lt" then Less(left, right, false)
    else if op == "le" then Less(left, right, true)
    else if op == "gt" then Less(right, left, false)
    else if op == "ge" then Less(right, left, true)
    else if op == "in_op" || op == "in" then DoIn(left, right)
    else Err(RuntimeError)
  }

  /**
   * Equal values compare as equal: `eq` holds of every value and itself,
   * and on comparable equal values `<=`/`>=` hold while `<`/`>` do not.
   */
  lemma CompareEqual(a: Value, b: Value)
    requires PyEq(a, b) && (IsInt(a) || a.VStr? || a.VList? || a.VTuple?)
    ensures Compare(a, "eq", a) == Ok(VBool(true))
    ensures Compare(a, "le", b) == Ok(VBool(true)) && Compare(a, "ge", b) == Ok(VBool(true))
    ensures Compare(a, "lt", b) == Ok(VBool(false)) && Compare(a, "gt", b) == Ok(VBool(false))
  {
    PyEqRefl(a);
    PyEqSymm(a, b);
    LessOfEqual(a, b, true);
    LessOfEqual(a, b, false);
    LessOfEqual(b, a, true);
    LessOfEqual(b, a, false);
  }

  lemma {:induction false} LessOfEqual(a: Value, b: Value, orEqual: bool)
    requires PyEq(a, b) && (IsInt(a) || a.VStr? || a.VList? || a.VTuple?)
    ensures Less(a, b, orEqual) == Ok(VBool(orEqual))
  {
    if !IsInt(a) {
      match (a, b)
      case (VList(xs), VList(ys)) => SeqLessOfEqual(xs, ys, orEqual);
      case (VTuple(xs), VTuple(ys)) => SeqLessOfEqual(xs, ys, orEqual);
      case _ =>
    }
  }

  lemma {:induction false} SeqLessOfEqual(xs: seq<Value>, ys: seq<Value>, orEqual: bool)
    requires |xs| == |ys| && forall i :: 0 <= i < |xs| ==> PyEq(xs[i], ys[i])
    ensures SeqLess(xs, ys, orEqual) == Ok(VBool(orEqual))
  {
    if xs != [] {
      assert PyEq(xs[0], ys[0]);
      assert forall i :: 0 <= i < |xs[1..]| ==> xs[1..][i] == xs[i + 1] && ys[1..][i] == ys[i + 1];
      SeqLessOfEqual(xs[1..], ys[1..], orEqual);
    }
  }

  // ----- arithmetic -----

  /** `add`: `None` absorbs; ints (bools count) add, strings and lists concatenate; any other mix raises. */
  function Add(a: Value, b: Value): PyResult {
    if a.VNone? || b.VNone? then Ok(VNone)
    else if IsInt(a) && IsInt(b) then Ok(VInt(IntOf(a) + IntOf(b)))
    else if a.VStr? && b.VStr? then Ok(VStr(a.s + b.s))
    else if a.VList? && b.VList? then Ok(VList(a.items + b.items))
    else Err(TypeError)
  }

  /** `sub` */
  function Sub(a: Value, b: Value): PyResult {
    if a.VNone? || b.VNone? then Ok(VNone)
    else if IsInt(a) && IsInt(b) then Ok(VInt(IntOf(a) - IntOf(b)))
    else Err(TypeError)
  }

  /** `mul` */
  function Mul(a: Value, b: Value): PyResult {
    if a.VNone? || b.VNone? then Ok(VNone)
    else if IsInt(a) && IsInt(b) then Ok(VInt(IntOf(a) * IntOf(b)))
    else Err(TypeError)
  }

  /** `neg` */
  function Neg(a: Value): PyResult {
    if a.VNone? then Ok(VNone)
    else if !IsInt(a) then Err(TypeError)
    else Ok(VInt(-IntOf(a)))
  }

  /**
   * The arithmetic rules: `None` in, `None` out; the only errors are
   * `TypeError` on a type mix; `sub` undoes `add` and `neg` is an
   * involution on numbers; `add` on strings and lists concatenates.
   */
  lemma Arithmetic(a: Value, b: Value)
    ensures a.VNone? || b.VNone? ==> Add(a, b) == Ok(VNone) && Sub(a, b) == Ok(VNone) && Mul(a, b) == Ok(VNone)
    ensures a.VNone? ==> Neg(a) == Ok(VNone)
    ensures Add(a, b).Err? ==> Add(a, b).error == TypeError && !a.VNone? && !b.VNone?
    ensures Add(a, b).Ok? <==> a.VNone? || b.VNone? || (IsInt(a) && IsInt(b)) || (a.VStr? && b.VStr?) || (a.VList? && b.VList?)
    ensures Sub(a, b).Ok? <==> a.VNone? || b.VNone? || (IsInt(a) && IsInt(b))
    ensures Mul(a, b).Ok? <==> a.VNone? || b.VNone? || (IsInt(a) && IsInt(b))
    ensures IsInt(a) && IsInt(b) ==> Sub(Add(a, b).value, b) == Ok(VInt(IntOf(a)))
    ensures IsInt(a) ==> Neg(Neg(a).value) == Ok(VInt(IntOf(a)))
    ensures a.VStr? && b.VStr? ==> Add(a, b) == Ok(VStr(a.s + b.s)) && StartsWith(Add(a, b).value.s, a.s)
    ensures a.VList? && b.VList? ==> Add(a, b).Ok? && |Add(a, b).value.items| == |a.items| + |b.items|
  {
    if a.VStr? && b.VStr? {
      assert (a.s + b.s)[..|a.s|] == a.s;
    }
  }

  // ----- built-ins -----

  /** `length` */
  function Length(x: Value): (r: PyResult)
    ensures x.VNone? ==> r == Ok(VNone)
    ensures IsSequence(x) ==> r == Ok(VInt(Len(x)))
    ensures !x.VNone? && !IsSequence(x) ==> r == Err(TypeError)
  {
    if x.VNone? then Ok(VNone)
    else if IsSequence(x) then Ok(VInt(Len(x)))
    else Err(TypeError)
  }

  /**
   * `substring(text, start, length)`: 1-based start; an omitted (`None`)
   * length reads to the end. The bounds are Python slice bounds, so a start
   * of 0 counts from the end of the text.
   */
  function Substring(text: Value, start: Value, length: Value): PyResult {
    if text.VNone? || start.VNone? then Ok(VNone)
    else if !text.VStr? then Err(TypeError)
    else if !IsInt(start) then Err(TypeError)
    else
      var s := IntOf(start) - 1;
      if length.VNone? then Ok(VStr(PySlice(text.s, s, |text.s|)))
      else if !IsInt(length) then Err(TypeError)
      else Ok(VStr(PySlice(text.s, s, s + IntOf(length))))
  }

  /**
   * Within range, `substring` is the expected 1-based window, clipped at
   * the end of the text; a start of 0 reads the last character instead.
   */
  lemma SubstringWindow(text: string, start: int, length: int)
    requires 1 <= start <= |text| + 1 && 0 <= length
    ensures var lo := start - 1;
      var hi := if lo + length <= |text| then lo + length else |text|;
      Substring(VStr(text), VInt(start), VInt(length)) == Ok(VStr(text[lo..hi]))
      && Substring(VStr(text), VInt(start), VNone) == Ok(VStr(text[lo..]))
    ensures text != [] ==> Substring(VStr(text), VInt(0), VNone) == Ok(VStr([text[|text| - 1]]))
  {
    var lo := start - 1;
    assert Substring(VStr(text), VInt(start), VInt(length)) == Ok(VStr(PySlice(text, lo, lo + length)));
    assert Substring(VStr(text), VInt(start), VNone) == Ok(VStr(PySlice(text, lo, |text|)));
    assert text[lo..] == text[lo..|text|];
    if text != [] {
      assert PySlice(text, -1, |text|) == text[|text| - 1..];
      assert text[|text| - 1..] == [text[|text| - 1]];
    }
  }

  /** `upper`; the case mapping is ASCII-only here. */
  function UpperB(x: Value): (r: PyResult)
    ensures x.VStr? ==> r == Ok(VStr(Upper(x.s)))
    ensures !x.VStr? ==> r == (if x.VNone? then Ok(VNone) else Err(TypeError))
  {
    if x.VNone? then Ok(VNone)
    else if !x.VStr? then Err(TypeError)
    else Ok(VStr(Upper(x.s)))
  }

  /** `lower`; the case mapping is ASCII-only here. */
  function LowerB(x: Value): (r: PyResult)
    ensures x.VStr? ==> r == Ok(VStr(Lower(x.s)))
    ensures !x.VStr? ==> r == (if x.VNone? then Ok(VNone) else Err(TypeError))
  {
    if x.VNone? then Ok(VNone)
    else if !x.VStr? then Err(TypeError)
    else Ok(VStr(Lower(x.s)))
  }

  /** `contains`: the `in` test with the container first; a `None` container gives `None`. */
  function ContainsB(container: Value, item: Value): (r: PyResult)
    ensures container.VNone? ==> r == Ok(VNone)
    ensures !container.VNone? ==> r == DoIn(item, container)
  {
    if container.VNone? then Ok(VNone)
    else if container.VStr? then
      if !item.VStr? then Err(TypeError) else Ok(VBool(ContainsSub(container.s, item.s)))
    else if container.VList? then Ok(VBool(Contains(container.items, item)))
    else if container.VTuple? then Ok(VBool(Contains(container.elems, item)))
    else Err(TypeError)
  }

  /** `startsWith` */
  function StartsWithB(s: Value, prefix: Value): PyResult {
    if s.VNone? || prefix.VNone? then Ok(VNone)
    else if !s.VStr? || !prefix.VStr? then Err(TypeError)
    else Ok(VBool(StartsWith(s.s, prefix.s)))
  }

  /** `endsWith` */
  function EndsWithB(s: Value, suffix: Value): PyResult {
    if s.VNone? || suffix.VNone? then Ok(VNone)
    else if !s.VStr? || !suffix.VStr? then Err(TypeError)
    else Ok(VBool(EndsWith(s.s, suffix.s)))
  }

  /**
   * The string tests agree with concatenation and with `contains`: a
   * concatenation starts with its left part and ends with its right part, and
   * a prefix is contained. `is null` holds exactly when `coalesce` of the
   * value alone gives `None`.
   */
  lemma StringTests(a: string, b: string, x: Value)
    ensures StartsWithB(VStr(a + b), VStr(a)) == Ok(VBool(true))
    ensures EndsWithB(VStr(a + b), VStr(b)) == Ok(VBool(true))
    ensures StartsWithB(VStr(a), VStr(b)) == Ok(VBool(true)) ==> ContainsB(VStr(a), VStr(b)) == Ok(VBool(true))
    ensures StartsWithB(VStr(a), VStr(b)).Ok? && EndsWithB(VStr(a), VStr(b)).Ok?
    ensures IsNull(x) == VBool(FirstNonNull([x]).VNone?)
  {
    assert (a + b)[..|a|] == a;
    assert (a + b)[|a + b| - |b|..] == b;
    if StartsWith(a, b) {
      assert OccursAt(a, b, 0);
    }
  }

  /** `append`: a new list with the value at the end; a tuple is refused. */
  function Append(lst: Value, v: Value): (r: PyResult)
    ensures lst.VList? ==> r == Ok(VList(lst.items + [v]))
    ensures !lst.VList? ==> r == (if lst.VNone? then Ok(VNone) else Err(TypeError))
  {
    if lst.VNone? then Ok(VNone)
    else if !lst.VList? then Err(TypeError)
    else Ok(VList(lst.items + [v]))
  }

  /** The index of the first element equal to `v`, or -1. */
  function IndexOfEq(xs: seq<Value>, v: Value): (i: int)
    ensures -1 <= i < |xs|
    ensures i == -1 <==> !Contains(xs, v)
    ensures i != -1 ==> PyEq(xs[i], v) && forall j :: 0 <= j < i ==> !PyEq(xs[j], v)
  {
    if xs == [] then -1
    else if PyEq(xs[0], v) then 0
    else
      var k := IndexOfEq(xs[1..], v);
      assert forall j :: 0 <= j < |xs[1..]| ==> xs[1..][j] == xs[j + 1];
      if k == -1 then -1 else k + 1
  }

  /** `list.remove` on a copy: the first element equal to `v` is dropped, if any. */
  function RemoveFirst(xs: seq<Value>, v: Value): (r: seq<Value>)
    ensures !Contains(xs, v) ==> r == xs
    ensures Contains(xs, v) ==> |r| == |xs| - 1
    ensures Contains(xs, v) ==> r == xs[..IndexOfEq(xs, v)] + xs[IndexOfEq(xs, v) + 1..]
  {
    var i := IndexOfEq(xs, v);
    if i == -1 then xs else xs[..i] + xs[i + 1..]
  }

  /** `remove`: the list without its first occurrence of `v` (an absent value gives an equal copy). */
  function Remove(lst: Value, v: Value): (r: PyResult)
    ensures lst.VList? ==> r == Ok(VList(RemoveFirst(lst.items, v)))
    ensures lst.VList? && Contains(lst.items, v) ==> |r.value.items| == |lst.items| - 1
    ensures lst.VList? && Contains(lst.items, v) ==>
      r.value.items == lst.items[..IndexOfEq(lst.items, v)] + lst.items[IndexOfEq(lst.items, v) + 1..]
    ensures !lst.VList? ==> r == (if lst.VNone? then Ok(VNone) else Err(TypeError))
  {
    if lst.VNone? then Ok(VNone)
    else if !lst.VList? then Err(TypeError)
    else Ok(VList(RemoveFirst(lst.items, v)))
  }

  /** `remove` undoes `append` when the appended value did not occur before. */
  lemma RemoveUndoesAppend(xs: seq<Value>, v: Value)
    requires !Contains(xs, v)
    ensures Remove(Append(VList(xs), v).value, v) == Ok(VList(xs))
  {
    PyEqRefl(v);
    var ys := xs + [v];
    assert ys[|xs|] == v;
    var i := IndexOfEq(ys, v);
    assert i == |xs|;
    assert ys[..i] == xs && ys[i + 1..] == [];
    assert RemoveFirst(ys, v) == xs;
  }

  /** `count`: the length of a list, tuple or string, 1 for any other value, `None` for `None`. */
  function Count(x: Value): (r: PyResult)
    ensures r.Ok?
    ensures x.VNone? ==> r.value.VNone?
    ensures IsSequence(x) ==> r.value == VInt(Len(x))
    ensures !x.VNone? && !IsSequence(x) ==> r.value == VInt(1)
  {
    if x.VNone? then Ok(VNone)
    else if IsSequence(x) then Ok(VInt(Len(x)))
    else Ok(VInt(1))
  }

  /** `is null` */
  function IsNull(x: Value): Value {
    VBool(x.VNone?)
  }

  /** `coalesce`: the first argument that is not `None`, or `None`. */
  function FirstNonNull(args: seq<Value>): (r: Value)
    ensures r.VNone? <==> forall i :: 0 <= i < |args| ==> args[i].VNone?
    ensures !r.VNone? ==> exists i :: 0 <= i < |args| && args[i] == r && forall j :: 0 <= j < i ==> args[j].VNone?
  {
    if args == [] then VNone
    else if !args[0].VNone? then args[0]
    else
      var r := FirstNonNull(args[1..]);
      assert forall i :: 0 <= i < |args[1..]| ==> args[1..][i] == args[i + 1];
      if !r.VNone? then
        var i :| 0 <= i < |args[1..]| && args[1..][i] == r && forall j :: 0 <= j < i ==> args[1..][j].VNone?;
        assert args[i + 1] == r;
        r
      else r
  }

  /** `_builtin_coalesce`: the loop over the arguments. */
  method Coalesce(args: seq<Value>) returns (r: Value)
    ensures r == FirstNonNull(args)
  {
    for i := 0 to |args|
      invariant FirstNonNull(args[i..]) == FirstNonNull(args)
    {
      if !args[i].VNone? {
        return args[i];
      }
      assert args[i..][1..] == args[i + 1..];
    }
    assert args[|args|..] == [];
    return VNone;
  }

  /** The names `func_call` dispatches on. */
  const BuiltinNames: set<string> :=
    {"length", "substring", "upper", "lower", "contains", "startsWith", "endsWith",
     "append", "remove", "count", "is null", "coalesce"}

  /**
   * `func_call`: dispatch to the built-in of that name with the argument
   * list; an unknown name raises `NameError`, a wrong number of arguments
   * `TypeError` (`substring`'s length may be omitted).
   */
  function FuncCall(fname: string, args: seq<Value>): (r: PyResult)
    ensures fname !in BuiltinNames ==> r == Err(NameError)
    ensures fname == "coalesce" ==> r == Ok(FirstNonNull(args))
    ensures fname in BuiltinNames && fname != "coalesce" && fname != "substring" && |args| > 2 ==> r == Err(TypeError)
  {
    match fname
    case "length" => if |args| == 1 then Length(args[0]) else Err(TypeError)
    case "substring" =>
      if |args| == 2 then Substring(args[0], args[1], VNone)
      else if |args| == 3 then Substring(args[0], args[1], args[2])
      else Err(TypeError)
    case "upper" => if |args| == 1 then UpperB(args[0]) else Err(TypeError)
    case "lower" => if |args| == 1 then LowerB(args[0]) else Err(TypeError)
    case "contains" => if |args| == 2 then ContainsB(args[0], args[1]) else Err(TypeError)
    case "startsWith" => if |args| == 2 then StartsWithB(args[0], args[1]) else Err(TypeError)
    case "endsWith" => if |args| == 2 then EndsWithB(args[0], args[1]) else Err(TypeError)
    case "append" => if |args| == 2 then Append(args[0], args[1]) else Err(TypeError)
    case "remove" => if |args| == 2 then Remove(args[0], args[1]) else Err(TypeError)
    case "count" => if |args| == 1 then Count(args[0]) else Err(TypeError)
    case "is null" => if |args| == 1 then Ok(IsNull(args[0])) else Err(TypeError)
    case "coalesce" => Ok(FirstNonNull(args))
    case _ => Err(NameError)
  }
}
