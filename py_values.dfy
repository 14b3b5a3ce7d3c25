/**
 * The Python values the expression evaluator of the server computes with
 * (server/src/app/evaluators/transformers/concrete_transfomer.py): `None`,
 * booleans, integers, strings, lists, tuples and dicts with string keys,
 * with Python's equality and ordering. Floats are not modelled.
 */
module PyValues {
  import opened Wrappers

  datatype Value =
    | VNone
    | VBool(b: bool)
    | VInt(i: int)
    | VStr(s: string)
    | VList(items: seq<Value>)
    | VTuple(elems: seq<Value>)
    | VDict(entries: map<string, Value>)

  /** The exceptions the evaluator and the flow walker raise. */
  datatype PyError =
    | TypeError
    | NameError
    | KeyError
    | IndexError
    | ValueError
    | RuntimeError
    | AssertionError
    | UnboundLocalError
    | InvalidFlow

  type PyResult = Result<Value, PyError>

  /** `isinstance(v, int)`: in Python a bool is an int. */
  predicate IsInt(v: Value) {
    v.VBool? || v.VInt?
  }

  /** The integer a bool or an int stands for (`True` is 1, `False` is 0). */
  function IntOf(v: Value): int
    requires IsInt(v)
  {
    if v.VBool? then (if v.b then 1 else 0) else v.i
  }

  /** `isinstance(v, (list, tuple, str))` */
  predicate IsSequence(v: Value) {
    v.VList? || v.VTuple? || v.VStr?
  }

  /** `len(v)` for a list, tuple or string. */
  function Len(v: Value): nat
    requires IsSequence(v)
  {
    match v
    case VList(xs) => |xs|
    case VTuple(xs) => |xs|
    case VStr(s) => |s|
  }

  /** Python `a == b`: numbers by value across bool and int, lists and tuples element-wise, dicts by key. */
  function PyEq(a: Value, b: Value): bool {
    if IsInt(a) && IsInt(b) then IntOf(a) == IntOf(b)
    else
      match (a, b)
      case (VNone, VNone) => true
      case (VStr(x), VStr(y)) => x == y
      case (VList(xs), VList(ys)) => |xs| == |ys| && forall i :: 0 <= i < |xs| ==> PyEq(xs[i], ys[i])
      case (VTuple(xs), VTuple(ys)) => |xs| == |ys| && forall i :: 0 <= i < |xs| ==> PyEq(xs[i], ys[i])
      case (VDict(m), VDict(n)) => m.Keys == n.Keys && forall k :: k in m ==> PyEq(m[k], n[k])
      case _ => false
  }

  /** Python equality is reflexive on these values (no NaN among them). */
  lemma {:induction false} PyEqRefl(a: Value)
    ensures PyEq(a, a)
  {
    match a
    case VList(xs) =>
      forall i | 0 <= i < |xs| ensures PyEq(xs[i], xs[i]) {
        PyEqRefl(xs[i]);
      }
    case VTuple(xs) =>
      forall i | 0 <= i < |xs| ensures PyEq(xs[i], xs[i]) {
        PyEqRefl(xs[i]);
      }
    case VDict(m) =>
      forall k | k in m ensures PyEq(m[k], m[k]) {
        PyEqRefl(m[k]);
      }
    case _ =>
  }

  /** Python equality is symmetric. */
  lemma {:induction false} PyEqSymm(a: Value, b: Value)
    requires PyEq(a, b)
    ensures PyEq(b, a)
  {
    if !(IsInt(a) && IsInt(b)) {
      match (a, b)
      case (VList(xs), VList(ys)) =>
        forall i | 0 <= i < |ys| ensures PyEq(ys[i], xs[i]) {
          PyEqSymm(xs[i], ys[i]);
        }
      case (VTuple(xs), VTuple(ys)) =>
        forall i | 0 <= i < |ys| ensures PyEq(ys[i], xs[i]) {
          PyEqSymm(xs[i], ys[i]);
        }
      case (VDict(m), VDict(n)) =>
        forall k | k in n ensures PyEq(n[k], m[k]) {
          PyEqSymm(m[k], n[k]);
        }
      case _ =>
    }
  }

  /** `value in xs` on a list or tuple: some element is equal. */
  function Contains(xs: seq<Value>, v: Value): (r: bool)
    ensures r <==> exists i :: 0 <= i < |xs| && PyEq(xs[i], v)
  {
    if xs == [] then false
    else if PyEq(xs[0], v) then true
    else
      var r := Contains(xs[1..], v);
      assert r ==> exists i :: 0 <= i < |xs| && PyEq(xs[i], v) by {
        if r {
          var i :| 0 <= i < |xs[1..]| && PyEq(xs[1..][i], v);
          assert xs[i + 1] == xs[1..][i];
        }
      }
      r
  }

  /** Lexicographic string order by code point; `orEqual` selects `<=` over `<`. */
  function StrLess(x: string, y: string, orEqual: bool): (r: bool)
    ensures x == y ==> r == orEqual
  {
    if x == [] || y == [] then (if orEqual then |x| <= |y| else |x| < |y|)
    else if x[0] != y[0] then x[0] < y[0]
    else StrLess(x[1..], y[1..], orEqual)
  }

  /**
   * After a common prefix of length `k`, the first differing character
   * decides; a proper prefix is smaller, and a proper extension is not.
   */
  lemma {:induction false} StrLessDecides(x: string, y: string, k: nat, orEqual: bool)
    requires k <= |x| && k <= |y| && x[..k] == y[..k]
    ensures k < |x| && k < |y| && x[k] != y[k] ==> StrLess(x, y, orEqual) == (x[k] < y[k])
    ensures k == |x| && k < |y| ==> StrLess(x, y, orEqual)
    ensures k == |y| && k < |x| ==> !StrLess(x, y, orEqual)
  {
    if k > 0 {
      assert x[0] == x[..k][0] == y[..k][0] == y[0];
      assert x[1..][..k - 1] == x[1..k] == y[1..k] == y[1..][..k - 1];
      StrLessDecides(x[1..], y[1..], k - 1, orEqual);
    }
  }

  /**
   * Python `a < b` (or `a <= b`): numbers by value, strings by code point,
   * lists with lists and tuples with tuples lexicographically; any other
   * pair (None, dicts, mixed types) raises `TypeError`.
   */
  function Less(a: Value, b: Value, orEqual: bool): PyResult
    decreases a
  {
    if IsInt(a) && IsInt(b) then Ok(VBool(if orEqual then IntOf(a) <= IntOf(b) else IntOf(a) < IntOf(b)))
    else
      match (a, b)
      case (VStr(x), VStr(y)) => Ok(VBool(StrLess(x, y, orEqual)))
      case (VList(xs), VList(ys)) => SeqLess(xs, ys, orEqual)
      case (VTuple(xs), VTuple(ys)) => SeqLess(xs, ys, orEqual)
      case _ => Err(TypeError)
  }

  /** Python's sequence comparison: the first unequal pair decides, else the lengths do. */
  function SeqLess(xs: seq<Value>, ys: seq<Value>, orEqual: bool): PyResult
    decreases xs
  {
    if xs == [] || ys == [] then Ok(VBool(if orEqual then |xs| <= |ys| else |xs| < |ys|))
    else if PyEq(xs[0], ys[0]) then SeqLess(xs[1..], ys[1..], orEqual)
    else Less(xs[0], ys[0], orEqual)
  }

  /**
   * Ordering answers a bool or raises `TypeError`, never anything else;
   * numbers and strings always compare; `None` never does.
   */
  lemma {:induction false} LessOutcome(a: Value, b: Value, orEqual: bool)
    ensures Less(a, b, orEqual).Ok? ==> Less(a, b, orEqual).value.VBool?
    ensures Less(a, b, orEqual).Err? ==> Less(a, b, orEqual).error == TypeError
    ensures (IsInt(a) && IsInt(b)) || (a.VStr? && b.VStr?) ==> Less(a, b, orEqual).Ok?
    ensures a.VNone? || b.VNone? ==> Less(a, b, orEqual) == Err(TypeError)
    decreases a, 1
  {
    if !(IsInt(a) && IsInt(b)) {
      match (a, b)
      case (VList(xs), VList(ys)) => SeqLessOutcome(xs, ys, orEqual);
      case (VTuple(xs), VTuple(ys)) => SeqLessOutcome(xs, ys, orEqual);
      case _ =>
    }
  }

  lemma {:induction false} SeqLessOutcome(xs: seq<Value>, ys: seq<Value>, orEqual: bool)
    ensures SeqLess(xs, ys, orEqual).Ok? ==> SeqLess(xs, ys, orEqual).value.VBool?
    ensures SeqLess(xs, ys, orEqual).Err? ==> SeqLess(xs, ys, orEqual).error == TypeError
    decreases xs, 0
  {
    if xs != [] && ys != [] {
      if PyEq(xs[0], ys[0]) {
        SeqLessOutcome(xs[1..], ys[1..], orEqual);
      } else {
        LessOutcome(xs[0], ys[0], orEqual);
      }
    }
  }
}
