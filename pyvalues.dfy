/**
 * The Python values a configuration entry can hold, with the parts of Python's
 * semantics the searcher relies on: truthiness, `isinstance`, `str()`, `repr()`,
 * comparison with an int and the `in` operator.
 */
module PyValues {
  import opened Wrappers
  import Decimal

  /**
   * A configuration value. PObject stands for an instance of a plain user class
   * (no special methods): it is truthy, hashable, equal only to itself, cannot be
   * ordered against an int and is not a container; `text` is its `str()`.
   */
  datatype PyVal =
    | PNone
    | PBool(b: bool)
    | PInt(i: int)
    | PStr(s: string)
    | PList(items: seq<PyVal>)
    | PObject(text: string)

  /** Python truthiness: None, False, 0, '' and [] are falsy. */
  predicate Truthy(v: PyVal) {
    match v
    case PNone => false
    case PBool(b) => b
    case PInt(i) => i != 0
    case PStr(s) => s != ""
    case PList(items) => items != []
    case PObject(_) => true
  }

  /** The integer value of v when `isinstance(v, int)` holds (bool is a subclass of int). */
  function AsInt(v: PyVal): (r: Option<int>)
    ensures r.Some? <==> v.PInt? || v.PBool?
    ensures v.PInt? ==> r == Some(v.i)
  {
    match v
    case PInt(i) => Some(i)
    case PBool(b) => Some(if b then 1 else 0)
    case _ => None
  }

  /** `str(v)`. */
  function PyStr(v: PyVal): string
    decreases v, 1
  {
    match v
    case PNone => "None"
    case PBool(b) => if b then "True" else "False"
    case PInt(i) => Decimal.IntToDecimal(i)
    case PStr(s) => s
    case PList(items) => "[" + JoinReprs(v, 0) + "]"
    case PObject(t) => t
  }

  /** `repr(v)`; strings are quoted with single quotes (no escaping is modelled). */
  function PyRepr(v: PyVal): string
    decreases v, 2
  {
    if v.PStr? then "'" + v.s + "'" else PyStr(v)
  }

  /** `', '.join(repr(x) for x in items[k:])` for the items of the list value `list`. */
  function JoinReprs(list: PyVal, k: nat): string
    requires list.PList?
    decreases list, 0, |list.items| - k
  {
    if k >= |list.items| then ""
    else PyRepr(list.items[k]) + (if k + 1 < |list.items| then ", " + JoinReprs(list, k + 1) else "")
  }

  /** `a <= b` on strings read as "a is a contiguous part of b" (Python's `a in b` for str). */
  predicate IsSubstring(a: string, b: string)
    decreases |b|
  {
    a <= b || (|b| > 0 && IsSubstring(a, b[1..]))
  }

  /** `a` occurs in `b` starting at index `i`. */
  predicate OccursAt(a: string, b: string, i: int)
  {
    0 <= i <= |b| - |a| && b[i..i + |a|] == a
  }

  /** A str is `in` another exactly when it occurs in it at some position. */
  lemma {:induction false} IsSubstringSlice(a: string, b: string)
    ensures IsSubstring(a, b) <==> exists i :: OccursAt(a, b, i)
    decreases |b|
  {
    if a <= b {
      assert OccursAt(a, b, 0);
    } else {
      if |b| > 0 {
        IsSubstringSlice(a, b[1..]);
        if IsSubstring(a, b[1..]) {
          var i :| OccursAt(a, b[1..], i);
          assert b[i + 1..i + 1 + |a|] == b[1..][i..i + |a|];
          assert OccursAt(a, b, i + 1);
        }
      }
      if exists i :: OccursAt(a, b, i) {
        var i :| OccursAt(a, b, i);
        if i == 0 {
          assert false;
        }
        assert b[1..][i - 1..i - 1 + |a|] == b[i..i + |a|];
        assert OccursAt(a, b[1..], i - 1);
      }
    }
  }

  /** `needle in container` for a str needle; None when Python raises a TypeError. */
  function Contains(container: PyVal, needle: string): (r: Option<bool>)
    ensures r.Some? <==> container.PStr? || container.PList?
    ensures container.PStr? ==>
              (r == Some(true) <==> exists i :: OccursAt(needle, container.s, i))
    ensures container.PList? ==>
              (r == Some(true) <==> exists k :: 0 <= k < |container.items| && container.items[k] == PStr(needle))
  {
    match container
    case PStr(s) => IsSubstringSlice(needle, s); Some(IsSubstring(needle, s))
    case PList(items) => Some(PStr(needle) in items)
    case _ => None
  }

  /** `a < n` for an int n; None when Python raises a TypeError. */
  function LessThan(a: PyVal, n: int): (r: Option<bool>)
    ensures r.Some? <==> AsInt(a).Some?
    ensures r.Some? ==> (r.value <==> AsInt(a).value < n)
  {
    match AsInt(a)
    case Some(x) => Some(x < n)
    case None => None
  }

  /** `a > n` for an int n; None when Python raises a TypeError. */
  function GreaterThan(a: PyVal, n: int): (r: Option<bool>)
    ensures r.Some? <==> AsInt(a).Some?
    ensures r.Some? ==> (r.value <==> AsInt(a).value > n)
  {
    match AsInt(a)
    case Some(x) => Some(x > n)
    case None => None
  }
}
