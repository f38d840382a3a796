/** Shared vocabulary of the delivery backend's routing code: optional values,
    the JSON values that arrive in request bodies, and the JavaScript notions
    of "truthy" and "a [lat, lng] pair of numbers" that the handlers test. */
module Common {

  datatype Option<+T> = None | Some(value: T) {
    function GetOr(default: T): T {
      match this
      case Some(v) => v
      case None => default
    }
  }

  /** The outcome of a step that can fail (an error response or a thrown `Error`). */
  datatype Result<+T> = Ok(value: T) | Err(message: string)

  /** A value of a request or response body. `Undefined` stands for a field
      that is absent; JSON cannot carry NaN or infinities, so a number is a real. */
  datatype Value =
    | Undefined
    | Null
    | Bool(b: bool)
    | Num(n: real)
    | Str(s: string)
    | Arr(items: seq<Value>)
    | Obj(fields: map<string, Value>)

  /** JavaScript's truthiness: `!v` is false exactly for these values. */
  predicate Truthy(v: Value) {
    match v
    case Undefined => false
    case Null => false
    case Bool(b) => b
    case Num(n) => n != 0.0
    case Str(s) => s != ""
    case Arr(_) => true
    case Obj(_) => true
  }

  /** `Array.isArray(v) && v.length === 2`. */
  predicate IsPair(v: Value) {
    v.Arr? && |v.items| == 2
  }

  /** A pair whose two entries are numbers: `typeof v[0] === 'number' && typeof v[1] === 'number'`. */
  predicate IsNumberPair(v: Value) {
    IsPair(v) && v.items[0].Num? && v.items[1].Num?
  }

  /** A map coordinate as the handlers build it: `[lat, lng]`. */
  datatype Coord = Coord(lat: Value, lng: Value)

  /** The coordinate a two-element array denotes. */
  function PairCoord(v: Value): (c: Coord)
    requires IsPair(v)
    ensures Arr([c.lat, c.lng]) == v
  {
    Coord(v.items[0], v.items[1])
  }

  /** A request field that is either `undefined`/`null`, present with the wrong
      type, or present with the expected type. */
  datatype Field<+T> = Nullish | Mistyped | Given(value: T)

  function DigitChar(d: nat): char
    requires d < 10
  {
    ('0' as int + d) as char
  }

  /** The decimal digits of `n`, as a template literal writes a number. */
  function Decimal(n: nat): (s: string)
    ensures |s| >= 1 && forall i :: 0 <= i < |s| ==> '0' <= s[i] <= '9'
    decreases n
  {
    if n < 10 then [DigitChar(n)] else Decimal(n / 10) + [DigitChar(n % 10)]
  }

  /** The outputs of `f` for the elements of `s`, concatenated in order (a
      `for` loop that pushes zero or more items per element). */
  function Collect<A, B>(s: seq<A>, f: A -> seq<B>): seq<B>
    decreases |s|
  {
    if s == [] then [] else Collect(s[..|s| - 1], f) + f(s[|s| - 1])
  }

  lemma {:induction false} CollectAppend<A, B>(a: seq<A>, b: seq<A>, f: A -> seq<B>)
    ensures Collect(a + b, f) == Collect(a, f) + Collect(b, f)
    decreases |b|
  {
    if b == [] {
      assert a + b == a;
    } else {
      assert (a + b)[..|a + b| - 1] == a + b[..|b| - 1];
      assert (a + b)[|a + b| - 1] == b[|b| - 1];
      CollectAppend(a, b[..|b| - 1], f);
    }
  }

  /** `Collect` is empty exactly when every element contributes nothing. */
  lemma {:induction false} CollectEmpty<A, B>(s: seq<A>, f: A -> seq<B>)
    ensures Collect(s, f) == [] <==> forall i :: 0 <= i < |s| ==> f(s[i]) == []
    decreases |s|
  {
    if s != [] {
      var n := |s| - 1;
      CollectEmpty(s[..n], f);
      assert forall i :: 0 <= i < n ==> s[..n][i] == s[i];
    }
  }

  /** `v[key]` for a property that is not built in: `None` when `v` is
      `undefined` or `null` (reading it throws), `undefined` when it is absent. */
  function Member(v: Value, key: string): (r: Option<Value>)
    ensures r.None? <==> v.Undefined? || v.Null?
  {
    match v
    case Undefined => None
    case Null => None
    case Obj(fields) => Some(if key in fields then fields[key] else Undefined)
    case _ => Some(Undefined)
  }

  /** The `TypeError` message for reading `key` of `undefined` or `null`. */
  function ReadError(v: Value, key: string): string {
    "Cannot read properties of " + (if v.Null? then "null" else "undefined") + " (reading '" + key + "')"
  }

  /** `s.includes(t)` on strings: `t` occurs in `s` as a contiguous block. */
  predicate Includes(s: string, t: string)
    decreases |s|
  {
    t <= s || (s != [] && Includes(s[1..], t))
  }

  /** A string includes any block written inside it. */
  lemma {:induction false} IncludesMiddle(a: string, t: string, b: string)
    ensures Includes(a + t + b, t)
    decreases |a|
  {
    if a == [] {
      assert a + t + b == t + b;
    } else {
      assert (a + t + b)[1..] == a[1..] + t + b;
      IncludesMiddle(a[1..], t, b);
    }
  }

  /** `x || 0` for an optional number: a missing or zero value reads as 0. */
  function OrZero(x: Option<real>): real {
    x.GetOr(0.0)
  }

  /** Sum of a sequence of reals, added left to right as `reduce`/`forEach` do. */
  function Sum(s: seq<real>): real {
    if s == [] then 0.0 else Sum(s[..|s| - 1]) + s[|s| - 1]
  }

  lemma {:induction false} SumAppend(a: seq<real>, b: seq<real>)
    ensures Sum(a + b) == Sum(a) + Sum(b)
    decreases |b|
  {
    if b == [] {
      assert a + b == a;
    } else {
      assert (a + b)[..|a + b| - 1] == a + b[..|b| - 1];
      SumAppend(a, b[..|b| - 1]);
    }
  }

  lemma SumCons(x: real, s: seq<real>)
    ensures Sum([x] + s) == x + Sum(s)
  {
    SumAppend([x], s);
    assert [x][..0] == [];
  }

  lemma {:induction false} SumNonNegative(s: seq<real>)
    requires forall i :: 0 <= i < |s| ==> s[i] >= 0.0
    ensures Sum(s) >= 0.0
    decreases |s|
  {
    if s != [] {
      SumNonNegative(s[..|s| - 1]);
    }
  }
}
