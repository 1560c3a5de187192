/**
 * The complex value type of src/Complex.php: construction from a PHP array,
 * the `Complex::new` factory with its `?:` fallback chains, the accessors and
 * the array views.
 *
 * A `Math\Complex` object is an ArrayObject whose storage holds exactly the
 * entries `real` and `imaginary`. The model keeps the two components in a
 * datatype and gives the storage back as the map `Storage(c)`; `Construct`
 * ties the datatype to the map that the PHP constructor computes.
 */
module MathComplex {

  /**
   * A PHP array key: a string key or an integer key. PHP stores a decimal
   * integer string key such as "0" as the integer key; such keys are written
   * here as `Index(n)`.
   */
  datatype Key = Name(name: string) | Index(index: int)

  /** The PHP scalars a component can be given: null, a boolean, or a number (int or float). */
  datatype Value = Null | Bool(b: bool) | Num(x: real)

  /** A complex number a + b*i. */
  datatype Complex = Complex(re: real, im: real)

  /** An argument of `Complex::new`: a scalar, an array, or a `Complex` object. */
  datatype Arg = Scalar(v: Value) | PhpArray(entries: map<Key, Value>) | Instance(c: Complex)

  const RealKey: Key := Name("real")
  const ImagKey: Key := Name("imaginary")
  /** The keys of `BaseArray`. */
  const BaseKeys: set<Key> := {Name("real"), Name("imaginary")}

  /** `Complex::BaseArray`: both entries present and null. */
  const BaseArray: map<Key, Value> := map[Name("real") := Null, Name("imaginary") := Null]

  const Zero: Complex := Complex(0.0, 0.0)

  // ---------------------------------------------------------------------------
  // PHP value semantics used by the constructor and the factory

  /** PHP's `floatval`. */
  function FloatVal(v: Value): real
  {
    match v
    case Null => 0.0
    case Bool(b) => if b then 1.0 else 0.0
    case Num(x) => x
  }

  /** PHP truthiness, as the short ternary `?:` tests it. */
  predicate Truthy(v: Value)
  {
    match v
    case Null => false
    case Bool(b) => b
    case Num(x) => x != 0.0
  }

  /** A scalar is falsy exactly when `floatval` turns it into 0. */
  lemma FalsyIffFloatZero(v: Value)
    ensures !Truthy(v) <==> FloatVal(v) == 0.0
  {
  }

  /** Reading `$a[$k]` under `@`: an undefined index reads as null. */
  function Get(a: map<Key, Value>, k: Key): Value
  {
    if k in a then a[k] else Null
  }

  /** The short ternary `a ?: b`. */
  function Elvis(a: Value, b: Value): Value
  {
    if Truthy(a) then a else b
  }

  /**
   * `v` is what a chain `c0 ?: c1 ?: ... ?: fallback` yields: the first truthy
   * candidate, or the fallback when every candidate is falsy.
   */
  ghost predicate IsFirstTruthy(cands: seq<Value>, fallback: Value, v: Value)
  {
    && (forall j :: 0 <= j < |cands| && Truthy(cands[j]) && (forall i :: 0 <= i < j ==> !Truthy(cands[i]))
          ==> v == cands[j])
    && ((forall i :: 0 <= i < |cands| ==> !Truthy(cands[i])) ==> v == fallback)
  }

  /** `c0 ?: (c1 ?: (... ?: fallback))`: the right-nested chain of short ternaries. */
  function Chain(cands: seq<Value>, fallback: Value): Value
    decreases |cands|
  {
    if cands == [] then fallback else Elvis(cands[0], Chain(cands[1..], fallback))
  }

  /** A chain of `?:` yields its first truthy candidate, or the fallback when there is none. */
  lemma {:induction false} ChainIsFirstTruthy(cands: seq<Value>, fallback: Value)
    ensures IsFirstTruthy(cands, fallback, Chain(cands, fallback))
    decreases |cands|
  {
    if cands != [] {
      var tail := cands[1..];
      ChainIsFirstTruthy(tail, fallback);
      forall j | 0 <= j < |cands| && Truthy(cands[j]) && (forall i :: 0 <= i < j ==> !Truthy(cands[i]))
        ensures Chain(cands, fallback) == cands[j]
      {
        if j > 0 {
          assert !Truthy(cands[0]);
          assert tail[j - 1] == cands[j];
          forall i | 0 <= i < j - 1
            ensures !Truthy(tail[i])
          {
            assert tail[i] == cands[i + 1];
          }
        }
      }
      if forall i :: 0 <= i < |cands| ==> !Truthy(cands[i]) {
        assert !Truthy(cands[0]);
        forall i | 0 <= i < |tail|
          ensures !Truthy(tail[i])
        {
          assert tail[i] == cands[i + 1];
        }
      }
    }
  }

  // ---------------------------------------------------------------------------
  // The constructor: floatval of every entry of the merge of BaseArray with the
  // input, cut down to the keys of BaseArray

  /**
   * The string-keyed part of `array_merge(base, input)`: entries of `input`
   * override those of `base`. Integer keys are renumbered by PHP; the
   * constructor intersects the merge with `BaseArray` at once, which has no
   * integer keys, so they never reach the stored array and are not kept here.
   */
  function MergeNamed(base: map<Key, Value>, input: map<Key, Value>): map<Key, Value>
  {
    base + map k | k in input && k.Name? :: input[k]
  }

  /** `array_intersect_key(m, keys)`. */
  function IntersectKey<V>(m: map<Key, V>, keys: set<Key>): map<Key, V>
  {
    map k | k in m && k in keys :: m[k]
  }

  /** `floatval` applied to every entry, as `array_map` does. */
  function MapFloatVal(m: map<Key, Value>): map<Key, real>
  {
    map k | k in m :: FloatVal(m[k])
  }

  /**
   * The array the constructor stores for `$input`: exactly the keys `real`
   * and `imaginary`, each the `floatval` of the input's entry, 0 when the
   * entry is missing or null.
   */
  function Stored(input: map<Key, Value>): (s: map<Key, real>)
    ensures s.Keys == BaseKeys
    ensures s[RealKey] == FloatVal(Get(input, RealKey))
    ensures s[ImagKey] == FloatVal(Get(input, ImagKey))
  {
    MapFloatVal(IntersectKey(MergeNamed(BaseArray, input), BaseKeys))
  }

  /** Keys other than `real` and `imaginary` do not influence the stored array. */
  lemma StoredIgnoresOtherKeys(input: map<Key, Value>, extra: map<Key, Value>)
    requires extra.Keys !! BaseKeys
    ensures Stored(input + extra) == Stored(input)
  {
    assert Get(input + extra, RealKey) == Get(input, RealKey);
    assert Get(input + extra, ImagKey) == Get(input, ImagKey);
  }

  /** `new Complex($input)`: the value whose storage is the normalised input. */
  function Construct(input: map<Key, Value>): (c: Complex)
    ensures Storage(c) == Stored(input)
  {
    var s := Stored(input);
    Complex(s[RealKey], s[ImagKey])
  }

  /** The constructor's default argument `BaseArray` gives 0 + 0i. */
  lemma ConstructDefault()
    ensures Construct(BaseArray) == Zero
  {
  }

  // ---------------------------------------------------------------------------
  // Views and accessors

  /** PHP's `a + b` on arrays: on a key present in both, the left operand wins. */
  function ArrayUnion<V>(a: map<Key, V>, b: map<Key, V>): map<Key, V>
  {
    b + a
  }

  /**
   * `asArray($withIndexes)`: the stored entries, and with indexes also
   * `array_values` of them (0 for `real`, 1 for `imaginary`, the stored order).
   */
  function AsArray(c: Complex, withIndexes: bool): (m: map<Key, real>)
    ensures m.Keys == if withIndexes then BaseKeys + {Index(0), Index(1)} else BaseKeys
    ensures m[RealKey] == c.re && m[ImagKey] == c.im
    ensures withIndexes ==> m[Index(0)] == m[RealKey] && m[Index(1)] == m[ImagKey]
  {
    var named := map[RealKey := c.re, ImagKey := c.im];
    if withIndexes then ArrayUnion(named, map[Index(0) := c.re, Index(1) := c.im]) else named
  }

  /** The ArrayObject storage of a `Complex` (its `getArrayCopy()`). */
  function Storage(c: Complex): map<Key, real>
  {
    AsArray(c, false)
  }

  /** The indexed view extends the plain one and adds only the two positions. */
  lemma AsArrayExtendsStorage(c: Complex)
    ensures forall k :: k in Storage(c) ==> k in AsArray(c, true) && AsArray(c, true)[k] == Storage(c)[k]
    ensures AsArray(c, true).Keys - Storage(c).Keys == {Index(0), Index(1)}
  {
  }

  /** `getReal()`: the stored `real` entry. */
  function GetReal(c: Complex): (r: real)
    ensures r == Storage(c)[RealKey]
  {
    c.re
  }

  /** `getImaginary()`: the stored `imaginary` entry. */
  function GetImaginary(c: Complex): (r: real)
    ensures r == Storage(c)[ImagKey]
  {
    c.im
  }

  /** `getIm()`: an alias of `getImaginary()`. */
  function GetIm(c: Complex): (r: real)
    ensures r == Storage(c)[ImagKey]
    ensures r == GetImaginary(c)
  {
    GetImaginary(c)
  }

  // ---------------------------------------------------------------------------
  // The factory Complex::new($real, $im = null)

  /**
   * `$_[k]` where `$_` is the first argument, under `@`: indexing a scalar
   * (or an undefined index) reads as null.
   */
  function At(first: Arg, k: Key): Value
  {
    if first.PhpArray? then Get(first.entries, k) else Null
  }

  function RealCandidates(a: map<Key, Value>): seq<Value>
  {
    [Get(a, Name("real")), Get(a, Name("r")), Get(a, Index(0))]
  }

  function ImagCandidates(first: Arg): seq<Value>
  {
    [At(first, Name("imaginary")), At(first, Name("im")), At(first, Name("i")), At(first, Index(1))]
  }

  /**
   * The real component `new` selects: the scalar itself, or from an array
   * `'real' ?: 'r' ?: [0] ?: null`.
   */
  function SelectReal(first: Arg): (v: Value)
    requires !first.Instance?
    ensures first.Scalar? ==> v == first.v
    ensures first.PhpArray? ==> IsFirstTruthy(RealCandidates(first.entries), Null, v)
  {
    if first.PhpArray? then
      ChainIsFirstTruthy(RealCandidates(first.entries), Null);
      Chain(RealCandidates(first.entries), Null)
    else
      first.v
  }

  /**
   * The imaginary component `new` selects:
   * `'imaginary' ?: 'im' ?: 'i' ?: [1] ?: $im`, all candidates null for a scalar.
   */
  function SelectImag(first: Arg, im: Value): (v: Value)
    ensures IsFirstTruthy(ImagCandidates(first), im, v)
    ensures first.Scalar? ==> v == im
  {
    ChainIsFirstTruthy(ImagCandidates(first), im);
    Chain(ImagCandidates(first), im)
  }

  /**
   * `Complex::new($real, $im)`. A `Complex` argument comes back unchanged;
   * otherwise the selected components go through the constructor.
   * The omitted `$im` is `Null`.
   */
  function New(first: Arg, im: Value): (c: Complex)
    ensures first.Instance? ==> c == first.c
    ensures !first.Instance? ==> c == Complex(FloatVal(SelectReal(first)), FloatVal(SelectImag(first, im)))
  {
    if first.Instance? then first.c
    else Construct(map[RealKey := SelectReal(first), ImagKey := SelectImag(first, im)])
  }

  /** `new($r, $i)` with two numbers gives r + i*i, and with `$i` omitted r + 0i. */
  lemma NewOfNumbers(r: real, i: real)
    ensures New(Scalar(Num(r)), Num(i)) == Complex(r, i)
    ensures New(Scalar(Num(r)), Null) == Complex(r, 0.0)
  {
  }

  /** Embedding float entries as PHP values. */
  function Values(m: map<Key, real>): map<Key, Value>
  {
    map k | k in m :: Num(m[k])
  }

  /**
   * Feeding `asArray()` (with or without indexes) back to `new` rebuilds the
   * same number: a zero component falls through its chain and still ends at 0.
   */
  lemma NewAsArrayRoundTrip(c: Complex, withIndexes: bool)
    ensures New(PhpArray(Values(AsArray(c, withIndexes))), Null) == c
  {
    var first := PhpArray(Values(AsArray(c, withIndexes)));
    var a := first.entries;
    assert Get(a, RealKey) == Num(c.re);
    assert Get(a, Name("r")) == Null;
    assert Get(a, ImagKey) == Num(c.im);
    assert Get(a, Name("im")) == Null && Get(a, Name("i")) == Null;
    assert FloatVal(SelectReal(first)) == c.re;
    assert FloatVal(SelectImag(first, Null)) == c.im;
  }

  /** A falsy `real` entry falls through to `r`: `['real' => 0, 'r' => 5]` gives 5. */
  lemma NewZeroFallsThrough()
    ensures New(PhpArray(map[Name("real") := Num(0.0), Name("r") := Num(5.0)]), Null) == Complex(5.0, 0.0)
  {
  }
}
