# php-complex-number, modelled in Dafny

A model of the exact-arithmetic core of the PHP library `Math\Complex`:

- `MathComplex` (complex.dfy), the value type of `src/Complex.php`:
  - the constructor normalises an input array to the entries `real` and `imaginary`;
  - the factory `Complex::new` picks components through chains of short ternaries `?:`;
  - the accessors `getReal`, `getImaginary` and `getIm`;
  - the array view `asArray`.
- `ComplexUtils` (complex_utils.dfy), the algebraic functions of `src/Complex/Utils.php`:
  - `abs2`, `conjugate`, `negative`, `areEqual`, `add`, `sub`, `mult` and `div`;
  - `multReal` and `multIm`;
  - `inverse`, the Smith-style principal `sqrt` and `sqrtReal`.
- `ComplexOperation` (complex_operation.dfy), the argument heap `Math\Complex\Operation` of `src/Complex/Operation.php`. It is a class whose field `heap` is the stored array:
  - `fetch` pops the head;
  - `fetchAll` drains the heap;
  - `__call` completes its arguments from the front of a copy of the heap, invokes the function and pushes the result back on the front.
- `Wrappers` (wrappers.dfy) holds `Option` and `Result`.

Modelling conventions:

- Floats are exact reals.
- A PHP scalar is `Value` (null, boolean or number).
- An argument of `new` is `Arg` (a scalar, an array or a `Complex` object).
- `abs2` and `abs` return a float and `areEqual` a boolean. The other Utils functions modelled here build their result with `complex($r, $i)`, and `sub` returns what `add` builds. `complex($r, $i)` is `Complex::new($r, $i)` on two numbers, and `MathComplex.NewOfNumbers` proves this is `Complex(r, i)`.
- Thrown errors are `Result.Failure` values.
- PHP's `\sqrt` is libm's. The functions that need it take it as a parameter `rt`. The predicate `ComplexUtils.IsSqrt(rt)` says `rt` is the exact non-negative square root. Every lemma about `sqrt`, `sqrtReal` and `inverse` holds for every such `rt`.

## Model

| member | source | states |
|---|---|---|
| MathComplex.FloatVal | src/Complex.php:39 | PHP's `floatval` on null, booleans and numbers; no ensures, see FalsyIffFloatZero and Stored |
| MathComplex.Truthy | src/Complex.php:60-62 | what the short ternary `?:` tests; no ensures, see FalsyIffFloatZero and ChainIsFirstTruthy |
| MathComplex.Chain | src/Complex.php:60-62 | the right-nested chain of `?:`; no ensures, see ChainIsFirstTruthy |
| MathComplex.Storage | src/Complex.php:137 | the stored array that `getArrayCopy` returns; no ensures, see Construct and AsArrayExtendsStorage |
| MathComplex.Get | src/Complex.php:60-62 | reading an array entry under `@`, where an undefined index reads as null; no ensures, see Stored and SelectReal |
| MathComplex.Elvis | src/Complex.php:60-62 | one short ternary `a ?: b`; no ensures, see ChainIsFirstTruthy |
| MathComplex.At | src/Complex.php:60-62 | `$_[k]` on the first argument under `@`, where a scalar's offsets read as null; no ensures, see SelectImag |
| MathComplex.RealCandidates | src/Complex.php:60 | the candidates `real`, `r`, `[0]` in chain order; no ensures, see SelectReal |
| MathComplex.ImagCandidates | src/Complex.php:62 | the candidates `imaginary`, `im`, `i`, `[1]` in chain order; no ensures, see SelectImag |
| MathComplex.MergeNamed | src/Complex.php:39 | the string-keyed part of `array_merge`, where later entries override; no ensures, see Stored |
| MathComplex.IntersectKey | src/Complex.php:39 | `array_intersect_key` with a key set; no ensures, see Stored and StoredIgnoresOtherKeys |
| MathComplex.MapFloatVal | src/Complex.php:39 | `floatval` applied to every entry; no ensures, see Stored |
| MathComplex.ArrayUnion | src/Complex.php:138 | the array `+`, where the left operand wins on shared keys; no ensures, see AsArray |
| MathComplex.FalsyIffFloatZero | src/Complex.php:39 | a scalar is falsy for `?:` exactly when `floatval` makes it 0 |
| MathComplex.ChainIsFirstTruthy | src/Complex.php:60-62 | a chain of `?:` yields its first truthy candidate, or the fallback when every candidate is falsy |
| MathComplex.Stored | src/Complex.php:25 | the constructor's stored array has exactly the keys `real` and `imaginary`, each the `floatval` of the input entry (0 when missing or null) |
| MathComplex.StoredIgnoresOtherKeys | src/Complex.php:39 | input keys other than `real` and `imaginary` do not change the stored array |
| MathComplex.Construct | src/Complex.php:38-41 | the constructed value's storage is the normalised input |
| MathComplex.ConstructDefault | src/Complex.php:38 | the default argument `BaseArray` gives 0 + 0i |
| MathComplex.AsArray | src/Complex.php:134-139 | `asArray(false)` has only the named entries; `asArray(true)` adds index 0 for real and index 1 for imaginary |
| MathComplex.AsArrayExtendsStorage | src/Complex.php:137-138 | the indexed view keeps every stored entry and adds exactly the two positions |
| MathComplex.GetReal | src/Complex.php:157-161 | `getReal` is the stored `real` entry |
| MathComplex.GetImaginary | src/Complex.php:169-171 | `getImaginary` is the stored `imaginary` entry |
| MathComplex.GetIm | src/Complex.php:179-181 | `getIm` is the stored `imaginary` entry, the same value `getImaginary` returns |
| MathComplex.SelectReal | src/Complex.php:60 | a scalar first argument is the real part; from an array it is the first truthy of `real`, `r`, `[0]`, else null |
| MathComplex.SelectImag | src/Complex.php:62 | the imaginary part is the first truthy of `imaginary`, `im`, `i`, `[1]`, else the second argument; for a scalar first argument it is the second argument |
| MathComplex.New | src/Complex.php:50-64 | a `Complex` argument comes back unchanged; otherwise the result is the `floatval` of the selected components |
| MathComplex.NewOfNumbers | src/Complex.php:50-63 | `new(r, i)` on two numbers is r + i*i; with `i` omitted it is r + 0i |
| MathComplex.NewAsArrayRoundTrip | src/Complex.php:60-63 | feeding `asArray()` back to `new` rebuilds the same number, with or without indexes, zero components included |
| MathComplex.NewZeroFallsThrough | src/Complex.php:60 | a falsy `real` entry falls through to `r` |
| ComplexUtils.RootOf | src/Complex/Utils.php:26 | `rt(x)` is a non-negative number whose square is x, the exact stand-in for `\sqrt`; no ensures, see Root and IsSqrt |
| ComplexUtils.IsSqrt | src/Complex/Utils.php:84-87 | `rt` is the exact square root on every non-negative argument, as used at lines 26, 84, 87, 110 and 114; no ensures, see SqrtUnique and SqrtZeroIff |
| ComplexUtils.Root | src/Complex/Utils.php:26 | under `IsSqrt`, at each non-negative x, `rt(x)` is non-negative and squares to x |
| ComplexUtils.SqrtUnique | src/Complex/Utils.php:26 | under `IsSqrt` the square root is determined: any non-negative u with u^2 = x is `rt(x)` |
| ComplexUtils.SqrtZeroIff | src/Complex/Utils.php:26 | under `IsSqrt` the square root is 0 exactly at 0 |
| ComplexUtils.RealAbs | src/Complex/Utils.php:77-78 | `\abs` is non-negative and equals x or -x |
| ComplexUtils.Abs2 | src/Complex/Utils.php:14-16 | `abs2` is never negative and is 0 exactly at 0 + 0i |
| ComplexUtils.Abs | src/Complex/Utils.php:25-27 | `abs`, the square root of `abs2`; no ensures, see AbsSquared |
| ComplexUtils.AbsSquared | src/Complex/Utils.php:25-27 | `abs` is a non-negative square root of `abs2`, 0 exactly at 0 + 0i |
| ComplexUtils.Conjugate | src/Complex/Utils.php:167-169 | `conjugate`; no ensures, see ConjugateProperties |
| ComplexUtils.Negative | src/Complex/Utils.php:178-180 | `negative`; no ensures, see NegativeProperties |
| ComplexUtils.ConjugateProperties | src/Complex/Utils.php:167-169 | conjugation is an involution, keeps `abs2`, and z times its conjugate is abs2(z) + 0i |
| ComplexUtils.NegativeProperties | src/Complex/Utils.php:178-180 | negation is an involution, the additive inverse, and keeps `abs2` |
| ComplexUtils.AreEqual | src/Complex/Utils.php:625-627 | `areEqual` holds exactly when both components are equal |
| ComplexUtils.Add | src/Complex/Utils.php:637-639 | `add`; no ensures, see AddLaws and SubLaws |
| ComplexUtils.Sub | src/Complex/Utils.php:649-651 | `sub` as `add(a, negative(b))`; no ensures, see SubLaws |
| ComplexUtils.Mult | src/Complex/Utils.php:661-665 | `mult`; no ensures, see MultLaws, NoZeroDivisors and ScalarMultIsMult |
| ComplexUtils.AddLaws | src/Complex/Utils.php:637-639 | `add` is commutative and associative with identity 0 + 0i |
| ComplexUtils.SubLaws | src/Complex/Utils.php:649-651 | `sub` undoes `add` and back, and sub(a, a) is 0 + 0i |
| ComplexUtils.MultLaws | src/Complex/Utils.php:661-665 | `mult` is commutative and associative with identity 1 + 0i, and distributes over `add` |
| ComplexUtils.NoZeroDivisors | src/Complex/Utils.php:661-665 | a `mult` product is 0 + 0i only when a factor is |
| ComplexUtils.MultReal | src/Complex/Utils.php:739-743 | `multReal`; no ensures, see ScalarMultIsMult |
| ComplexUtils.MultIm | src/Complex/Utils.php:754-758 | `multIm`; no ensures, see ScalarMultIsMult |
| ComplexUtils.ScalarMultIsMult | src/Complex/Utils.php:739-758 | multReal(z, r) is mult(z, r + 0i) and multIm(z, r) is mult(z, 0 + r*i) |
| ComplexUtils.Div | src/Complex/Utils.php:675-688 | `div` throws DivisionByZero exactly when c^2 + d^2 is 0, i.e. the divisor is 0 + 0i, and never otherwise |
| ComplexUtils.DivThenMult | src/Complex/Utils.php:675-688 | for a nonzero divisor b, mult(div(a, b), b) is a |
| ComplexUtils.MultThenDiv | src/Complex/Utils.php:675-688 | for a nonzero b, div(mult(a, b), b) succeeds with a |
| ComplexUtils.Inverse | src/Complex/Utils.php:190-199 | `inverse`; no ensures, see InverseFailsIffZero, InverseIsMultInverse and DivIsMultByInverse |
| ComplexUtils.InverseFailsIffZero | src/Complex/Utils.php:190-194 | `inverse` throws DivisionByZero exactly when z is 0 + 0i |
| ComplexUtils.InverseIsMultInverse | src/Complex/Utils.php:190-199 | for nonzero z, mult(z, inverse(z)) is 1 + 0i |
| ComplexUtils.DivIsMultByInverse | src/Complex/Utils.php:190-199 | div(a, b) is mult(a, inverse(b)) for every nonzero b |
| ComplexUtils.Scale | src/Complex/Utils.php:82-88 | each branch's scale w = sqrt(b) * sqrt((lead + sqrt(1 + t^2)) / 2) is positive |
| ComplexUtils.SmithScale | src/Complex/Utils.php:81-89 | away from 0 + 0i the scale w is positive, so the divisions by 2w are defined |
| ComplexUtils.ScaledMagnitude | src/Complex/Utils.php:84-88 | factoring out the larger part: b * sqrt(1 + t^2) is sqrt(b^2 + s^2) when t = s / b |
| ComplexUtils.ScaleSquared | src/Complex/Utils.php:84-87 | the square of a branch's scale is b * (lead + sqrt(1 + t^2)) / 2 |
| ComplexUtils.WideScaleSquared | src/Complex/Utils.php:83-84 | when abs(re) >= abs(im), w^2 is (x + abs(z)) / 2 |
| ComplexUtils.TallScaleSquared | src/Complex/Utils.php:86-87 | when abs(re) < abs(im), w^2 is (x + abs(z)) / 2 as well |
| ComplexUtils.SmithScaleSquared | src/Complex/Utils.php:82-88 | both branches give w^2 = (abs(re) + abs(z)) / 2 |
| ComplexUtils.Sqrt | src/Complex/Utils.php:76-99 | sqrt(0 + 0i) is 0 + 0i; the real part is never negative; the imaginary part is non-negative exactly when the input's is |
| ComplexUtils.HalfAngle | src/Complex/Utils.php:90-96 | when w^2 = (re + m) / 2 and m^2 = re^2 + im^2, w + i*(im / 2w) squares to re + i*im |
| ComplexUtils.SquareOfRealBranch | src/Complex/Utils.php:90-92 | the re >= 0 branch w + i*(im / 2w) squares back to z |
| ComplexUtils.SquareOfImaginaryBranch | src/Complex/Utils.php:93-96 | the re < 0 branch (im / 2i) + i*i with i = w or -w squares back to z |
| ComplexUtils.ScaleFacts | src/Complex/Utils.php:77-88 | away from 0 + 0i, abs(z)^2 = re^2 + im^2 and w^2 = (abs(re) + abs(z)) / 2 |
| ComplexUtils.SqrtSquaredRealBranch | src/Complex/Utils.php:90-92 | for re >= 0, mult(sqrt(z), sqrt(z)) is z |
| ComplexUtils.SqrtSquaredImaginaryBranch | src/Complex/Utils.php:93-96 | for re < 0, mult(sqrt(z), sqrt(z)) is z |
| ComplexUtils.SqrtSquared | src/Complex/Utils.php:76-99 | mult(sqrt(z), sqrt(z)) is z for every z |
| ComplexUtils.SqrtIsPrincipal | src/Complex/Utils.php:90-96 | the result has positive real part, or real part 0 and non-negative imaginary part |
| ComplexUtils.PrincipalRootsAgree | src/Complex/Utils.php:76-99 | two principal numbers with the same square are equal |
| ComplexUtils.SqrtIsTheRoot | src/Complex/Utils.php:76-99 | every principal w with w * w = z is sqrt(z) |
| ComplexUtils.SqrtReal | src/Complex/Utils.php:108-117 | `sqrtReal(x)` has imaginary part 0 for x >= 0 and real part 0 for x < 0 |
| ComplexUtils.SqrtRealIsSqrt | src/Complex/Utils.php:108-117 | sqrtReal(x) squares to x + 0i and equals sqrt(x + 0i) |
| ComplexOperation.Instances | src/Complex/Operation.php:61 | Complex values passed as arguments, one for one and in order |
| ComplexOperation.Nulls | src/Complex/Operation.php:61 | `array_shift` on an empty copy supplies null arguments |
| ComplexOperation.Missing | src/Complex/Operation.php:60 | the loop runs arity - given times when that is positive, else not at all |
| ComplexOperation.Pulled | src/Complex/Operation.php:60-62 | k rounds append the heap's elements in order, then nulls past its end |
| ComplexOperation.Drop | src/Complex/Operation.php:58-62 | after k shifts the copy holds the heap's elements from position k on, or nothing |
| ComplexOperation.PulledIsPrefix | src/Complex/Operation.php:56-62 | the pulled arguments are exactly the heap's first k elements, padded with nulls when the heap is shorter |
| ComplexOperation.CallResult | src/Complex/Operation.php:53-71 | the new heap or the thrown error of `__call`; no ensures, see CallFailures, CallConsumesPrefix, CallWithAllArguments, CallOnShortHeap and Operation.Call |
| ComplexOperation.CallFailures | src/Complex/Operation.php:53-66 | a call fails exactly when the lookup fails or the target throws; each `\Exception` becomes a RuntimeException, each `\Error` propagates unchanged |
| ComplexOperation.CallConsumesPrefix | src/Complex/Operation.php:56-71 | when the heap holds enough elements the target gets the explicit arguments then the first k elements, and the heap becomes [new(result)] + the rest, of length old - k + 1 |
| ComplexOperation.CallWithAllArguments | src/Complex/Operation.php:60-71 | when arity <= given nothing is taken and the result is pushed on the whole heap |
| ComplexOperation.CallOnShortHeap | src/Complex/Operation.php:60-71 | when the heap is too short the target gets nulls for the rest, and the heap ends up holding only the result |
| ComplexOperation.CallPushesComplexResult | src/Complex/Operation.php:68 | a result that is already a Complex is pushed as it is |
| ComplexOperation.CallAfterPulling | src/Complex/Operation.php:63-71 | once the arguments are pulled, the target's outcome alone decides the new heap or the thrown error |
| ComplexOperation.PullArguments | src/Complex/Operation.php:57-62 | the loop produces the explicit arguments followed by `Pulled`, and leaves `Drop` of the copy |
| ComplexOperation.Operation.constructor | src/Complex/Operation.php:33-35 | the heap holds the given values in argument order |
| ComplexOperation.Operation.Fetch | src/Complex/Operation.php:95-100 | returns the head and leaves the rest in order; on an empty heap returns null and leaves it empty |
| ComplexOperation.Operation.FetchAsArray | src/Complex/Operation.php:95-100 | `fetch(true)` is the head's `asArray()`; on an empty heap the call on null throws an Error |
| ComplexOperation.Operation.FetchAll | src/Complex/Operation.php:108-112 | returns every element in order and leaves the heap empty |
| ComplexOperation.Operation.Call | src/Complex/Operation.php:53-72 | on success the heap becomes the `CallResult` heap and the call returns the same object; on failure it throws that error and the heap is unchanged |

## Left out

- The transcendental functions of `src/Complex/Utils.php` (`norm`, `arg`/`angle`, `exp`, `log`, `log10`, the trigonometric, hyperbolic and inverse functions, `pow`, `powReal`, `logBase`): they are floating-point numerics over `atan2`, `exp`, `log`, `sin`, `cosh` and similar libm functions. This also leaves out their defects: `norm` passes an object to `\abs`, `atanh` reads an undefined `$a`, and `cos` has a non-standard sign on its imaginary part.
- `abs` is modelled only as `sqrt(abs2)` with an exact square root, as `inverse` uses it.
- ComplexUtils.IsSqrt: libm's `\sqrt` is a parameter `rt`. The lemmas hold for every exact non-negative square root; rounding is not modelled.
- IEEE-754 behaviour: rounding, NaN, infinities and overflow are out. Every property is over exact reals. Under floats, for example, `DivThenMult` holds only approximately.
- String rendering (`asString`, `toString`, `__toString`, `StringPattern`) is out because it is `sprintf` formatting. `asObject` is out because it is a cast to `stdClass`.
- `createFromFloat` is out: it is an alias of `new`.
- `createFromPolar` is out: it needs `cos`/`sin`.
- `createFromString` is out: it is unimplemented. It passes `call_user_func_array` only one argument, so it fails before `new` is reached, and `new` requires its first argument anyway.
- MathComplex.New: a first argument that is an object other than `Complex` (the `(array)` cast path) is not modelled. Strings, nested arrays and other non-numeric PHP values are not modelled as components, because `floatval` string parsing is out.
- MathComplex.New: for a `Complex` argument, PHP returns the same object. The model returns an equal value, since values have no identity.
- MathComplex.MergeNamed: integer keys of the input are renumbered by `array_merge`. They are dropped here because the constructor's intersection with `BaseArray` removes them anyway.
- `Complex` and `Operation` extend `ArrayObject`, but the inherited `offsetSet`, `append` and the public `exchangeArray` are not modelled. Called from outside, they could change a value's storage or a heap after construction; the library itself never does. The model therefore treats a `Complex` as an immutable value and changes an `Operation`'s heap only through `fetch`, `fetchAll` and `__call`. Calling the `Complex` constructor directly with a non-array `$input` makes `array_merge` throw; this is not modelled either, because `new` always passes an array.
- The constructor's `$flags` argument is out. The model follows the default `ARRAY_AS_PROPS`. `abs2` depends on it: it reads the components as properties (`$param->real`), which reach the stored entries only under that flag. For an object built with other flags, `abs2` reads undefined properties as null and returns 0, while `getReal` still returns the entry.
- ComplexOperation.Operation.Call: the name lookup (`ReflectionFunction` on the namespaced name and `getParameters`) is reflection. It is abstracted as an `Option<Target>`, where a Target is the declared parameter count plus the function's behaviour. None means the lookup threw.
- `Operation::__callStatic` is out: it is name-based dispatch through `is_callable` and `call_user_func_array`.
- `Operation::__invoke` is out: it is an alias of `fetch()`.
- `fetchAll(true)` is out: it maps the name `asArray`, which is not a global function, so PHP fails there. Only `fetchAll()` is modelled.
- ComplexOperation.Operation.Call: keys are renumbered by `array_merge([...], $arr)` in the source. The heap is a sequence here, so the effect is the same.
- `src/Utils.php` (`is_complex`, `complex`) is out: these are one-line forwarders to `instanceof` and `Complex::new`.
- `using_example.php` is out: it is a demo script that only prints values.
- MathComplex.New: PHP stores a decimal-integer string key such as `'0'` as the integer key 0. The model writes such keys as `Index(n)`: a `Name("0")` key is not read as position 0, so `new(['0' => 5])` is 5 + 0i only when the key is written `Index(0)`.
