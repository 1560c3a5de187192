/**
 * src/Complex/Operation.php: an ArrayObject used as a heap of arguments.
 * The stored array is the field `heap`; `exchangeArray` is an assignment to
 * it. `__call` looks a function of the Math\Complex namespace up by name,
 * completes the explicit arguments with elements taken off the front of the
 * heap, invokes the function and puts its result back on the front.
 *
 * The name lookup is reflection and is not modelled: a call receives the
 * looked-up function as `Option<Target>`, None when `new \ReflectionFunction`
 * throws. A Target is the function's declared parameter count and its
 * behaviour, which may return a value or throw.
 */
module ComplexOperation {
  import opened Wrappers
  import opened MathComplex

  /** A thrown PHP object: an `\Exception` (caught by `__call`) or an `\Error` such as TypeError or DivisionByZeroError (not caught). */
  datatype Throwable = Exception(name: string) | Error(name: string)

  /** What invoking a function gives: a value, or a thrown object. */
  datatype Outcome = Returned(value: Arg) | Threw(thrown: Throwable)

  /** A function found by name: how many parameters it declares, and what it does with an argument list. */
  datatype Target = Target(arity: nat, invoke: seq<Arg> -> Outcome)

  /** The RuntimeException `__call` throws for a lookup failure or any caught `\Exception`. */
  const RuntimeError: Throwable := Exception("RuntimeException")

  /** The Error PHP throws when `fetch(true)` calls `asArray()` on the null an empty heap gives. */
  const NullMethodCall: Throwable := Error("Error")

  // ---------------------------------------------------------------------------
  // The heap bookkeeping of `__call`

  /** Complex values as PHP arguments. */
  function Instances(cs: seq<Complex>): (args: seq<Arg>)
    ensures |args| == |cs|
    ensures forall j :: 0 <= j < |cs| ==> args[j] == Instance(cs[j])
  {
    if cs == [] then [] else [Instance(cs[0])] + Instances(cs[1..])
  }

  /** `count` nulls, the arguments a drained heap keeps supplying. */
  function Nulls(count: nat): (args: seq<Arg>)
    ensures |args| == count
    ensures forall j :: 0 <= j < count ==> args[j] == Scalar(Null)
  {
    if count == 0 then [] else Nulls(count - 1) + [Scalar(Null)]
  }

  /**
   * How many times the loop of `__call` runs for a target declaring `arity`
   * parameters and a call with `given` explicit arguments: arity - given
   * when positive, else none.
   */
  function Missing(arity: nat, given: nat): (k: nat)
    ensures k == 0 <==> arity <= given
    ensures 0 < k ==> given + k == arity
  {
    if arity <= given then 0 else arity - given
  }

  /**
   * The arguments `k` rounds of the loop append (each shifts the head off the
   * heap copy and pushes it onto the argument list),
   * in push order: the next heap element while there is one, null after.
   */
  function Pulled(heap: seq<Complex>, k: nat): (p: seq<Arg>)
    ensures |p| == k
    ensures forall j :: 0 <= j < k ==> p[j] == if j < |heap| then Instance(heap[j]) else Scalar(Null)
  {
    if k == 0 then [] else Pulled(heap, k - 1) + [if k - 1 < |heap| then Instance(heap[k - 1]) else Scalar(Null)]
  }

  /** What is left of the heap copy after `k` shifts. */
  function Drop(heap: seq<Complex>, k: nat): (rest: seq<Complex>)
    ensures |rest| == if k <= |heap| then |heap| - k else 0
    ensures |heap| <= k ==> rest == []
    ensures forall j :: 0 <= j < |rest| ==> rest[j] == heap[k + j]
  {
    if k <= |heap| then heap[k..] else []
  }

  /** The pulled arguments are the heap's first k elements, in order, padded with nulls past its end. */
  lemma {:induction false} PulledIsPrefix(heap: seq<Complex>, k: nat)
    ensures k <= |heap| ==> Pulled(heap, k) == Instances(heap[..k])
    ensures |heap| < k ==> Pulled(heap, k) == Instances(heap) + Nulls(k - |heap|)
  {
    var p := Pulled(heap, k);
    if k <= |heap| {
      var q := Instances(heap[..k]);
      assert |p| == |q|;
      forall j | 0 <= j < k
        ensures p[j] == q[j]
      {
        assert heap[..k][j] == heap[j];
      }
    } else {
      var q := Instances(heap) + Nulls(k - |heap|);
      assert |p| == |q|;
      forall j | 0 <= j < k
        ensures p[j] == q[j]
      {
        if j < |heap| {
          assert q[j] == Instances(heap)[j];
        } else {
          assert q[j] == Nulls(k - |heap|)[j - |heap|];
        }
      }
    }
  }

  /**
   * The outcome of `__call` on a heap: the new heap, or what it throws.
   * A failed lookup and any `\Exception` become RuntimeError; an `\Error`
   * passes through unchanged.
   */
  function CallResult(heap: seq<Complex>, arguments: seq<Arg>, lookup: Option<Target>): Result<seq<Complex>, Throwable>
  {
    match lookup
    case None => Failure(RuntimeError)
    case Some(t) =>
      var k := Missing(t.arity, |arguments|);
      match t.invoke(arguments + Pulled(heap, k))
      case Returned(v) => Success([New(v, Null)] + Drop(heap, k))
      case Threw(Exception(_)) => Failure(RuntimeError)
      case Threw(Error(name)) => Failure(Error(name))
  }

  /** A call fails exactly when the lookup fails or the target throws; every `\Exception` is wrapped, every `\Error` kept. */
  lemma CallFailures(heap: seq<Complex>, arguments: seq<Arg>, lookup: Option<Target>)
    ensures lookup.None? ==> CallResult(heap, arguments, lookup) == Failure(RuntimeError)
    ensures lookup.Some? ==>
      var o := lookup.value.invoke(arguments + Pulled(heap, Missing(lookup.value.arity, |arguments|)));
      && (CallResult(heap, arguments, lookup).Failure? <==> o.Threw?)
      && (o.Threw? && o.thrown.Exception? ==> CallResult(heap, arguments, lookup).error == RuntimeError)
      && (o.Threw? && o.thrown.Error? ==> CallResult(heap, arguments, lookup).error == o.thrown)
  {
  }

  /**
   * A successful call with k = max(0, arity - given) missing arguments takes
   * the first k heap elements, in order, after the explicit arguments, and
   * leaves [new(result)] followed by the rest; the heap is one element
   * longer than what remains, |heap| - k + 1 when the heap was long enough.
   */
  lemma CallConsumesPrefix(heap: seq<Complex>, arguments: seq<Arg>, t: Target)
    requires Missing(t.arity, |arguments|) <= |heap|
    ensures var k := Missing(t.arity, |arguments|);
      var o := t.invoke(arguments + Instances(heap[..k]));
      && (o.Returned? ==> CallResult(heap, arguments, Some(t)) == Success([New(o.value, Null)] + heap[k..]))
      && (o.Returned? ==> |CallResult(heap, arguments, Some(t)).value| == |heap| - k + 1)
  {
    PulledIsPrefix(heap, Missing(t.arity, |arguments|));
  }

  /** With enough explicit arguments nothing is taken: the target sees exactly them and the result is pushed on the whole heap. */
  lemma CallWithAllArguments(heap: seq<Complex>, arguments: seq<Arg>, t: Target)
    requires t.arity <= |arguments|
    ensures t.invoke(arguments).Returned? ==>
      CallResult(heap, arguments, Some(t)) == Success([New(t.invoke(arguments).value, Null)] + heap)
  {
    assert arguments + Pulled(heap, 0) == arguments;
    assert Drop(heap, 0) == heap;
  }

  /** Past the end of the heap the missing arguments are nulls, and the heap ends up holding only the result. */
  lemma CallOnShortHeap(heap: seq<Complex>, arguments: seq<Arg>, t: Target)
    requires |heap| < Missing(t.arity, |arguments|)
    ensures var k := Missing(t.arity, |arguments|);
      var o := t.invoke(arguments + (Instances(heap) + Nulls(k - |heap|)));
      o.Returned? ==> CallResult(heap, arguments, Some(t)) == Success([New(o.value, Null)])
  {
    var k := Missing(t.arity, |arguments|);
    var args := arguments + Pulled(heap, k);
    assert args == arguments + (Instances(heap) + Nulls(k - |heap|)) by {
      PulledIsPrefix(heap, k);
    }
    CallAfterPulling(heap, arguments, t, args, []);
    var o := t.invoke(args);
    if o.Returned? {
      AppendNothing([New(o.value, Null)]);
    }
  }

  /** s + [] is s, kept as its own small fact so the proof above stays cheap. */
  lemma AppendNothing(s: seq<Complex>)
    ensures s + [] == s
  {
  }

  /** A result that is already a Complex goes back on the heap as it is. */
  lemma CallPushesComplexResult(heap: seq<Complex>, arguments: seq<Arg>, t: Target, c: Complex)
    requires t.invoke(arguments + Pulled(heap, Missing(t.arity, |arguments|))) == Returned(Instance(c))
    ensures CallResult(heap, arguments, Some(t)).Success?
    ensures CallResult(heap, arguments, Some(t)).value[0] == c
  {
    var k := Missing(t.arity, |arguments|);
    assert CallResult(heap, arguments, Some(t)) == Success([New(Instance(c), Null)] + Drop(heap, k));
    assert New(Instance(c), Null) == c;
  }

  /** Once the missing arguments are pulled, the outcome of the target alone decides the call. */
  lemma CallAfterPulling(heap: seq<Complex>, arguments: seq<Arg>, t: Target, args: seq<Arg>, rest: seq<Complex>)
    requires args == arguments + Pulled(heap, Missing(t.arity, |arguments|))
    requires rest == Drop(heap, Missing(t.arity, |arguments|))
    ensures t.invoke(args).Returned? ==> CallResult(heap, arguments, Some(t)) == Success([New(t.invoke(args).value, Null)] + rest)
    ensures t.invoke(args).Threw? && t.invoke(args).thrown.Exception? ==> CallResult(heap, arguments, Some(t)) == Failure(RuntimeError)
    ensures t.invoke(args).Threw? && t.invoke(args).thrown.Error? ==> CallResult(heap, arguments, Some(t)) == Failure(t.invoke(args).thrown)
  {
  }

  /**
   * The loop of `__call`: as many times as arguments are missing, shift the
   * head off a copy of the heap and append it, or null once the copy is empty.
   */
  method PullArguments(heap: seq<Complex>, arguments: seq<Arg>, arity: nat) returns (args: seq<Arg>, rest: seq<Complex>)
    ensures args == arguments + Pulled(heap, Missing(arity, |arguments|))
    ensures rest == Drop(heap, Missing(arity, |arguments|))
  {
    args, rest := arguments, heap;
    var n := 0;
    while n < arity - |arguments|
      invariant 0 <= n <= Missing(arity, |arguments|)
      invariant args == arguments + Pulled(heap, n)
      invariant rest == Drop(heap, n)
    {
      if rest == [] {
        args := args + [Scalar(Null)];
      } else {
        args := args + [Instance(rest[0])];
        rest := rest[1..];
      }
      n := n + 1;
    }
  }

  // ---------------------------------------------------------------------------
  // The object

  /** `Math\Complex\Operation`: the stored array is the heap of Complex values. */
  class Operation {
    var heap: seq<Complex>

    /** `new Operation(...$param)`: the heap holds the arguments, in order. */
    constructor(params: seq<Complex>)
      ensures heap == params
    {
      heap := params;
    }

    /** `fetch()`: shifts the head off the heap; null (None) when it is empty. */
    method Fetch() returns (r: Option<Complex>)
      modifies this
      ensures r.None? <==> old(heap) == []
      ensures old(heap) == (if r.Some? then [r.value] else []) + heap
      ensures old(heap) != [] ==> r == Some(old(heap)[0]) && heap == old(heap)[1..]
    {
      var a := heap;
      if a == [] {
        r := None;
      } else {
        r := Some(a[0]);
        a := a[1..];
      }
      heap := a;
    }

    /** `fetch(true)`: the head's `asArray()` with indexes; on an empty heap the call on null throws an Error. */
    method FetchAsArray() returns (r: Result<map<Key, real>, Throwable>)
      modifies this
      ensures old(heap) == [] ==> r == Failure(NullMethodCall) && heap == []
      ensures old(heap) != [] ==> r == Success(AsArray(old(heap)[0], true)) && heap == old(heap)[1..]
    {
      var c := Fetch();
      if c.None? {
        r := Failure(NullMethodCall);
      } else {
        r := Success(AsArray(c.value, true));
      }
    }

    /** `fetchAll()`: every element, in order, leaving the heap empty. */
    method FetchAll() returns (all: seq<Complex>)
      modifies this
      ensures all == old(heap)
      ensures heap == []
    {
      all := heap;
      heap := [];
    }

    /**
     * `__call`: completes `arguments` from a copy of the heap, invokes the
     * looked-up function, and on success replaces the heap with the result
     * followed by what is left of the copy and returns this object. On
     * failure the heap is untouched.
     */
    method Call(arguments: seq<Arg>, lookup: Option<Target>) returns (r: Result<Operation, Throwable>)
      modifies this
      ensures CallResult(old(heap), arguments, lookup).Success? ==>
        r == Success(this) && heap == CallResult(old(heap), arguments, lookup).value
      ensures CallResult(old(heap), arguments, lookup).Failure? ==>
        r == Failure(CallResult(old(heap), arguments, lookup).error) && heap == old(heap)
    {
      if lookup.None? {
        r := Failure(RuntimeError);
        return;
      }
      var t := lookup.value;
      var args, arr := PullArguments(heap, arguments, t.arity);
      CallAfterPulling(heap, arguments, t, args, arr);
      var outcome := t.invoke(args);
      if outcome.Returned? {
        heap := [New(outcome.value, Null)] + arr;
        r := Success(this);
      } else if outcome.thrown.Exception? {
        r := Failure(RuntimeError);
      } else {
        r := Failure(outcome.thrown);
      }
    }
  }
}
