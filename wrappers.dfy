/** Option, Result and the CLR exceptions the modelled code can raise. */
module Wrappers {

  datatype Option<+T> = None | Some(value: T)

  /** The exception types thrown by the repository layer or by the .NET calls it makes. */
  datatype Exception =
    | ArgumentException(message: string)
    | ArgumentNullException
    | ArgumentOutOfRangeException
    | InvalidCastException
    | NullReferenceException
    | TargetException
    | NotImplementedException
    | PlainException(message: string)   // System.Exception itself

  /** A value, or the exception thrown instead of returning it. */
  datatype Result<+T> = Ok(value: T) | Err(error: Exception) {
    predicate IsFailure() { Err? }

    function PropagateFailure<U>(): Result<U>
      requires Err?
    {
      Err(error)
    }

    function Extract(): T
      requires Ok?
    {
      value
    }
  }

  /** The entries of a list property that may be null: a null list has none. */
  function Entries<T>(list: Option<seq<T>>): seq<T>
  {
    if list.Some? then list.value else []
  }
}

/** The 32-bit `int` of C#, whose arithmetic is unchecked (it wraps around). */
module ClrInt {

  const MinInt32: int := -0x8000_0000
  const MaxInt32: int := 0x7fff_ffff
  const Modulus: int := 0x1_0000_0000

  type Int32 = x: int | MinInt32 <= x <= MaxInt32

  /** The int32 that an unchecked C# computation yields for the mathematical value `x`. */
  function Wrap(x: int): (r: Int32)
    ensures MinInt32 <= x <= MaxInt32 ==> r == x
    ensures (x - r) % Modulus == 0
  {
    (x - MinInt32) % Modulus + MinInt32
  }

  /** Wrapping an intermediate result does not change the final wrapped value. */
  lemma WrapAdd(x: int, y: int)
    ensures Wrap(Wrap(x) + y) == Wrap(x + y)
  {
    var k := (x - Wrap(x)) / Modulus;
    assert x == Wrap(x) + k * Modulus;
    assert (Wrap(x) + y - MinInt32) == (x + y - MinInt32) - k * Modulus;
    ModShift(x + y - MinInt32, k);
  }

  lemma ModShift(a: int, k: int)
    ensures (a - k * Modulus) % Modulus == a % Modulus
  {
  }
}

/** Ordinal string search, as `string.Contains` performs it. */
module ClrString {

  predicate StartsWith(s: string, prefix: string)
  {
    |prefix| <= |s| && s[..|prefix|] == prefix
  }

  /** `s.Contains(sub)`: some position of `s` starts an occurrence of `sub`. */
  predicate Contains(s: string, sub: string)
    decreases |s|
  {
    StartsWith(s, sub) || (|s| > 0 && Contains(s[1..], sub))
  }

  /** `sub` occurs in `s` starting at index `i`. */
  predicate OccursAt(s: string, sub: string, i: int)
  {
    0 <= i <= |s| - |sub| && s[i..i + |sub|] == sub
  }

  /** Contains means exactly that `sub` occurs at some index of `s`. */
  lemma {:induction false} ContainsIff(s: string, sub: string)
    ensures Contains(s, sub) <==> exists i :: OccursAt(s, sub, i)
    decreases |s|
  {
    if StartsWith(s, sub) {
      assert OccursAt(s, sub, 0);
    } else if |s| > 0 {
      ContainsIff(s[1..], sub);
      forall i | OccursAt(s, sub, i) && i > 0
        ensures OccursAt(s[1..], sub, i - 1)
      {
        assert s[1..][i - 1..i - 1 + |sub|] == s[i..i + |sub|];
      }
      forall j | OccursAt(s[1..], sub, j)
        ensures OccursAt(s, sub, j + 1)
      {
        assert s[j + 1..j + 1 + |sub|] == s[1..][j..j + |sub|];
      }
    }
  }

  /** An occurrence at a known index is found. */
  lemma ContainsAt(s: string, sub: string, i: int)
    requires OccursAt(s, sub, i)
    ensures Contains(s, sub)
  {
    ContainsIff(s, sub);
  }
}
