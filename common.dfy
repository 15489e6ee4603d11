/** Shared vocabulary of the model: nullable references, results that can
    fail with one of the .NET exceptions the core raises, and the 32-bit
    integers of C#. */
module Common {

  /** A C# reference that may be null. */
  datatype Option<+T> = None | Some(value: T)

  /** The exceptions the modelled code can raise. */
  datatype Exception =
    | ArgumentNull        // ArgumentNullException
    | ArgumentOutOfRange  // ArgumentOutOfRangeException (String.Substring)
    | DuplicateKey        // ArgumentException from SortedList.Add on a key already present
    | NullReference       // NullReferenceException on a null member access
    | HandlerError(reason: string)  // whatever the application's callback throws

  /** A value, or the exception computing it raised. */
  datatype Result<+T> = Success(value: T) | Failure(error: Exception)

  /** Completion of a call that returns nothing: it returned, or it threw. */
  datatype Outcome = Pass | Fail(error: Exception)

  const Int32Min: int := -0x8000_0000
  const Int32Max: int := 0x7fff_ffff

  /** C#'s `int`. */
  type Int32 = x: int | Int32Min <= x <= Int32Max

  /** Unchecked C# `int` arithmetic: the mathematical result taken modulo 2^32
      into the signed range. */
  function Wrap32(x: int): (r: Int32)
    ensures Int32Min <= x <= Int32Max ==> r == x
    ensures (r - x) % 0x1_0000_0000 == 0
  {
    (x - Int32Min) % 0x1_0000_0000 + Int32Min
  }

  /** Some member of a set of keys, when it has one: a witness for a
      later `:|` choice among them. */
  lemma SomeMember(keys: set<int>) returns (k: int)
    ensures keys != {} ==> k in keys
  {
    if forall j :: j !in keys {
      assert keys == {};
      k := 0;
    } else {
      k :| k in keys;
    }
  }
}
