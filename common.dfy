/** Shared vocabulary of the wagering engine: optional values, the
    exceptions the services throw (as error values), and sums over
    sequences used by the ledger and the games. */
module Common {

  /** The 32-bit unsigned value RandomNumberGenerator yields through
      BitConverter.ToUInt32. */
  newtype uint32 = x: int | 0 <= x < 0x1_0000_0000

  /** The largest value of a C# `int`. */
  const Int32Max: int := 0x7FFF_FFFF

  /** C# `int` arithmetic outside a checked context: the exact result is
      reduced modulo 2^32 into the range of `int`. */
  function Wrap32(x: int): (r: int)
    ensures -0x8000_0000 <= r <= Int32Max
    ensures -0x8000_0000 <= x <= Int32Max ==> r == x
    ensures (r - x) % 0x1_0000_0000 == 0
    decreases if x > Int32Max then x else if x < -0x8000_0000 then -x else 0
  {
    if x > Int32Max then Wrap32(x - 0x1_0000_0000)
    else if x < -0x8000_0000 then Wrap32(x + 0x1_0000_0000)
    else x
  }

  datatype Option<+T> = None | Some(value: T)

  /** The InvalidOperationException / UnauthorizedAccessException messages
      the services raise, one constructor per distinct condition. */
  datatype Error =
    | UserNotFound
    | InsufficientBalance
    | GameNotFound
    | NotYourGame            // UnauthorizedAccessException
    | NotPlaying
    | CannotDoubleDown       // "Can only double down on initial hand"
    | AlreadyDrawn
    | InvalidCardPositions
    | UsernameExists
    | EmailExists

  datatype Result<+T> = Ok(value: T) | Err(error: Error)

  /** Sum of a sequence of reals. */
  function Sum(xs: seq<real>): real
  {
    if xs == [] then 0.0 else Sum(xs[..|xs| - 1]) + xs[|xs| - 1]
  }

  lemma {:induction false} SumAppend(xs: seq<real>, ys: seq<real>)
    ensures Sum(xs + ys) == Sum(xs) + Sum(ys)
  {
    if ys == [] {
      assert xs + ys == xs;
    } else {
      assert (xs + ys)[..|xs + ys| - 1] == xs + ys[..|ys| - 1];
      SumAppend(xs, ys[..|ys| - 1]);
    }
  }

  lemma {:induction false} SumNonNegative(xs: seq<real>)
    requires forall i :: 0 <= i < |xs| ==> xs[i] >= 0.0
    ensures Sum(xs) >= 0.0
  {
    if xs != [] {
      SumNonNegative(xs[..|xs| - 1]);
    }
  }

  /** The sum of non-negative terms is positive exactly when some term is. */
  lemma {:induction false} SumPositiveIff(xs: seq<real>)
    requires forall i :: 0 <= i < |xs| ==> xs[i] >= 0.0
    ensures Sum(xs) > 0.0 <==> exists i :: 0 <= i < |xs| && xs[i] > 0.0
  {
    if xs != [] {
      var init := xs[..|xs| - 1];
      SumPositiveIff(init);
      SumNonNegative(init);
      if exists i :: 0 <= i < |init| && init[i] > 0.0 {
        var i :| 0 <= i < |init| && init[i] > 0.0;
        assert xs[i] > 0.0;
      }
      if exists i :: 0 <= i < |xs| && xs[i] > 0.0 {
        var i :| 0 <= i < |xs| && xs[i] > 0.0;
        if i < |init| { assert init[i] > 0.0; }
      }
    }
  }
}
