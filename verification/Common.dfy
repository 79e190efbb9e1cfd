// Value types shared by the model's modules.
module Common {

  datatype Option<+T> = None | Some(value: T)

  newtype uint8 = x: int | 0 <= x < 0x100

  type int32 = x: int | -0x8000_0000 <= x < 0x8000_0000

  // size_t on the 64-bit targets the library is built for.
  const SIZE_LIMIT: nat := 0x1_0000_0000_0000_0000

  // C++ integer division: the quotient is rounded toward zero.
  function TruncDiv(a: int, b: int): int
    requires b != 0
  {
    if (a >= 0) == (b > 0) then Abs(a) / Abs(b) else -(Abs(a) / Abs(b))
  }

  function Abs(a: int): nat {
    if a < 0 then -a else a
  }

  function Min(a: int, b: int): int {
    if a < b then a else b
  }

  function Max(a: int, b: int): int {
    if a < b then b else a
  }

  // How often neighbouring elements differ.
  function Alternations<T(==)>(xs: seq<T>): nat {
    if |xs| < 2 then 0
    else Alternations(xs[..|xs| - 1]) + if xs[|xs| - 1] != xs[|xs| - 2] then 1 else 0
  }

  lemma {:induction false} AlternationsSnoc<T>(xs: seq<T>, x: T)
    requires xs != []
    ensures Alternations(xs + [x]) == Alternations(xs) + if x != xs[|xs| - 1] then 1 else 0
  {
  }
}
