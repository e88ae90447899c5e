/** The datatypes every other module shares. */
module Prelude {

  type byte = x: int | 0 <= x < 256

  datatype Option<+T> = None | Some(value: T)

  /** The source's `anyhow::Result`; the text of an error is presentation and is not modelled. */
  datatype Result<+T> = Ok(value: T) | Err {
    predicate IsFailure() { Err? }

    function PropagateFailure<U>(): Result<U>
      requires Err?
    {
      Err
    }

    function Extract(): T
      requires Ok?
    {
      value
    }
  }

  const TWO_TO_32 := 0x1_0000_0000
  const TWO_TO_31 := 0x8000_0000

  type u32 = x: int | 0 <= x < 0x1_0000_0000
  type u64 = x: int | 0 <= x < 0x1_0000_0000_0000_0000
  type i32 = x: int | -0x8000_0000 <= x < 0x8000_0000

  /** `u32 as i32`: two's complement reinterpretation. */
  function AsSigned(n: u32): i32 {
    if n < TWO_TO_31 then n else n - TWO_TO_32
  }

  /** `i32 as u32`. */
  function AsUnsigned(n: i32): u32 {
    if n < 0 then n + TWO_TO_32 else n
  }
}

/** The few facts about division that the solver does not find by itself. */
module Division {

  lemma {:induction false} Multiples(p: nat, q: nat, d: nat)
    requires p > q
    ensures p * d >= q * d + d
    decreases p
  {
    assert (p - 1) * d + d == p * d;
    if p - 1 > q { Multiples(p - 1, q, d); }
  }

  lemma RemainderIs(n: nat, d: nat, q: nat, r: nat)
    requires d > 0 && r < d && n == q * d + r
    ensures n % d == r
  {
    var q', r' := n / d, n % d;
    assert n == q' * d + r';
    if q > q' { Multiples(q, q', d); }
    if q < q' { Multiples(q', q, d); }
  }

  lemma RemainderGrows(n: nat, d: nat, k: nat)
    requires d > 0 && n % d + k < d
    ensures (n + k) % d == n % d + k
  {
    RemainderIs(n + k, d, n / d, n % d + k);
  }

  lemma RemainderRolls(n: nat, d: nat)
    requires d > 0
    ensures (n + (d - n % d)) % d == 0
  {
    var q, r := n / d, n % d;
    assert n == q * d + r;
    assert (q + 1) * d == q * d + d;
    RemainderIs(n + (d - r), d, q + 1, 0);
  }

  lemma RemainderShifts(i: nat, d: nat)
    requires d > 0
    ensures (i + d) % d == i % d
  {
    var q, r := i / d, i % d;
    assert i == q * d + r;
    assert (q + 1) * d == q * d + d;
    RemainderIs(i + d, d, q + 1, r);
  }
}
