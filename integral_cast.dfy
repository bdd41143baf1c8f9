/**
 * `static_cast` from an element count (`size_t`) to a C++ integral type, for a
 * target where `char` and `wchar_t` are signed, `long` is 64 bits wide, and
 * conversions to signed types wrap around (as C++20 defines them).
 */
module IntegralCast {

  /** The integral types `std::is_integral` admits. */
  datatype IntegralType =
    | Bool
    | Char | SignedChar | UnsignedChar | Char8
    | Short | UnsignedShort | Char16
    | Int | UnsignedInt | Char32 | WChar
    | Long | UnsignedLong | LongLong | UnsignedLongLong

  /** 2 to the width of `t` in bits (`t` other than `bool`). */
  function Modulus(t: IntegralType): nat
    requires t != Bool
  {
    if t.Char? || t.SignedChar? || t.UnsignedChar? || t.Char8? then 0x100
    else if t.Short? || t.UnsignedShort? || t.Char16? then 0x1_0000
    else if t.Int? || t.UnsignedInt? || t.Char32? || t.WChar? then 0x1_0000_0000
    else 0x1_0000_0000_0000_0000
  }

  predicate Signed(t: IntegralType)
  {
    t.Char? || t.SignedChar? || t.Short? || t.Int? || t.WChar? || t.Long? || t.LongLong?
  }

  /** The least value of `t`. */
  function Least(t: IntegralType): int
    requires t != Bool
  {
    if Signed(t) then -(Modulus(t) / 2) else 0
  }

  /** The greatest value of `t`. */
  function Greatest(t: IntegralType): int
    requires t != Bool
  {
    if Signed(t) then Modulus(t) / 2 - 1 else Modulus(t) - 1
  }

  /**
   * `static_cast<t>(n)`: for `bool`, whether `n` is non-zero (as 1 or 0); otherwise the
   * residue of `n` modulo 2^width, moved down by 2^width when it lands above the range of a
   * signed type.
   */
  function StaticCast(n: nat, t: IntegralType): int
  {
    if t == Bool then
      (if n != 0 then 1 else 0)
    else
      var m := Modulus(t);
      var k := n % m;
      if Signed(t) && k >= m / 2 then k - m else k
  }

  /** Any other cast yields a value of the target type congruent to `n` modulo 2^width. */
  lemma CastInRange(n: nat, t: IntegralType)
    requires t != Bool
    ensures Least(t) <= StaticCast(n, t) <= Greatest(t)
    ensures StaticCast(n, t) % Modulus(t) == n % Modulus(t)
  {
    ModulusEven(t);
    Wrap(n, Modulus(t), Signed(t));
  }

  /** A count that fits in the target type is kept as it is. */
  lemma CastKeepsFittingCount(n: nat, t: IntegralType)
    requires t != Bool && n <= Greatest(t)
    ensures StaticCast(n, t) == n
  {
  }

  lemma ModulusEven(t: IntegralType)
    requires t != Bool
    ensures Modulus(t) >= 2 && Modulus(t) == 2 * (Modulus(t) / 2)
  {
  }

  /** The cast's arithmetic for an even modulus `m`, with `m` left symbolic. */
  lemma Wrap(n: nat, m: nat, signed: bool)
    requires m >= 2 && m == 2 * (m / 2)
    ensures var k := n % m; var r := if signed && k >= m / 2 then k - m else k;
      && (signed ==> -(m / 2) <= r <= m / 2 - 1)
      && (!signed ==> 0 <= r <= m - 1)
      && r % m == n % m
  {
    WrapResidue(n % m, m, signed);
  }

  /** The same for a residue `k` already below `m`. */
  lemma WrapResidue(k: int, m: nat, signed: bool)
    requires 0 <= k < m && m == 2 * (m / 2)
    ensures var r := if signed && k >= m / 2 then k - m else k;
      && (signed ==> -(m / 2) <= r <= m / 2 - 1)
      && (!signed ==> 0 <= r <= m - 1)
      && r % m == k
  {
    if signed && k >= m / 2 {
      ShiftMod(k, m);
    } else {
      SmallMod(k, m);
    }
  }

  lemma SmallMod(k: int, m: int)
    requires 0 <= k < m
    ensures k % m == k
  {
  }

  lemma ShiftMod(k: int, m: int)
    requires 0 <= k < m
    ensures (k - m) % m == k
  {
  }
}
