/** The scaling behind the human-readable byte counts of the status bar. */
module ByteCount {
  const UINT64_MAX: nat := 0xffff_ffff_ffff_ffff
  const kLimit: nat := 0xfffcccccccccccc
  const kUnits: string := "KMGTPE"

  function Pow1024(k: nat): (r: nat)
    ensures r > 0
  {
    if k == 0 then 1 else 1024 * Pow1024(k - 1)
  }

  /** The limit shifted right by `i` bits, for the multiples of ten the loop runs through. */
  function Bound(i: nat): nat
    requires i <= 40 && i % 10 == 0
  {
    if i == 40 then kLimit / 0x100_0000_0000
    else if i == 30 then kLimit / 0x4000_0000
    else if i == 20 then kLimit / 0x10_0000
    else if i == 10 then kLimit / 0x400
    else kLimit
  }

  lemma Powers()
    ensures Pow1024(0) == 1 && Pow1024(1) == 0x400 && Pow1024(2) == 0x10_0000 && Pow1024(3) == 0x4000_0000
    ensures Pow1024(4) == 0x100_0000_0000 && Pow1024(5) == 0x4_0000_0000_0000
  {
  }

  lemma Quotient(bytes: nat, k: nat)
    requires k <= 4
    ensures bytes / Pow1024(k) / 1024 == bytes / Pow1024(k + 1)
  {
    Powers();
  }

  /** A count between two bounds of the loop scales to a printable value. */
  lemma ScaledRange(bytes: nat, k: nat)
    requires 1024 <= bytes <= UINT64_MAX && k <= 5
    requires k > 0 ==> bytes > Bound(50 - 10 * k)
    requires k < 5 ==> bytes <= Bound(40 - 10 * k)
    ensures 1023 <= bytes / Pow1024(k) <= 1048524
  {
    Powers();
    if k == 0 {
    } else if k == 1 {
      assert bytes > 1048524 && bytes <= Bound(30);
    } else if k == 2 {
      assert bytes > Bound(30) && bytes <= Bound(20);
    } else if k == 3 {
      assert bytes > Bound(20) && bytes <= Bound(10);
    } else if k == 4 {
      assert bytes > Bound(10) && bytes <= Bound(0);
    } else {
      assert bytes > Bound(0);
    }
  }

  lemma RoundsDown(bytes: nat, d: nat)
    requires d > 0
    ensures bytes / d * d <= bytes < (bytes / d + 1) * d
  {
    assert bytes == bytes / d * d + bytes % d;
  }

  /** Whether the count is more than 1023.95 of unit number `k`, in whole numbers. */
  ghost predicate TooMany(bytes: nat, k: nat) {
    100 * bytes > 102395 * 1024 * Pow1024(k)
  }

  lemma BoundMeans(bytes: nat, k: nat)
    requires k <= 4
    ensures bytes > Bound(40 - 10 * k) <==> TooMany(bytes, k)
  {
    Powers();
  }

  /**
   * How often a count of at least 1024 is divided by 1024 before it is printed as `value` / 1024
   * with unit number `k`: until it is at most 1023.95 of the unit, but never past the last unit,
   * and always to a value of four to seven digits that the division rounds down.
   */
  method Scale(bytes: nat) returns (value: nat, k: nat)
    requires 1024 <= bytes <= UINT64_MAX
    ensures k < |kUnits|
    ensures value * Pow1024(k) <= bytes < (value + 1) * Pow1024(k)
    ensures 1023 <= value <= 1048524
    ensures (forall j :: 0 <= j < k ==> TooMany(bytes, j)) && (k < |kUnits| - 1 ==> !TooMany(bytes, k))
  {
    value, k := bytes, 0;
    var i := 40;
    while i >= 0 && bytes > Bound(i)
      invariant i == 40 - 10 * k && k <= 5
      invariant value == bytes / Pow1024(k)
      invariant k > 0 ==> bytes > Bound(50 - 10 * k)
      invariant forall j :: 0 <= j < k ==> TooMany(bytes, j)
      decreases 5 - k
    {
      Quotient(bytes, k);
      BoundMeans(bytes, k);
      value := value / 1024;
      k := k + 1;
      i := i - 10;
    }
    if k < 5 {
      BoundMeans(bytes, k);
    }
    ScaledRange(bytes, k);
    RoundsDown(bytes, Pow1024(k));
  }
}
