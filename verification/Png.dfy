/** The PNG writer's checksums and its stored deflate blocks. */
module Png {
  import opened Wrappers
  import opened Bytes

  // ---- Adler-32, RFC 1950 section 2.2 ------------------------------------------

  const MOD := 65_521
  const RUN := 5552

  /** The two sums, reduced after every byte. */
  datatype Sums = Sums(a: nat, b: nat)

  function AdlerSums(data: seq<Byte>): (s: Sums)
    ensures s.a < MOD && s.b < MOD
  {
    if data == [] then Sums(1, 0)
    else
      var before := AdlerSums(data[..|data| - 1]);
      var a := (before.a + data[|data| - 1]) % MOD;
      Sums(a, (before.b + a) % MOD)
  }

  function Adler(data: seq<Byte>): Dword {
    var s := AdlerSums(data);
    s.b * 0x1_0000 + s.a
  }

  /** 1 + 2 + ... + k. */
  function Triangle(k: nat): nat {
    if k == 0 then 0 else Triangle(k - 1) + k
  }

  lemma {:induction false} TriangleIs(k: nat)
    ensures 2 * Triangle(k) == k * (k + 1)
  {
    if k > 0 {
      TriangleIs(k - 1);
    }
  }

  lemma {:induction false} TriangleGrows(k: nat, n: nat)
    requires k <= n
    ensures Triangle(k) <= Triangle(n)
    decreases n - k
  {
    if k < n {
      TriangleGrows(k + 1, n);
    }
  }

  /** The sums cannot pass 32 bits within a run: 5552 is the longest such run. */
  lemma RunFits(k: nat)
    requires k <= RUN
    ensures MOD - 1 + k * (MOD - 1) + 255 * Triangle(k) < 0x1_0000_0000
    ensures MOD - 1 + (RUN + 1) * (MOD - 1) + 255 * Triangle(RUN + 1) >= 0x1_0000_0000
  {
    TriangleGrows(k, RUN);
    TriangleIs(RUN);
    TriangleIs(RUN + 1);
  }

  lemma ReducedSum(a: nat, x: nat)
    ensures (a % MOD + x) % MOD == (a + x) % MOD && (a % MOD + x % MOD) % MOD == (a + x) % MOD
  {
  }

  /** One byte added to sums that are reduced only later. */
  lemma DeferredStep(data: seq<Byte>, i: nat, a: nat, b: nat)
    requires i < |data|
    requires a % MOD == AdlerSums(data[..i]).a && b % MOD == AdlerSums(data[..i]).b
    ensures
      var more := a + data[i];
      more % MOD == AdlerSums(data[..i + 1]).a && (b + more) % MOD == AdlerSums(data[..i + 1]).b
  {
    assert data[..i + 1][..i] == data[..i];
    ReducedSum(a, data[i]);
    ReducedSum(b, a + data[i]);
  }

  /** A run of at most 5552 bytes, the modulo left for its end. The sums are 32-bit
      words throughout. */
  method AddRun(data: seq<Byte>, start: nat, end: nat, a0: Dword, b0: Dword) returns (a: Dword, b: Dword)
    requires start <= end <= |data| && end - start <= RUN
    requires a0 == AdlerSums(data[..start]).a && b0 == AdlerSums(data[..start]).b
    ensures a == AdlerSums(data[..end]).a && b == AdlerSums(data[..end]).b
  {
    a, b := a0, b0;
    for i := start to end
      invariant a % MOD == AdlerSums(data[..i]).a && b % MOD == AdlerSums(data[..i]).b
      invariant a <= MOD - 1 + 255 * (i - start)
      invariant b <= MOD - 1 + (i - start) * (MOD - 1) + 255 * Triangle(i - start)
    {
      DeferredStep(data, i, a, b);
      RunFits(i + 1 - start);
      var sum: int, total: int := a, b;
      a := sum + data[i];
      b := total + a;
    }
    a, b := a % MOD, b % MOD;
  }

  method Adler32(data: seq<Byte>) returns (r: Dword)
    ensures r == Adler(data)
  {
    var a: Dword, b: Dword := 1, 0;
    var start := 0;
    while start < |data|
      invariant start <= |data|
      invariant a == AdlerSums(data[..start]).a && b == AdlerSums(data[..start]).b
    {
      var end := if |data| - start < RUN then |data| else start + RUN;
      a, b := AddRun(data, start, end, a, b);
      start := end;
    }
    assert data[..|data|] == data;
    var low: int, high: int := a, b;
    r := high * 0x1_0000 + low;
  }
}
