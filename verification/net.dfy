/** Shared vocabulary: optional values, bytes, IPv4 addresses and address prefixes. */
module Net {
  datatype Option<+T> = None | Some(value: T)

  type Byte = b: nat | b < 256

  /** An IPv4 address is its 32 bits, most significant first; a prefix keeps the leading ones. */
  type Addr = a: seq<bool> | |a| == 32 witness seq(32, _ => false)
  type Prefix = p: seq<bool> | |p| <= 32

  /** net.IPNet.Contains on a normalised network. */
  predicate Contains(p: Prefix, a: Addr) {
    p <= a
  }

  /** Some prefix of the list, at least `minLen` bits long, contains the address. */
  predicate Covers(ps: seq<Prefix>, a: Addr, minLen: nat) {
    exists p :: p in ps && |p| >= minLen && Contains(p, a)
  }

  function Octet(n: nat): (bits: seq<bool>)
    requires n < 256
    ensures |bits| == 8
  {
    seq(8, i requires 0 <= i < 8 => (n / [128, 64, 32, 16, 8, 4, 2, 1][i]) % 2 == 1)
  }

  function Ip(a: nat, b: nat, c: nat, d: nat): Addr
    requires a < 256 && b < 256 && c < 256 && d < 256
  {
    Octet(a) + Octet(b) + Octet(c) + Octet(d)
  }

  /** The number a bit string denotes, read big-endian. */
  function Value(bits: seq<bool>): nat {
    if bits == [] then 0
    else 2 * Value(bits[..|bits| - 1]) + if bits[|bits| - 1] then 1 else 0
  }

  function Pow2(n: nat): (r: nat)
    ensures r > 0
  {
    if n == 0 then 1 else 2 * Pow2(n - 1)
  }

  /** Clearing the host bits of an address leaves the value of its leading bits. */
  lemma {:induction false} MaskedValue(a: seq<bool>, n: nat)
    requires n <= |a|
    ensures Value(a) / Pow2(n) == Value(a[..|a| - n])
  {
    if n == 0 {
      assert a[..|a|] == a;
    } else {
      var front := a[..|a| - 1];
      MaskedValue(front, n - 1);
      assert front[..|front| - (n - 1)] == a[..|a| - n];
      assert Value(a) / 2 == Value(front);
      DivTwice(Value(a), Pow2(n - 1));
    }
  }

  lemma DivTwice(v: nat, d: nat)
    requires d > 0
    ensures v / (2 * d) == (v / 2) / d
  {
    var q, r := (v / 2) / d, (v / 2) % d;
    assert v / 2 == q * d + r;
    var s := 2 * r + v % 2;
    assert v == 2 * (v / 2) + v % 2;
    assert v == q * (2 * d) + s && 0 <= s < 2 * d;
    DivUnique(v, 2 * d, q, s);
  }

  lemma DivUnique(v: nat, m: nat, q: nat, s: nat)
    requires m > 0 && v == q * m + s && s < m
    ensures v / m == q
  {
    MulMonotonic(q + 1, v / m, m);
    MulMonotonic(v / m + 1, q, m);
  }

  lemma MulMonotonic(x: int, y: int, m: nat)
    ensures x <= y ==> x * m <= y * m
  {
  }

  /** Bit strings of one length are told apart by their values. */
  lemma {:induction false} ValueInjective(a: seq<bool>, b: seq<bool>)
    requires |a| == |b| && Value(a) == Value(b)
    ensures a == b
  {
    if a != [] {
      ValueInjective(a[..|a| - 1], b[..|b| - 1]);
      assert a == a[..|a| - 1] + [a[|a| - 1]] && b == b[..|b| - 1] + [b[|b| - 1]];
    }
  }

  /** The prefix test on bits is the usual masked comparison on 32-bit numbers. */
  lemma PrefixIsMask(p: Prefix, a: Addr)
    ensures Contains(p, a) <==> Value(a) / Pow2(32 - |p|) == Value(p)
  {
    var lead := a[..|p|];
    MaskedValue(a, 32 - |p|);
    assert 32 - (32 - |p|) == |p|;
    if Value(lead) == Value(p) {
      ValueInjective(lead, p);
    }
    assert Contains(p, a) <==> lead == p;
  }
}
