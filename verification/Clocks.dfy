// Lamport clocks and the byte-wise string order they and every key map rely on.
module Clocks {
  const U64_MAX: nat := 0xFFFF_FFFF_FFFF_FFFF

  datatype Option<+T> = None | Some(value: T)

  type u64 = n: nat | n <= U64_MAX

  /** `saturating_add(1)` on a 64-bit unsigned integer. */
  function SaturatingInc(n: u64): (r: u64)
  {
    if n == U64_MAX then n else n + 1
  }

  function Max(a: nat, b: nat): (r: nat)
  {
    if a <= b then b else a
  }

  /** Byte-wise lexicographic comparison of strings. */
  predicate LexLe(a: string, b: string)
  {
    a == [] || (b != [] && (a[0] < b[0] || (a[0] == b[0] && LexLe(a[1..], b[1..]))))
  }

  lemma {:induction false} LexRefl(a: string)
    ensures LexLe(a, a)
  {
    if a != [] { LexRefl(a[1..]); }
  }

  lemma {:induction false} LexAntisym(a: string, b: string)
    requires LexLe(a, b) && LexLe(b, a)
    ensures a == b
  {
    if a != [] {
      LexAntisym(a[1..], b[1..]);
      assert a == [a[0]] + a[1..] && b == [b[0]] + b[1..];
    }
  }

  lemma {:induction false} LexTotal(a: string, b: string)
    ensures LexLe(a, b) || LexLe(b, a)
  {
    if a != [] && b != [] { LexTotal(a[1..], b[1..]); }
  }

  lemma {:induction false} LexTrans(a: string, b: string, c: string)
    requires LexLe(a, b) && LexLe(b, c)
    ensures LexLe(a, c)
  {
    if a != [] && a[0] == b[0] == c[0] { LexTrans(a[1..], b[1..], c[1..]); }
  }

  /** The same order as a strict recursion-free fact set, for use in larger proofs. */
  lemma LexOrder()
    ensures forall a :: LexLe(a, a)
    ensures forall a, b :: LexLe(a, b) && LexLe(b, a) ==> a == b
    ensures forall a, b :: LexLe(a, b) || LexLe(b, a)
    ensures forall a, b, c :: LexLe(a, b) && LexLe(b, c) ==> LexLe(a, c)
  {
    forall a ensures LexLe(a, a) { LexRefl(a); }
    forall a, b | LexLe(a, b) && LexLe(b, a) ensures a == b { LexAntisym(a, b); }
    forall a, b ensures LexLe(a, b) || LexLe(b, a) { LexTotal(a, b); }
    forall a, b, c | LexLe(a, b) && LexLe(b, c) ensures LexLe(a, c) { LexTrans(a, b, c); }
  }

  /** The counters decide; equal ones are told apart by the devices' bytes. */
  datatype LamportClock = LamportClock(counter: u64, device: string) {
    predicate Le(that: LamportClock) {
      counter < that.counter || (counter == that.counter && LexLe(device, that.device))
    }

    predicate Lt(that: LamportClock) {
      Le(that) && this != that
    }

    function Max(that: LamportClock): (m: LamportClock)
    {
      if Le(that) then that else this
    }
  }

  /** Lamport clocks are totally ordered. */
  lemma ClockOrder()
    ensures forall a: LamportClock :: a.Le(a)
    ensures forall a: LamportClock, b: LamportClock :: a.Le(b) && b.Le(a) ==> a == b
    ensures forall a: LamportClock, b: LamportClock :: a.Le(b) || b.Le(a)
    ensures forall a: LamportClock, b: LamportClock, c: LamportClock :: a.Le(b) && b.Le(c) ==> a.Le(c)
  {
    LexOrder();
  }

  lemma ClockTrans(a: LamportClock, b: LamportClock, c: LamportClock)
    requires a.Le(b) && b.Le(c)
    ensures a.Le(c)
  {
    if a.counter == b.counter == c.counter { LexTrans(a.device, b.device, c.device); }
  }

  lemma ClockTotal(a: LamportClock, b: LamportClock)
    ensures a.Le(a) && (a.Le(b) || b.Le(a)) && (a.Le(b) && b.Le(a) ==> a == b)
  {
    LexRefl(a.device);
    LexTotal(a.device, b.device);
    if a.Le(b) && b.Le(a) { LexAntisym(a.device, b.device); }
  }

  predicate IsLeast(k: string, keys: set<string>) {
    k in keys && forall j | j in keys :: LexLe(k, j)
  }

  /** A nonempty set of strings has a least element. */
  lemma {:induction false} LeastString(keys: set<string>) returns (k: string)
    requires keys != {}
    ensures IsLeast(k, keys)
    decreases |keys|
  {
    k :| k in keys;
    LexRefl(k);
    if keys != {k} {
      var m := LeastString(keys - {k});
      LexTotal(k, m);
      if LexLe(k, m) {
        forall j | j in keys ensures LexLe(k, j) {
          if j != k { LexTrans(k, m, j); }
        }
      } else {
        k := m;
      }
    }
  }

  method FirstKey(keys: set<string>) returns (k: string)
    requires keys != {}
    ensures k in keys && IsLeast(k, keys)
  {
    ghost var least := LeastString(keys);
    k :| k in keys && IsLeast(k, keys);
  }
}
