/** The theory behind the serial port's CRC: a 32-bit shift register with feedback, fed bit by bit.
    Registers and bit streams are sequences of bits, the most significant (first) one in front. */
module CrcTheory {
  /** The exponents of the generator below 32, section 3.2.9 of IEEE 802.3. */
  const EXPONENTS: set<nat> := {26, 23, 22, 16, 12, 11, 10, 8, 7, 5, 4, 2, 1, 0}

  /** The low 32 coefficients of the generator; the one of degree 32 is 1. */
  function Code(): (r: seq<bool>)
    ensures |r| == 32 && forall i :: 0 <= i < 32 ==> r[i] == (31 - i in EXPONENTS)
  {
    seq(32, i requires 0 <= i < 32 => 31 - i in EXPONENTS)
  }

  function Zeros(n: nat): (r: seq<bool>)
    ensures |r| == n && forall i :: 0 <= i < n ==> !r[i]
  {
    seq(n, i => false)
  }

  function Xor(a: seq<bool>, b: seq<bool>): (r: seq<bool>)
    requires |a| == |b|
    ensures |r| == |a| && forall i :: 0 <= i < |a| ==> r[i] == (a[i] != b[i])
  {
    seq(|a|, i requires 0 <= i < |a| => a[i] != b[i])
  }

  type Register = s: seq<bool> | |s| == 32 witness Zeros(32)

  // ---------- One bit ----------

  /** Shift left; the bit shifted out feeds back the generator. */
  function Feedback(s: Register): (r: Register) {
    if s[0] then Xor(s[1..] + [false], Code()) else s[1..] + [false]
  }

  function BitStep(s: Register, b: bool): (r: Register) {
    if b then Xor(Feedback(s), Code()) else Feedback(s)
  }

  function Feed(s: Register, bits: seq<bool>): Register
    decreases |bits|
  {
    if bits == [] then s else Feed(BitStep(s, bits[0]), bits[1..])
  }

  // ---------- Linearity ----------

  lemma FeedbackLinear(s: Register, t: Register)
    ensures Feedback(Xor(s, t)) == Xor(Feedback(s), Feedback(t))
  {
  }

  lemma StepLinear(s: Register, t: Register, b: bool, c: bool)
    ensures BitStep(Xor(s, t), b != c) == Xor(BitStep(s, b), BitStep(t, c))
  {
    FeedbackLinear(s, t);
    hide Feedback;
  }

  lemma {:induction false} FeedLinear(s: Register, t: Register, a: seq<bool>, b: seq<bool>)
    requires |a| == |b|
    ensures Feed(Xor(s, t), Xor(a, b)) == Xor(Feed(s, a), Feed(t, b))
    decreases |a|
  {
    hide BitStep;
    if a != [] {
      StepLinear(s, t, a[0], b[0]);
      FeedLinear(BitStep(s, a[0]), BitStep(t, b[0]), a[1..], b[1..]);
      assert Xor(a, b)[1..] == Xor(a[1..], b[1..]);
    }
  }

  lemma {:induction false} FeedAppend(s: Register, a: seq<bool>, b: seq<bool>)
    ensures Feed(s, a + b) == Feed(Feed(s, a), b)
    decreases |a|
  {
    hide BitStep;
    if a == [] {
      assert a + b == b;
    } else {
      FeedAppend(BitStep(s, a[0]), a[1..], b);
      assert (a + b)[1..] == a[1..] + b;
    }
  }

  // ---------- Bijectivity ----------

  /** The generator has an odd constant term, so no state is lost. */
  lemma StepInjective(s: Register, t: Register, b: bool)
    requires BitStep(s, b) == BitStep(t, b)
    ensures s == t
  {
    assert Code()[31];
    assert Feedback(s)[31] == s[0] && Feedback(t)[31] == t[0];
    forall i | 0 <= i < 32 ensures BitStep(s, b)[i] == (Feedback(s)[i] != (b && Code()[i])) {
    }
    forall i | 0 <= i < 32 ensures BitStep(t, b)[i] == (Feedback(t)[i] != (b && Code()[i])) {
    }
    assert Feedback(s)[31] == Feedback(t)[31];
    forall i | 1 <= i < 32 ensures s[i] == t[i] {
      assert Feedback(s)[i - 1] == Feedback(t)[i - 1];
      assert Feedback(s)[i - 1] == (s[i] != (s[0] && Code()[i - 1]));
      assert Feedback(t)[i - 1] == (t[i] != (t[0] && Code()[i - 1]));
    }
  }

  lemma {:induction false} FeedInjective(s: Register, t: Register, bits: seq<bool>)
    requires Feed(s, bits) == Feed(t, bits)
    ensures s == t
    decreases |bits|
  {
    hide BitStep;
    if bits != [] {
      FeedInjective(BitStep(s, bits[0]), BitStep(t, bits[0]), bits[1..]);
      StepInjective(s, t, bits[0]);
    }
  }

  // ---------- A word at a time ----------

  function Shifts(s: Register, n: nat): Register
    decreases n
  {
    if n == 0 then s else Shifts(Feedback(s), n - 1)
  }

  /** A bit fed in is a bit xored in at the top before the shift. */
  lemma XorInFirst(s: Register, bits: seq<bool>)
    requires 1 <= |bits| <= 32
    ensures Xor(BitStep(s, bits[0]), bits[1..] + Zeros(33 - |bits|)) == Feedback(Xor(s, bits + Zeros(32 - |bits|)))
  {
  }

  /** Feeding at most 32 bits one by one is xoring them in at the top and then shifting. */
  lemma {:induction false} FeedIsShifts(s: Register, bits: seq<bool>)
    requires |bits| <= 32
    ensures Feed(s, bits) == Shifts(Xor(s, bits + Zeros(32 - |bits|)), |bits|)
    decreases |bits|
  {
    hide BitStep, Feedback;
    if bits != [] {
      XorInFirst(s, bits);
      FeedIsShifts(BitStep(s, bits[0]), bits[1..]);
    } else {
      assert Xor(s, [] + Zeros(32)) == s;
    }
  }

  lemma {:induction false} ShiftsInjective(s: Register, t: Register, n: nat)
    requires Shifts(s, n) == Shifts(t, n)
    ensures s == t
    decreases n
  {
    hide Feedback;
    if n > 0 {
      ShiftsInjective(Feedback(s), Feedback(t), n - 1);
      StepInjective(s, t, false);
    }
  }

  // ---------- Burst detection ----------

  lemma {:induction false} FeedZeros(n: nat)
    ensures Feed(Zeros(32), Zeros(n)) == Zeros(32)
    decreases n
  {
    if n > 0 {
      assert Feedback(Zeros(32)) == Zeros(32);
      assert Zeros(n)[1..] == Zeros(n - 1);
      FeedZeros(n - 1);
    }
  }

  predicate HasOne(d: seq<bool>) {
    exists i :: 0 <= i < |d| && d[i]
  }

  /** A difference that is a single burst of at most 32 bits. */
  ghost predicate Burst(d: seq<bool>, from: nat, len: nat) {
    && from + len <= |d| && len <= 32 && HasOne(d)
    && (forall i :: 0 <= i < |d| && d[i] ==> from <= i < from + len)
  }

  lemma XorIsZero(s: Register, t: Register)
    ensures s == t <==> Xor(s, t) == Zeros(32)
  {
    if Xor(s, t) == Zeros(32) {
      forall i | 0 <= i < 32 ensures s[i] == t[i] {
        assert !Xor(s, t)[i];
      }
    }
  }

  /** Two streams of equal length whose difference is a burst never leave the same register. */
  lemma BurstDetected(s: Register, a: seq<bool>, b: seq<bool>, from: nat, len: nat)
    requires |a| == |b| && Burst(Xor(a, b), from, len)
    ensures Feed(s, a) != Feed(s, b)
  {
    hide Feed, Burst;
    BurstLeavesTrace(Xor(a, b), from, len);
    FeedLinear(s, s, a, b);
    XorIsZero(s, s);
    XorIsZero(Feed(s, a), Feed(s, b));
  }

  /** Once the register holds a difference, equal bits never remove it. */
  lemma {:induction false} FeedKeepsDifference(s: Register, t: Register, bits: seq<bool>)
    ensures Feed(s, bits) == Feed(t, bits) ==> s == t
  {
    if Feed(s, bits) == Feed(t, bits) {
      FeedInjective(s, t, bits);
    }
  }

  lemma BurstShape(d: seq<bool>, from: nat, len: nat)
    requires Burst(d, from, len)
    ensures d == Zeros(from) + d[from..from + len] + Zeros(|d| - from - len)
    ensures HasOne(d[from..from + len])
  {
    var i :| 0 <= i < |d| && d[i];
    assert d[from..from + len][i - from];
  }

  /** Up to 32 bits, not all zero, fed into the zero register leave it non-zero. */
  lemma ShortIsSeen(bits: seq<bool>)
    requires |bits| <= 32 && HasOne(bits)
    ensures Feed(Zeros(32), bits) != Zeros(32)
  {
    hide Feed, Shifts;
    var n := |bits|;
    var w: Register := bits + Zeros(32 - n);
    FeedIsShifts(Zeros(32), bits);
    assert Xor(Zeros(32), w) == w;
    ShiftsZero(n);
    var i :| 0 <= i < n && bits[i];
    assert w[i] && !Zeros(32)[i];
    if Shifts(w, n) == Shifts(Zeros(32), n) {
      ShiftsInjective(w, Zeros(32), n);
    }
  }

  lemma BurstLeavesTrace(d: seq<bool>, from: nat, len: nat)
    requires Burst(d, from, len)
    ensures Feed(Zeros(32), d) != Zeros(32)
  {
    BurstShape(d, from, len);
    var burst, n := d[from..from + len], |d| - from - len;
    hide Feed, Burst;
    FeedAppend(Zeros(32), Zeros(from) + burst, Zeros(n));
    FeedAppend(Zeros(32), Zeros(from), burst);
    FeedZeros(from);
    ShortIsSeen(burst);
    FeedZeros(n);
    FeedKeepsDifference(Feed(Zeros(32), burst), Zeros(32), Zeros(n));
  }

  lemma {:induction false} ShiftsZero(n: nat)
    ensures Shifts(Zeros(32), n) == Zeros(32)
    decreases n
  {
    if n > 0 {
      assert Feedback(Zeros(32)) == Zeros(32);
      ShiftsZero(n - 1);
    }
  }

  // ---------- Polynomial division ----------

  /** The generator, coefficient of x^32 first. */
  function Generator(): (r: seq<bool>)
    ensures |r| == 33 && forall i :: 0 <= i < 33 ==> r[i] == (i == 0 || 32 - i in EXPONENTS)
  {
    [true] + Code()
  }

  /** Spelled out: x^32 + x^26 + x^23 + x^22 + x^16 + x^12 + x^11 + x^10 + x^8 + x^7 + x^5 + x^4 + x^2 + x + 1. */
  lemma GeneratorSpelled()
    ensures forall i :: 0 <= i <= 32 ==>
      (Generator()[i] <==> 32 - i in {32, 26, 23, 22, 16, 12, 11, 10, 8, 7, 5, 4, 2, 1, 0})
  {
  }

  /** The generator or nothing, shifted n places. */
  function Lead(b: bool, n: nat): (r: seq<bool>)
    ensures |r| == 33 + n
  {
    (if b then Generator() else Zeros(33)) + Zeros(n)
  }

  /** The product of a polynomial and the generator, modulo 2: a shifted generator for every one. */
  function Mul(q: seq<bool>): (r: seq<bool>)
    ensures |r| == |q| + 32
    decreases |q|
  {
    if q == [] then Zeros(32)
    else Xor(Lead(q[0], |q| - 1), [false] + Mul(q[1..]))
  }

  /** One step of long division: cancel the leading coefficient with the generator, drop it. */
  function DivideStep(d: seq<bool>): (r: seq<bool>)
    requires |d| >= 33
    ensures |r| == |d| - 1
  {
    (if d[0] then Xor(d[1..33], Code()) else d[1..33]) + d[33..]
  }

  function Remainder(d: seq<bool>): Register
    requires |d| >= 32
    decreases |d|
  {
    if |d| == 32 then d else Remainder(DivideStep(d))
  }

  function Quotient(d: seq<bool>): (q: seq<bool>)
    requires |d| >= 32
    ensures |q| == |d| - 32
    decreases |d|
  {
    if |d| == 32 then [] else [d[0]] + Quotient(DivideStep(d))
  }

  /** Dividend, quotient and remainder belong together. */
  lemma {:induction false} DivisionIdentity(d: seq<bool>)
    requires |d| >= 32
    ensures d == Xor(Mul(Quotient(d)), Zeros(|d| - 32) + Remainder(d))
    decreases |d|
  {
    if |d| == 32 {
      NoQuotient(d);
    } else {
      hide Lead, DivideStep, Mul, Quotient, Remainder, Xor, Zeros;
      var e := DivideStep(d);
      DivisionIdentity(e);
      QuotientStep(d);
      DivisionLift(d, Mul(Quotient(e)), Remainder(e));
    }
  }

  lemma NoQuotient(d: seq<bool>)
    requires |d| == 32
    ensures d == Xor(Mul(Quotient(d)), Zeros(|d| - 32) + Remainder(d))
  {
    assert Zeros(0) + d == d;
  }

  /** One step of the division, on quotient and remainder. */
  lemma QuotientStep(d: seq<bool>)
    requires |d| >= 33
    ensures var e := DivideStep(d);
      Mul(Quotient(d)) == Xor(Lead(d[0], |d| - 33), [false] + Mul(Quotient(e))) && Remainder(d) == Remainder(e)
  {
    hide Lead, DivideStep, Xor, Zeros;
    var e := DivideStep(d);
    assert Quotient(d)[1..] == Quotient(e) && Quotient(d)[0] == d[0];
  }

  lemma DivisionLift(d: seq<bool>, m: seq<bool>, r: Register)
    requires |d| >= 33 && |m| == |d| - 1
    requires DivideStep(d) == Xor(m, Zeros(|d| - 33) + r)
    ensures d == Xor(Xor(Lead(d[0], |d| - 33), [false] + m), Zeros(|d| - 32) + r)
  {
    var rest, lead := Zeros(|d| - 33) + r, Lead(d[0], |d| - 33);
    Leading(d);
    hide Lead, DivideStep;
    assert Zeros(|d| - 32) + r == [false] + rest;
    XorLift(m, rest);
    XorThree(lead, [false] + m, [false] + rest);
  }

  lemma Leading(d: seq<bool>)
    requires |d| >= 33
    ensures d == Xor(Lead(d[0], |d| - 33), [false] + DivideStep(d))
  {
  }

  lemma XorLift(a: seq<bool>, b: seq<bool>)
    requires |a| == |b|
    ensures [false] + Xor(a, b) == Xor([false] + a, [false] + b)
  {
  }

  lemma XorThree(a: seq<bool>, b: seq<bool>, c: seq<bool>)
    requires |a| == |b| == |c|
    ensures Xor(a, Xor(b, c)) == Xor(Xor(a, b), c)
  {
  }

  /** Quotient and remainder are unique. */
  lemma {:induction false} DivisionUnique(q: seq<bool>, r: Register, q': seq<bool>, r': Register)
    requires |q| == |q'|
    requires Xor(Mul(q), Zeros(|q|) + r) == Xor(Mul(q'), Zeros(|q|) + r')
    ensures q == q' && r == r'
    decreases |q|
  {
    var n := |q|;
    var x, y := Mul(q), Mul(q');
    if n == 0 {
      assert Zeros(0) + r == r && Zeros(0) + r' == r';
      XorCancels(Zeros(32), r, r');
    } else {
      assert Xor(x, Zeros(n) + r)[0] == q[0];
      assert Xor(y, Zeros(n) + r')[0] == q'[0];
      var lead := Lead(q[0], n - 1);
      StripLead(lead, Mul(q[1..]), r);
      StripLead(lead, Mul(q'[1..]), r');
      XorCancels(lead, [false] + Xor(Mul(q[1..]), Zeros(n - 1) + r), [false] + Xor(Mul(q'[1..]), Zeros(n - 1) + r'));
      Tail(Xor(Mul(q[1..]), Zeros(n - 1) + r), Xor(Mul(q'[1..]), Zeros(n - 1) + r'));
      DivisionUnique(q[1..], r, q'[1..], r');
    }
  }

  lemma XorCancels(a: seq<bool>, b: seq<bool>, c: seq<bool>)
    requires |a| == |b| == |c|
    ensures Xor(a, b) == Xor(a, c) ==> b == c
  {
    if Xor(a, b) == Xor(a, c) {
      forall i | 0 <= i < |a| ensures b[i] == c[i] {
        assert Xor(a, b)[i] == Xor(a, c)[i];
      }
    }
  }

  lemma StripLead(lead: seq<bool>, p: seq<bool>, r: Register)
    requires |p| >= 32 && |lead| == |p| + 1
    ensures Xor(Xor(lead, [false] + p), Zeros(|p| - 31) + r) == Xor(lead, [false] + Xor(p, Zeros(|p| - 32) + r))
  {
  }

  lemma Tail(a: seq<bool>, b: seq<bool>)
    ensures [false] + a == [false] + b ==> a == b
  {
    assert ([false] + a)[1..] == a && ([false] + b)[1..] == b;
  }

  /** The register is the remainder of (register, then zeros) + (bits, then 32 zeros). */
  lemma {:induction false} FeedIsRemainder(s: Register, bits: seq<bool>)
    ensures Feed(s, bits) == Remainder(Xor(s + Zeros(|bits|), bits + Zeros(32)))
    decreases |bits|
  {
    var n := |bits|;
    var d := Xor(s + Zeros(n), bits + Zeros(32));
    if n == 0 {
      assert d == s;
    } else {
      RemainderStep(s, bits);
      FeedIsRemainder(BitStep(s, bits[0]), bits[1..]);
    }
  }

  lemma RemainderStep(s: Register, bits: seq<bool>)
    requires bits != []
    ensures DivideStep(Xor(s + Zeros(|bits|), bits + Zeros(32)))
         == Xor(BitStep(s, bits[0]) + Zeros(|bits| - 1), bits[1..] + Zeros(32))
  {
  }
}
