/** The elapsed-time record of the stopwatch and its one-hundredth tick. */
module ElapsedTime {

  /** The component's `time` state. `milisec` keeps the source's field name but
      counts hundredths of a second: it carries into `sec` at 100. */
  datatype Time = Time(hr: nat, min: nat, sec: nat, milisec: nat)

  /** The all-zero time the component starts from and `Reset` restores. */
  const Zero := Time(0, 0, 0, 0)

  /** Every field below the field above it, except hours, which are unbounded. */
  predicate Normalised(t: Time) {
    t.milisec < 100 && t.sec < 60 && t.min < 60
  }

  /** The duration a record stands for, in hundredths of a second. */
  function Total(t: Time): nat {
    ((t.hr * 60 + t.min) * 60 + t.sec) * 100 + t.milisec
  }

  /** The mixed-radix decomposition of `n` hundredths: the reference definition
      the tick is compared with. */
  function FromTotal(n: nat): (t: Time)
    ensures Normalised(t) && Total(t) == n
  {
    var secs := n / 100;
    var mins := secs / 60;
    Time(mins / 60, mins % 60, secs % 60, n % 100)
  }

  /** `updateTime`: add one hundredth, then carry hundredths into seconds,
      seconds into minutes and minutes into hours, in that order. Each carry
      tests for equality with its modulus, exactly as the component does: a
      seconds or minutes field that already equals 60 is carried even without
      a carry from below, while a field already past its modulus is never
      reduced. Every carry trades one unit of a field for one of the next, so
      the total always grows by one. */
  function UpdateTime(prev: Time): (next: Time)
    ensures next.hr == prev.hr || next.hr == prev.hr + 1
    ensures Total(next) == Total(prev) + 1
    ensures Normalised(prev) ==> Normalised(next)
  {
    var milisec := prev.milisec + 1;
    var carrySec := milisec == 100;
    var milisec' := if carrySec then 0 else milisec;
    var sec := if carrySec then prev.sec + 1 else prev.sec;
    var carryMin := sec == 60;
    var sec' := if carryMin then 0 else sec;
    var min := if carryMin then prev.min + 1 else prev.min;
    var carryHr := min == 60;
    var min' := if carryHr then 0 else min;
    var hr := if carryHr then prev.hr + 1 else prev.hr;
    Time(hr, min', sec', milisec')
  }

  /** `n` successive ticks. */
  function Ticks(t: Time, n: nat): Time {
    if n == 0 then t else UpdateTime(Ticks(t, n - 1))
  }

  /** A normalised record is the decomposition of its own total: two normalised
      records with the same total are equal. */
  lemma FromTotalOfTotal(t: Time)
    requires Normalised(t)
    ensures FromTotal(Total(t)) == t
  {
    var secs := (t.hr * 60 + t.min) * 60 + t.sec;
    assert Total(t) == secs * 100 + t.milisec;
    assert Total(t) / 100 == secs && Total(t) % 100 == t.milisec;
    var mins := t.hr * 60 + t.min;
    assert secs / 60 == mins && secs % 60 == t.sec;
    assert mins / 60 == t.hr && mins % 60 == t.min;
  }

  lemma NormalisedByTotal(a: Time, b: Time)
    requires Normalised(a) && Normalised(b)
    ensures Total(a) == Total(b) <==> a == b
  {
    if Total(a) == Total(b) {
      FromTotalOfTotal(a);
      FromTotalOfTotal(b);
    }
  }

  /** On a normalised record one tick is exactly "one more hundredth". */
  lemma UpdateTimeIsSuccessor(t: Time)
    requires Normalised(t)
    ensures UpdateTime(t) == FromTotal(Total(t) + 1)
  {
    NormalisedByTotal(UpdateTime(t), FromTotal(Total(t) + 1));
  }

  /** The carries cascade within one tick; hours are only ever incremented. */
  lemma CarryCascade(t: Time)
    requires Normalised(t)
    ensures t.milisec < 99 ==> UpdateTime(t) == t.(milisec := t.milisec + 1)
    ensures t.milisec == 99 && t.sec < 59 ==> UpdateTime(t) == Time(t.hr, t.min, t.sec + 1, 0)
    ensures t.milisec == 99 && t.sec == 59 && t.min < 59 ==> UpdateTime(t) == Time(t.hr, t.min + 1, 0, 0)
    ensures t.milisec == 99 && t.sec == 59 && t.min == 59 ==> UpdateTime(t) == Time(t.hr + 1, 0, 0, 0)
  {
  }

  /** On records that are not normalised: a field equal to 60 is carried by
      the next tick, a field past its modulus only grows. */
  lemma UnnormalisedExamples()
    ensures UpdateTime(Time(0, 0, 60, 0)) == Time(0, 1, 0, 1)
    ensures UpdateTime(Time(0, 60, 0, 5)) == Time(1, 0, 0, 6)
    ensures UpdateTime(Time(0, 0, 0, 150)) == Time(0, 0, 0, 151)
  {
  }

  lemma CarryExamples()
    ensures UpdateTime(Time(0, 0, 59, 99)) == Time(0, 1, 0, 0)
    ensures UpdateTime(Time(0, 59, 59, 99)) == Time(1, 0, 0, 0)
  {
  }

  /** `n` ticks keep a record normalised and add exactly `n` hundredths. */
  lemma {:induction false} TicksTotal(t: Time, n: nat)
    requires Normalised(t)
    ensures Normalised(Ticks(t, n)) && Total(Ticks(t, n)) == Total(t) + n
  {
    if n > 0 {
      TicksTotal(t, n - 1);
    }
  }

  /** `n` ticks from a normalised record land on the decomposition of the new total. */
  lemma TicksIsDecomposition(t: Time, n: nat)
    requires Normalised(t)
    ensures Ticks(t, n) == FromTotal(Total(t) + n)
  {
    TicksTotal(t, n);
    NormalisedByTotal(Ticks(t, n), FromTotal(Total(t) + n));
  }

  /** From zero, `n` ticks give the normalised decomposition of `n` hundredths. */
  lemma TicksFromZero(n: nat)
    ensures Ticks(Zero, n) == FromTotal(n)
  {
    TicksTotal(Zero, n);
    NormalisedByTotal(Ticks(Zero, n), FromTotal(n));
  }

  /** 100 ticks from zero make one second. `n` is a parameter rather than a
      literal so that the solver does not unroll `Ticks` a hundred times. */
  lemma OneSecond(n: nat)
    requires n == 100
    ensures Ticks(Zero, n) == Time(0, 0, 1, 0)
  {
    assert FromTotal(n) == Time(0, 0, 1, 0);
    TicksFromZero(n);
  }

  /** 6000 ticks from zero make one minute (`n` is a parameter for the same
      reason as in `OneSecond`). */
  lemma OneMinute(n: nat)
    requires n == 6000
    ensures Ticks(Zero, n) == Time(0, 1, 0, 0)
  {
    assert FromTotal(n) == Time(0, 1, 0, 0);
    TicksFromZero(n);
  }
}
