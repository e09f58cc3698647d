// The real-time clock shared by three terminals (rtc.c): one 1024 Hz interrupt divided down to
// a rate per terminal.
module Rtc {
  import opened Bytes
  import opened Machine

  const HIGHEST_FREQ := 1024

  // One terminal's rtc_ fields.
  datatype Clock = Clock(freq: nat, active: bool, countdown: nat, pending: bool)

  datatype Event = Interrupt | OpenRtc(t: nat) | WriteRtc(t: nat, value: Byte) | CloseRtc(t: nat) | PollRtc(t: nat)

  function Pow2(k: nat): (r: nat)
    ensures r >= 1
  {
    if k == 0 then 1 else 2 * Pow2(k - 1)
  }

  // The rates a one-byte write can set: the powers of two from 2 to 128.
  predicate IsRate(value: nat) {
    exists k :: 1 <= k <= 7 && value == Pow2(k)
  }

  lemma PowerValues()
    ensures Pow2(0) == 1 && Pow2(1) == 2 && Pow2(2) == 4 && Pow2(3) == 8 && Pow2(4) == 16 && Pow2(5) == 32
    ensures Pow2(6) == 64 && Pow2(7) == 128 && Pow2(8) == 256 && Pow2(9) == 512 && Pow2(10) == 1024 && Pow2(11) == 2048
  {
    assert Pow2(3) == 8 && Pow2(6) == 64 && Pow2(9) == 512;
  }

  lemma RatesDivide(f: nat)
    requires IsRate(f)
    ensures 2 <= f <= 128 && f * (HIGHEST_FREQ / f) == HIGHEST_FREQ
  {
    var k :| 1 <= k <= 7 && f == Pow2(k);
    PowerValues();
  }

  predicate Good(c: Clock) {
    c.active ==> IsRate(c.freq) && 1 <= c.countdown <= HIGHEST_FREQ / c.freq
  }

  predicate AllGood(cs: seq<Clock>) {
    |cs| == MAX_TERMINALS && forall t :: 0 <= t < MAX_TERMINALS ==> Good(cs[t])
  }

  // ---------------------------------------------------------------------------------------
  // Steps.

  // The countdown is an unsigned 32-bit number.
  function Decremented(countdown: nat): nat {
    (countdown + TWO_32 - 1) % TWO_32
  }

  predicate Fires(c: Clock) {
    c.active && Decremented(c.countdown) == 0
  }

  // The division is by the terminal's own rate.
  function Ticked(c: Clock): Clock
    requires c.active ==> c.freq > 0
  {
    if !c.active then c
    else if Fires(c) then c.(pending := true, countdown := HIGHEST_FREQ / c.freq)
    else c.(countdown := Decremented(c.countdown))
  }

  function Set(c: Clock, value: nat): Clock
    requires value > 0
  {
    c.(freq := value, countdown := HIGHEST_FREQ / value)
  }

  function Step(cs: seq<Clock>, e: Event): (r: seq<Clock>)
    requires AllGood(cs)
    ensures AllGood(r)
  {
    match e
    case Interrupt => StepKeepsGood(cs); seq(MAX_TERMINALS, t requires 0 <= t < MAX_TERMINALS => Ticked(cs[t]))
    case OpenRtc(t) =>
      assert Pow2(1) == 2;
      if t >= MAX_TERMINALS then cs else cs[t := Set(cs[t], 2).(active := true)]
    case WriteRtc(t, value) =>
      if t >= MAX_TERMINALS || !IsRate(value) then cs else RatesDivide(value); cs[t := Set(cs[t], value)]
    case CloseRtc(t) => if t >= MAX_TERMINALS then cs else cs[t := Clock(0, false, 0, false)]
    case PollRtc(t) => if t >= MAX_TERMINALS then cs else cs[t := cs[t].(pending := false)]
  }

  // One interrupt: no division by zero, no unsigned wrap-around, and the invariant again.
  lemma StepKeepsGood(cs: seq<Clock>)
    requires AllGood(cs)
    ensures forall t :: 0 <= t < MAX_TERMINALS && cs[t].active ==>
              && cs[t].freq > 0 && Decremented(cs[t].countdown) == cs[t].countdown - 1
              && Good(Ticked(cs[t]))
  {
    forall t | 0 <= t < MAX_TERMINALS && cs[t].active
      ensures cs[t].freq > 0 && Decremented(cs[t].countdown) == cs[t].countdown - 1 && Good(Ticked(cs[t]))
    {
      RatesDivide(cs[t].freq);
    }
  }

  function Run(cs: seq<Clock>, es: seq<Event>): (r: seq<Clock>)
    requires AllGood(cs)
    ensures AllGood(r)
    decreases |es|
  {
    if es == [] then cs else Step(Run(cs, es[..|es| - 1]), es[|es| - 1])
  }

  // ---------------------------------------------------------------------------------------
  // Exactness.

  function Interrupts(es: seq<Event>): nat {
    if es == [] then 0 else Interrupts(es[..|es| - 1]) + if es[|es| - 1].Interrupt? then 1 else 0
  }

  // How many of them were interrupts for terminal t.
  function FireCount(cs: seq<Clock>, es: seq<Event>, t: nat): nat
    requires AllGood(cs) && t < MAX_TERMINALS
  {
    if es == [] then 0
    else
      var most := es[..|es| - 1];
      FireCount(cs, most, t) + if es[|es| - 1].Interrupt? && Fires(Run(cs, most)[t]) then 1 else 0
  }

  predicate Sets(e: Event, t: nat) {
    e == OpenRtc(t) || e == CloseRtc(t) || (e.WriteRtc? && e.t == t && IsRate(e.value))
  }

  // Nothing sets terminal t's clock. Reads, rejected writes and everything that other terminals
  // do may happen.
  predicate Undisturbed(es: seq<Event>, t: nat) {
    forall i :: 0 <= i < |es| ==> !Sets(es[i], t)
  }

  predicate JustSet(c: Clock) {
    c.active && IsRate(c.freq) && c.countdown == HIGHEST_FREQ / c.freq
  }

  // n interrupts after its rate f was set, an active terminal has had floor(n * f / 1024)
  // interrupts of its own, and the next comes in 1024/f - (n mod 1024/f).
  lemma {:induction false} VirtualRateIsExact(cs: seq<Clock>, es: seq<Event>, t: nat)
    requires AllGood(cs) && t < MAX_TERMINALS && JustSet(cs[t]) && Undisturbed(es, t)
    ensures
      var f := cs[t].freq;
      var c, n := Run(cs, es)[t], Interrupts(es);
      && f > 0 && HIGHEST_FREQ / f > 0
      && c.active && c.freq == f
      && c.countdown == HIGHEST_FREQ / f - n % (HIGHEST_FREQ / f)
      && FireCount(cs, es, t) == n / (HIGHEST_FREQ / f) == n * f / HIGHEST_FREQ
    decreases |es|
  {
    hide IsRate, Pow2, Fires, Ticked, Set, Good, Step;
    var f := cs[t].freq;
    RatesDivide(f);
    RateOfPeriod(Interrupts(es), f, HIGHEST_FREQ / f);
    if es != [] {
      var most, e := es[..|es| - 1], es[|es| - 1];
      assert !Sets(es[|es| - 1], t);
      VirtualRateIsExact(cs, most, t);
      if e.Interrupt? {
        TickInPeriod(Run(cs, most), t, f, Interrupts(most));
      } else {
        OthersKeepPhase(Run(cs, most), e, t);
      }
    }
  }

  lemma TickInPeriod(cs: seq<Clock>, t: nat, f: nat, n: nat)
    requires AllGood(cs) && t < MAX_TERMINALS && cs[t].active && cs[t].freq == f
    requires f > 0 && HIGHEST_FREQ / f > 0 && cs[t].countdown == HIGHEST_FREQ / f - n % (HIGHEST_FREQ / f)
    ensures
      var c, period := Step(cs, Interrupt)[t], HIGHEST_FREQ / f;
      && c.active && c.freq == f && c.countdown == period - (n + 1) % period
      && (n + 1) / period == n / period + if Fires(cs[t]) then 1 else 0
  {
    hide IsRate, Pow2, Set, Good;
    StepKeepsGood(cs);
    NextInPeriod(n, HIGHEST_FREQ / f);
  }

  // What other terminals do, reads, and rejected writes leave a terminal's rate and phase alone.
  lemma OthersKeepPhase(cs: seq<Clock>, e: Event, t: nat)
    requires AllGood(cs) && t < MAX_TERMINALS && !e.Interrupt? && !Sets(e, t)
    ensures
      var c := Step(cs, e)[t];
      c == cs[t].(pending := c.pending) && (e != PollRtc(t) ==> c == cs[t])
  {
    hide IsRate, Pow2, Good;
  }

  lemma NextInPeriod(n: nat, period: nat)
    requires period > 0
    ensures n % period == period - 1 ==> (n + 1) % period == 0 && (n + 1) / period == n / period + 1
    ensures n % period < period - 1 ==> (n + 1) % period == n % period + 1 && (n + 1) / period == n / period
  {
    var q, r := n / period, n % period;
    assert n == q * period + r;
    if r == period - 1 {
      DivModIs(n + 1, period, q + 1, 0);
    } else {
      DivModIs(n + 1, period, q, r + 1);
    }
  }

  lemma DivModIs(n: nat, d: nat, q: nat, r: nat)
    requires d > 0 && r < d && n == q * d + r
    ensures n / d == q && n % d == r
  {
    var q', r' := n / d, n % d;
    assert n == q' * d + r';
    if q' < q {
      Multiples(q', q, d);
    } else if q' > q {
      Multiples(q, q', d);
    }
  }

  lemma {:induction false} Multiples(a: nat, b: nat, d: nat)
    requires a < b
    ensures b * d >= a * d + d
    decreases b
  {
    assert b * d == (b - 1) * d + d;
    if a + 1 < b {
      Multiples(a, b - 1, d);
    }
  }

  lemma RateOfPeriod(n: nat, f: nat, period: nat)
    requires f > 0 && period > 0 && f * period == HIGHEST_FREQ
    ensures n / period == n * f / HIGHEST_FREQ
  {
    var q, r := n / period, n % period;
    assert n * f == q * HIGHEST_FREQ + r * f by {
      assert n == q * period + r;
      assert n * f == q * (period * f) + r * f;
    }
    assert r * f < HIGHEST_FREQ;
    DivModIs(n * f, HIGHEST_FREQ, q, r * f);
  }

  // open and an accepted write on an open clock start a period.
  lemma SettingStartsAPeriod(cs: seq<Clock>, e: Event, t: nat)
    requires AllGood(cs) && t < MAX_TERMINALS && Sets(e, t) && !e.CloseRtc?
    ensures e.OpenRtc? || cs[t].active <==> JustSet(Step(cs, e)[t])
    ensures Step(cs, e)[t].freq == if e.OpenRtc? then 2 else e.value as int
  {
    assert Pow2(1) == 2;
  }

  // ---------------------------------------------------------------------------------------
  // Reads.

  // The reads that returned: the polls that found the flag set.
  function Reads(cs: seq<Clock>, es: seq<Event>, t: nat): nat
    requires AllGood(cs) && t < MAX_TERMINALS
  {
    if es == [] then 0
    else
      var most := es[..|es| - 1];
      Reads(cs, most, t) + if es[|es| - 1] == PollRtc(t) && Run(cs, most)[t].pending then 1 else 0
  }

  // Each virtual interrupt lets at most one read return, and one that is still pending has not
  // been used.
  lemma {:induction false} OneReadPerInterrupt(cs: seq<Clock>, es: seq<Event>, t: nat)
    requires AllGood(cs) && t < MAX_TERMINALS && !cs[t].pending
    ensures Reads(cs, es, t) + (if Run(cs, es)[t].pending then 1 else 0) <= FireCount(cs, es, t)
    decreases |es|
  {
    if es != [] {
      OneReadPerInterrupt(cs, es[..|es| - 1], t);
    }
  }

  // ---------------------------------------------------------------------------------------
  // The flag that a waiting read looks at.

  // The i-th event was an interrupt that terminal t's clock made one of its own.
  predicate FiredAt(cs: seq<Clock>, es: seq<Event>, t: nat, i: nat)
    requires AllGood(cs) && t < MAX_TERMINALS
  {
    i < |es| && es[i].Interrupt? && Run(cs, es[..i])[t].active && Run(cs, es[..i])[t].countdown == 1
  }

  // From the i-th event on, terminal t neither looks at the flag nor closes the clock.
  predicate Untaken(es: seq<Event>, t: nat, i: nat) {
    forall j :: i <= j < |es| ==> es[j] != PollRtc(t) && es[j] != CloseRtc(t)
  }

  lemma UntakenSnoc(es: seq<Event>, t: nat, i: nat)
    requires es != [] && i < |es|
    ensures Untaken(es, t, i) <==>
            Untaken(es[..|es| - 1], t, i) && es[|es| - 1] != PollRtc(t) && es[|es| - 1] != CloseRtc(t)
  {
    var most := es[..|es| - 1];
    if Untaken(most, t, i) && es[|es| - 1] != PollRtc(t) && es[|es| - 1] != CloseRtc(t) {
      forall j | i <= j < |es| ensures es[j] != PollRtc(t) && es[j] != CloseRtc(t) {
        assert j < |most| ==> es[j] == most[j];
      }
    }
    if Untaken(es, t, i) {
      assert forall j :: i <= j < |most| ==> most[j] == es[j];
    }
  }

  lemma FiredAtPrefix(cs: seq<Clock>, es: seq<Event>, t: nat, i: nat)
    requires AllGood(cs) && t < MAX_TERMINALS && es != [] && i < |es| - 1
    ensures FiredAt(cs, es, t, i) <==> FiredAt(cs, es[..|es| - 1], t, i)
  {
    assert es[..|es| - 1][..i] == es[..i];
  }

  // What one event does to the flag.
  lemma FlagStep(cs: seq<Clock>, e: Event, t: nat)
    requires AllGood(cs) && t < MAX_TERMINALS
    ensures Step(cs, e)[t].pending <==>
            (e.Interrupt? && cs[t].active && cs[t].countdown == 1)
            || (cs[t].pending && e != PollRtc(t) && e != CloseRtc(t))
  {
    hide IsRate, Pow2;
    StepKeepsGood(cs);
  }

  // In every run the flag is set if and only if the clock has fired since it was last looked at
  // or closed, or was set at the start and has been left alone.
  lemma {:induction false} FlagIsExact(cs: seq<Clock>, es: seq<Event>, t: nat)
    requires AllGood(cs) && t < MAX_TERMINALS
    ensures Run(cs, es)[t].pending <==>
            (cs[t].pending && Untaken(es, t, 0)) || exists i: nat :: FiredAt(cs, es, t, i) && Untaken(es, t, i)
    decreases |es|
  {
    hide Step, Good;
    if es != [] {
      var most, last := es[..|es| - 1], |es| - 1;
      FlagIsExact(cs, most, t);
      FlagStep(Run(cs, most), es[last], t);
      UntakenSnoc(es, t, 0);
      forall i: nat | i < last
        ensures FiredAt(cs, es, t, i) && Untaken(es, t, i) <==>
                FiredAt(cs, most, t, i) && Untaken(most, t, i) && es[last] != PollRtc(t) && es[last] != CloseRtc(t)
      {
        FiredAtPrefix(cs, es, t, i);
        UntakenSnoc(es, t, i);
      }
      assert FiredAt(cs, es, t, last) <==>
             es[last].Interrupt? && Run(cs, most)[t].active && Run(cs, most)[t].countdown == 1;
      assert FiredAt(cs, es, t, last) ==> Untaken(es, t, last);
      if Run(cs, most)[t].pending && es[last] != PollRtc(t) && es[last] != CloseRtc(t) && !Untaken(es, t, 0) {
        var i: nat :| FiredAt(cs, most, t, i) && Untaken(most, t, i);
        assert i < last && FiredAt(cs, es, t, i) && Untaken(es, t, i);
      }
      if i: nat :| FiredAt(cs, es, t, i) && Untaken(es, t, i) {
        assert i < last ==> FiredAt(cs, most, t, i);
        assert Untaken(es, t, i);
      }
    }
  }

  // So a read that waits returns: n interrupts after a setting, undisturbed and not looked at,
  // the flag is set if and only if n has reached 1024 divided by the rate (or it was set before).
  lemma {:induction false} WaitEndsExactly(cs: seq<Clock>, es: seq<Event>, t: nat)
    requires AllGood(cs) && t < MAX_TERMINALS && JustSet(cs[t]) && Undisturbed(es, t) && PollRtc(t) !in es
    ensures cs[t].freq > 0
    ensures Run(cs, es)[t].pending <==> cs[t].pending || Interrupts(es) >= 1024 / cs[t].freq
    decreases |es|
  {
    hide IsRate, Pow2, Step, Good;
    RatesDivide(cs[t].freq);
    if es != [] {
      var most, e := es[..|es| - 1], es[|es| - 1];
      assert es == most + [e] && !Sets(e, t);
      WaitEndsExactly(cs, most, t);
      VirtualRateIsExact(cs, most, t);
      FlagStep(Run(cs, most), e, t);
      FirstPeriod(Interrupts(most), HIGHEST_FREQ / cs[t].freq);
    }
  }

  lemma FirstPeriod(n: nat, period: nat)
    requires period > 0
    ensures n < period ==> (period - n % period == 1 <==> n + 1 == period)
  {
    if n < period {
      DivModIs(n, period, 0, n);
    }
  }

  // A closed clock is silent until it is opened again.
  lemma {:induction false} ClosedIsSilent(cs: seq<Clock>, es: seq<Event>, t: nat)
    requires AllGood(cs) && t < MAX_TERMINALS && OpenRtc(t) !in es
    ensures
      var c := Run(Step(cs, CloseRtc(t)), es)[t];
      !c.active && !c.pending && FireCount(Step(cs, CloseRtc(t)), es, t) == 0
    decreases |es|
  {
    hide IsRate, Pow2;
    if es != [] {
      var most, e := es[..|es| - 1], es[|es| - 1];
      assert es == most + [e];
      ClosedIsSilent(cs, most, t);
    }
  }

  // ---------------------------------------------------------------------------------------
  // RTC_write's test of a rate: exactly one bit, not the lowest.

  function Bits(v: nat): nat {
    if v == 0 then 0 else v % 2 + Bits(v / 2)
  }

  function Len(v: nat): nat {
    if v == 0 then 0 else 1 + Len(v / 2)
  }

  // A number with one bit is the power of two of its length.
  lemma {:induction false} OneBit(v: nat)
    ensures v > 0 ==> Bits(v) >= 1
    ensures Bits(v) == 1 ==> v == Pow2(Len(v) - 1) && Len(v) >= 1
    decreases v
  {
    if v > 0 {
      OneBit(v / 2);
    }
  }

  lemma {:induction false} PowerHasOneBit(k: nat)
    ensures Bits(Pow2(k)) == 1 && Len(Pow2(k)) == k + 1
  {
    if k > 0 {
      PowerHasOneBit(k - 1);
    } else {
      assert Bits(1) == 1 + Bits(0) && Len(1) == 1 + Len(0);
    }
  }

  lemma PowersByBits(v: nat, limit: nat)
    requires v % 2 == 0
    ensures (exists k :: 1 <= k <= limit && v == Pow2(k)) <==> Bits(v / 2) == 1 && Len(v / 2) <= limit
  {
    hide Bits, Len, Pow2;
    OneBit(v / 2);
    if Bits(v / 2) == 1 && Len(v / 2) <= limit {
      var k := Len(v / 2);
      Doubled(k - 1);
      assert 1 <= k <= limit && v == Pow2(k);
    }
    if k :| 1 <= k <= limit && v == Pow2(k) {
      Doubled(k - 1);
      assert v / 2 == Pow2(k - 1);
      PowerHasOneBit(k - 1);
    }
  }

  lemma Doubled(k: nat)
    ensures Pow2(k + 1) == 2 * Pow2(k)
  {
  }

  // The loop accepts the powers of two from 2 to 2048; one byte holds those up to 128.
  method AcceptsRate(value: nat) returns (ok: bool)
    ensures ok <==> exists k :: 1 <= k <= 11 && value == Pow2(k)
    ensures value < 256 ==> (ok <==> IsRate(value))
  {
    hide Bits, Len, Pow2, IsRate;
    PowersAreEven(value);
    ByteRates(value);
    if value % 2 == 1 {
      return false;
    }
    PowersByBits(value, 11);
    var freq: nat := value / 2;
    OneBit(freq);
    BitStep(freq);
    if freq == 0 {
      return false;
    }
    var index, flag := 0, 0;
    while freq > 0
      invariant index <= 11 && flag <= 1
      invariant flag + Bits(freq) == Bits(value / 2) && index + Len(freq) == Len(value / 2)
      decreases freq
    {
      BitStep(freq);
      if index > 10 {
        return false;
      }
      if freq % 2 == 1 {
        flag := flag + 1;
      }
      if flag > 1 {
        return false;
      }
      index := index + 1;
      freq := freq / 2;
    }
    BitStep(0);
    ok := true;
  }

  lemma BitStep(v: nat)
    ensures v == 0 ==> Bits(v) == 0 && Len(v) == 0
    ensures v > 0 ==> Bits(v) == v % 2 + Bits(v / 2) && Len(v) == 1 + Len(v / 2)
  {
  }

  lemma PowersAreEven(v: nat)
    ensures (exists k :: 1 <= k <= 11 && v == Pow2(k)) ==> v % 2 == 0
  {
  }

  lemma ByteRates(v: nat)
    ensures v < 256 ==> (IsRate(v) <==> exists k :: 1 <= k <= 11 && v == Pow2(k))
  {
    PowerValues();
    if k :| 1 <= k <= 11 && v == Pow2(k) {
      assert v < 256 ==> 1 <= k <= 7;
    }
  }

  // ---------------------------------------------------------------------------------------
  // The fields in memory.

  class RtcTerminals {
    const clocks: array<Clock>
    var scheduled: nat

    ghost predicate Valid()
      reads this, clocks
    {
      AllGood(clocks[..]) && scheduled < MAX_TERMINALS
    }

    // init_terminal's part.
    constructor ()
      ensures Valid() && scheduled == 0
    {
      clocks := new Clock[MAX_TERMINALS](_ => Clock(0, false, 0, false));
      scheduled := 0;
    }

    method OnInterrupt()
      requires Valid()
      modifies clocks
      ensures Valid() && clocks[..] == Step(old(clocks[..]), Interrupt)
    {
      ghost var before := clocks[..];
      StepKeepsGood(before);
      var i := 0;
      while i < MAX_TERMINALS
        invariant 0 <= i <= MAX_TERMINALS
        invariant forall t :: 0 <= t < MAX_TERMINALS ==> clocks[t] == if t < i then Ticked(before[t]) else before[t]
      {
        if clocks[i].active {
          clocks[i] := clocks[i].(countdown := (clocks[i].countdown + TWO_32 - 1) % TWO_32);
          if clocks[i].countdown == 0 {
            clocks[i] := clocks[i].(pending := true);
            clocks[i] := clocks[i].(countdown := HIGHEST_FREQ / clocks[i].freq);
          }
        }
        i := i + 1;
      }
    }

    method Open()
      requires Valid()
      modifies clocks
      ensures Valid() && clocks[..] == Step(old(clocks[..]), OpenRtc(scheduled))
    {
      var t := scheduled;
      clocks[t] := clocks[t].(freq := 2);
      clocks[t] := clocks[t].(active := true);
      clocks[t] := clocks[t].(countdown := HIGHEST_FREQ / clocks[t].freq);
      assert clocks[..] == old(clocks[..])[t := Set(old(clocks[t]), 2).(active := true)];
      assert clocks[..] == Step(old(clocks[..]), OpenRtc(scheduled));
    }

    method Write(value: Byte) returns (r: int)
      requires Valid()
      modifies clocks
      ensures Valid() && clocks[..] == Step(old(clocks[..]), WriteRtc(scheduled, value))
      ensures r == if IsRate(value) then 0 else -1
    {
      var ok := AcceptsRate(value);
      if !ok {
        return -1;
      }
      RatesDivide(value);
      var t := scheduled;
      clocks[t] := clocks[t].(freq := value);
      clocks[t] := clocks[t].(countdown := HIGHEST_FREQ / clocks[t].freq);
      return 0;
    }

    // One turn of the loop that waits for the flag.
    method Poll() returns (done: bool)
      requires Valid()
      modifies clocks
      ensures Valid() && clocks[..] == Step(old(clocks[..]), PollRtc(scheduled))
      ensures done == old(clocks[scheduled].pending)
    {
      done := clocks[scheduled].pending;
      if done {
        clocks[scheduled] := clocks[scheduled].(pending := false);
      }
      assert clocks[..] == Step(old(clocks[..]), PollRtc(scheduled));
    }

    method Close()
      requires Valid()
      modifies clocks
      ensures Valid() && clocks[..] == Step(old(clocks[..]), CloseRtc(scheduled))
    {
      clocks[scheduled] := Clock(0, false, 0, false);
    }
  }
}
