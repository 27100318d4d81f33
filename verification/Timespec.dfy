/** Clock arithmetic in seconds and nanoseconds, bumping the clock, and the strobe run. */
module Timespec {

  const NANOS_PER_SEC := 1_000_000_000

  /** C's remainder, which takes the sign of the dividend. */
  function Rem(n: int, m: int): int
    requires m > 0
  {
    if n >= 0 then n % m else -((-n) % m)
  }

  datatype Time = Time(sec: int, nsec: int) {
    function Nanos(): int {
      sec * NANOS_PER_SEC + nsec
    }

    predicate Normal() {
      0 <= nsec < NANOS_PER_SEC
    }
  }

  /** A normal time is determined by its total. */
  lemma NormalUnique(a: Time, b: Time)
    requires a.Normal() && b.Normal() && a.Nanos() == b.Nanos()
    ensures a == b
  {
  }

  /** Splitting keeps the total, whatever the sign; it is normal exactly for totals that need no borrow. */
  function NanosToTime(nanos: int): (t: Time)
    ensures t.Nanos() == nanos
    ensures t.Normal() <==> nanos >= 0 || nanos % NANOS_PER_SEC == 0
  {
    var dnanos := Rem(nanos, NANOS_PER_SEC);
    Time((nanos - dnanos) / NANOS_PER_SEC, dnanos)
  }

  /** The struct passed by address, rebalanced in place. */
  class Cell {
    var sec: int
    var nsec: int

    constructor (t: Time)
      ensures Value() == t
    {
      sec, nsec := t.sec, t.nsec;
    }

    function Value(): Time
      reads this
    {
      Time(sec, nsec)
    }

    /** The first loop overshoots, the second brings the nanoseconds back into range. */
    method Balance()
      modifies this
      ensures Value().Normal() && Value().Nanos() == old(Value().Nanos())
    {
      while nsec <= NANOS_PER_SEC
        invariant Value().Nanos() == old(Value().Nanos())
        decreases NANOS_PER_SEC - nsec
      {
        sec := sec - 1;
        nsec := nsec + NANOS_PER_SEC;
      }
      while NANOS_PER_SEC <= nsec
        invariant Value().Nanos() == old(Value().Nanos()) && nsec >= 0
        decreases nsec
      {
        sec := sec + 1;
        nsec := nsec - NANOS_PER_SEC;
      }
    }
  }

  method AddTime(a: Time, b: Time) returns (r: Time)
    ensures r.Normal() && r.Nanos() == a.Nanos() + b.Nanos()
  {
    var cell := new Cell(Time(a.sec + b.sec, a.nsec + b.nsec));
    cell.Balance();
    r := cell.Value();
  }

  method SubTime(a: Time, b: Time) returns (r: Time)
    ensures r.Normal() && r.Nanos() == a.Nanos() - b.Nanos()
  {
    var cell := new Cell(Time(a.sec - b.sec, a.nsec - b.nsec));
    cell.Balance();
    r := cell.Value();
  }

  function CmpTime(a: Time, b: Time): int {
    if a.sec < b.sec then 1
    else if b.sec < a.sec then -1
    else if a.nsec < b.nsec then 1
    else if b.nsec < a.nsec then -1
    else 0
  }

  /** On normal times the comparison is the reverse of the order of totals. */
  lemma CmpIsReversed(a: Time, b: Time)
    requires a.Normal() && b.Normal()
    ensures CmpTime(a, b) > 0 <==> a.Nanos() < b.Nanos()
    ensures CmpTime(a, b) < 0 <==> a.Nanos() > b.Nanos()
    ensures CmpTime(a, b) == 0 <==> a == b
  {
  }

  /** Moves a clock reading by delta nanoseconds, either way. */
  method Bump(now: Time, delta: int) returns (r: Time)
    ensures r.Normal() && r.Nanos() == now.Nanos() + delta
  {
    var d := NanosToTime(delta);
    var cell := new Cell(Time(now.sec + d.sec, now.nsec + d.nsec));
    cell.Balance();
    r := cell.Value();
  }

  // ---------------------------------------------------------------- the strobe run

  /** One setting of the wall clock: the monotonic reading it was based on, and the time set. */
  datatype Setting = Setting(mono: Time, wall: Time)

  datatype Exit = Restored | ClockUnread | ClockUnset | SleepFailed

  /** The i-th strobe sets the clock ahead by delta if i is even, and back to normal if odd. */
  ghost predicate Alternates(settings: seq<Setting>, offset: int, delta: int) {
    forall i :: 0 <= i < |settings| ==>
      && settings[i].wall.Normal()
      && settings[i].wall.Nanos() == settings[i].mono.Nanos() + offset + if i % 2 == 0 then delta else 0
  }

  lemma AlternatesOnce(settings: seq<Setting>, offset: int, delta: int, next: Setting)
    requires Alternates(settings, offset, delta) && next.wall.Normal()
    requires next.wall.Nanos() == next.mono.Nanos() + offset + if |settings| % 2 == 0 then delta else 0
    ensures Alternates(settings + [next], offset, delta)
  {
  }

  lemma Parity(n: nat)
    ensures n % 2 == 1 <==> !((n + 1) % 2 == 1)
  {
  }

  /** Sets the wall clock to a monotonic reading plus an offset. */
  method SetWallClock(now: Time, offset: Time) returns (s: Setting)
    ensures s.mono == now && s.wall.Normal() && s.wall.Nanos() == now.Nanos() + offset.Nanos()
  {
    var wall := AddTime(now, offset);
    s := Setting(now, wall);
  }

  /** Readings of the monotonic clock: normal, never going back, and passing every moment in time. */
  ghost predicate Monotonic(mono: imap<nat, Time>) {
    && (forall i: nat :: i in mono && mono[i].Normal())
    && (forall i: nat, j: nat :: i in mono && j in mono && i <= j ==> mono[i].Nanos() <= mono[j].Nanos())
    && (forall t: int :: Passes(mono, t))
  }

  ghost predicate Passes(mono: imap<nat, Time>, t: int) {
    exists i: nat :: i in mono && mono[i].Nanos() >= t
  }

  /** Whether the k-th of some system calls succeeds; a run makes finitely many. */
  predicate Succeeds(calls: seq<bool>, k: nat) {
    k < |calls| ==> calls[k]
  }

  /** The i-th setting was based on the second of the i-th pair of readings. */
  ghost predicate Paced(settings: seq<Setting>, mono: imap<nat, Time>)
    requires forall i: nat :: i in mono
  {
    forall i :: 0 <= i < |settings| ==> settings[i].mono == mono[2 * i + 3]
  }

  /** Before each setting there was a reading that came before the end. */
  ghost predicate InTime(settings: seq<Setting>, mono: imap<nat, Time>, end: int)
    requires forall i: nat :: i in mono
  {
    forall i :: 0 <= i < |settings| ==> mono[2 * i + 2].Nanos() < end
  }

  ghost predicate AllSucceed(calls: seq<bool>, n: int) {
    forall i :: 0 <= i < n ==> Succeeds(calls, i)
  }

  lemma EndIsReached(mono: imap<nat, Time>, end: Time) returns (stop: nat)
    requires Monotonic(mono)
    ensures forall i: nat :: i in mono && (i >= stop ==> mono[i].Nanos() >= end.Nanos())
  {
    assert Passes(mono, end.Nanos());
    stop :| stop in mono && mono[stop].Nanos() >= end.Nanos();
  }

  lemma LaterReading(mono: imap<nat, Time>, i: nat)
    requires Monotonic(mono)
    ensures mono[i].Nanos() <= mono[i + 1].Nanos()
  {
  }

  /** The loop: strobes until a reading is not before `end`, or a system call fails. */
  method StrobeUntil(normalOffset: Time, weirdOffset: Time, end: Time, mono: imap<nat, Time>,
                     sets: seq<bool>, sleeps: seq<bool>, ghost stop: nat)
    returns (exit: Exit, settings: seq<Setting>)
    requires end.Normal() && forall i: nat :: i in mono && mono[i].Normal()
    requires forall i: nat :: i >= stop ==> mono[i].Nanos() >= end.Nanos()
    ensures Alternates(settings, normalOffset.Nanos(), weirdOffset.Nanos() - normalOffset.Nanos())
    ensures Paced(settings, mono) && AllSucceed(sets, |settings|) && AllSucceed(sleeps, |settings| - 1)
    ensures InTime(settings, mono, end.Nanos())
    ensures exit != ClockUnread
    ensures exit == Restored ==> mono[2 * |settings| + 2].Nanos() >= end.Nanos()
    ensures exit == ClockUnset ==> !Succeeds(sets, |settings|)
    ensures exit == SleepFailed ==> settings != [] && !Succeeds(sleeps, |settings| - 1)
    ensures exit != SleepFailed ==> AllSucceed(sleeps, |settings|)
  {
    var weird := false;
    var readings: nat := 2;
    settings := [];
    ghost var delta := weirdOffset.Nanos() - normalOffset.Nanos();
    while true
      invariant readings == 2 * |settings| + 2
      invariant weird <==> |settings| % 2 == 1
      invariant Alternates(settings, normalOffset.Nanos(), delta)
      invariant Paced(settings, mono) && AllSucceed(sets, |settings|) && AllSucceed(sleeps, |settings|)
      invariant InTime(settings, mono, end.Nanos())
      decreases stop - readings
    {
      var now := mono[readings];
      CmpIsReversed(now, end);
      if CmpTime(now, end) <= 0 { return Restored, settings; }
      var next := SetWallClock(mono[readings + 1], if weird then normalOffset else weirdOffset);
      if !Succeeds(sets, |settings|) { return ClockUnset, settings; }
      readings := readings + 2;
      AlternatesOnce(settings, normalOffset.Nanos(), delta, next);
      Parity(|settings|);
      settings := settings + [next];
      weird := !weird;
      if !Succeeds(sleeps, |settings| - 1) { return SleepFailed, settings; }
    }
  }

  /**
   Strobes for the duration, then puts the clock back. `wall` is the wall clock at the start, if it
   could be read, mono gives the successive monotonic readings, and sets and sleeps say which
   settings and which sleeps succeed. Returns the settings made by the loop, and the last one
   unless the run was cut short.
   */
  method Strobe(delta: Time, duration: Time, wall: Time, readable: bool, mono: imap<nat, Time>, sets: seq<bool>, sleeps: seq<bool>)
    returns (exit: Exit, settings: seq<Setting>, last: Setting, count: nat)
    requires Monotonic(mono)
    ensures count == |settings|
    ensures Alternates(settings, wall.Nanos() - mono[0].Nanos(), delta.Nanos()) && Paced(settings, mono)
    ensures InTime(settings, mono, mono[1].Nanos() + duration.Nanos())
    ensures exit == Restored ==>
              && last.wall.Normal()
              && last.wall.Nanos() == last.mono.Nanos() + (wall.Nanos() - mono[0].Nanos())
              && last.mono == mono[2 * count + 3]
              && last.mono.Nanos() >= mono[1].Nanos() + duration.Nanos()
              && AllSucceed(sets, count + 1) && AllSucceed(sleeps, count)
    ensures exit == ClockUnread <==> !readable
    ensures exit == ClockUnread ==> count == 0
    ensures exit == ClockUnset ==> AllSucceed(sets, count) && !Succeeds(sets, count)
    ensures exit == SleepFailed ==> count > 0 && AllSucceed(sleeps, count - 1) && !Succeeds(sleeps, count - 1)
  {
    settings, last, count := [], Setting(wall, wall), 0;
    if !readable { return ClockUnread, settings, last, count; }
    var normalOffset := SubTime(wall, mono[0]);
    var weirdOffset := AddTime(normalOffset, delta);
    var end := AddTime(mono[1], duration);
    ghost var stop := EndIsReached(mono, end);
    exit, settings := StrobeUntil(normalOffset, weirdOffset, end, mono, sets, sleeps, stop);
    count := |settings|;
    if exit == Restored {
      LaterReading(mono, 2 * count + 2);
      last := SetWallClock(mono[2 * count + 3], normalOffset);
      if !Succeeds(sets, count) { exit := ClockUnset; }
    }
  }
}
