/**
 * The countdown to the end of the current time-bank period: the time left
 * split into days, hours, minutes and seconds, and the list of non-zero
 * parts shown, or "Período encerrado!" when there is none.
 */
module Countdown {
  import opened Wrappers
  import opened Arith

  const MsPerSecond := 1000
  const MsPerMinute := 60000
  const MsPerHour := 3600000
  const MsPerDay := 86400000

  datatype TimeLeft = TimeLeft(days: int, hours: int, minutes: int, seconds: int)

  /**
   * The component's props as the caller passes them, by name; the date is
   * an instant in milliseconds.
   */
  type Props = map<string, int>

  /** The `targetDate` prop the component destructures: None (undefined) when the caller did not pass it. */
  function TargetDate(props: Props): (t: Option<int>)
    ensures t.Some? <==> "targetDate" in props
    ensures t.Some? ==> t.value == props["targetDate"]
  {
    if "targetDate" in props then Some(props["targetDate"]) else None
  }

  /**
   * `+new Date(targetDate) - +new Date()`, with the clock read as `now`.
   * A target that is missing or does not parse is None, standing for NaN.
   */
  function Difference(target: Option<int>, now: int): (d: Option<int>)
    ensures d.Some? <==> target.Some?
    ensures d.Some? ==> now + d.value == target.value
  {
    if target.None? then None else Some(target.value - now)
  }

  /** `calculateTimeLeft`: all zero unless the difference is positive. */
  function CalculateTimeLeft(difference: Option<int>): (t: TimeLeft)
    ensures (difference.None? || difference.value <= 0) ==> t == TimeLeft(0, 0, 0, 0)
    ensures 0 <= t.days && 0 <= t.hours < 24 && 0 <= t.minutes < 60 && 0 <= t.seconds < 60
  {
    if difference.Some? && difference.value > 0 then
      var d := difference.value;
      TimeLeft(d / MsPerDay, (d / MsPerHour) % 24, (d / MsPerMinute) % 60, (d / MsPerSecond) % 60)
    else
      TimeLeft(0, 0, 0, 0)
  }

  /** The four parts put back together give the whole seconds left. */
  lemma Decomposition(d: int)
    requires d > 0
    ensures var t := CalculateTimeLeft(Some(d));
      t.days * 86400 + t.hours * 3600 + t.minutes * 60 + t.seconds == d / MsPerSecond
  {
    var s := d / MsPerSecond;
    DivDiv(d, MsPerSecond, 60);
    DivDiv(d, MsPerMinute, 60);
    DivDiv(d, MsPerHour, 24);
    var m := s / 60;
    var h := m / 60;
    assert d / MsPerMinute == m;
    assert d / MsPerHour == h;
    assert d / MsPerDay == h / 24;
    assert s == 60 * m + s % 60;
    assert m == 60 * h + m % 60;
    assert h == 24 * (h / 24) + h % 24;
  }

  /** One displayed part: its key and its value. */
  datatype Part = Part(key: string, value: int)

  /** `Object.keys(timeLeft)` with the values, in insertion order. */
  function Parts(t: TimeLeft): (ps: seq<Part>)
    ensures |ps| == 4
    ensures [ps[0].key, ps[1].key, ps[2].key, ps[3].key] == ["dias", "horas", "minutos", "segundos"]
    ensures TimeLeft(ps[0].value, ps[1].value, ps[2].value, ps[3].value) == t
  {
    [Part("dias", t.days), Part("horas", t.hours), Part("minutos", t.minutes), Part("segundos", t.seconds)]
  }

  /** The parts with a truthy (non-zero) value, in order. */
  function NonZeroParts(ps: seq<Part>): (r: seq<Part>)
    ensures |r| <= |ps|
    ensures forall i :: 0 <= i < |r| ==> r[i].value != 0 && r[i] in ps
    ensures r == [] <==> forall i :: 0 <= i < |ps| ==> ps[i].value == 0
  {
    if ps == [] then []
    else
      var init := NonZeroParts(ps[..|ps| - 1]);
      assert forall i :: 0 <= i < |ps| - 1 ==> ps[..|ps| - 1][i] == ps[i];
      init + (if ps[|ps| - 1].value != 0 then [ps[|ps| - 1]] else [])
  }

  /** Every non-zero part is kept. */
  lemma {:induction false} NonZeroPartsKeepsEveryNonZero(ps: seq<Part>)
    ensures forall i :: 0 <= i < |ps| && ps[i].value != 0 ==> ps[i] in NonZeroParts(ps)
  {
    if ps != [] {
      var init := ps[..|ps| - 1];
      NonZeroPartsKeepsEveryNonZero(init);
      assert forall i :: 0 <= i < |ps| - 1 ==> init[i] == ps[i];
    }
  }

  /** Filtering a concatenation filters each half and keeps their order. */
  lemma {:induction false} NonZeroPartsAppend(a: seq<Part>, b: seq<Part>)
    ensures NonZeroParts(a + b) == NonZeroParts(a) + NonZeroParts(b)
    decreases |b|
  {
    if b == [] {
      assert a + b == a;
    } else {
      var ab := a + b;
      assert ab[..|ab| - 1] == a + b[..|b| - 1];
      assert ab[|ab| - 1] == b[|b| - 1];
      NonZeroPartsAppend(a, b[..|b| - 1]);
    }
  }

  /** A single part is kept iff it is non-zero. */
  lemma NonZeroPartsSingle(p: Part)
    ensures NonZeroParts([p]) == (if p.value != 0 then [p] else [])
  {
    assert [p][..0] == [];
  }

  /** The parts shown for a time left: each non-zero field, under its key, in the order days, hours, minutes, seconds. */
  lemma NonZeroPartsOfTimeLeft(t: TimeLeft)
    ensures NonZeroParts(Parts(t))
      == (if t.days != 0 then [Part("dias", t.days)] else [])
       + (if t.hours != 0 then [Part("horas", t.hours)] else [])
       + (if t.minutes != 0 then [Part("minutos", t.minutes)] else [])
       + (if t.seconds != 0 then [Part("segundos", t.seconds)] else [])
  {
    var d, h, m, s := Part("dias", t.days), Part("horas", t.hours), Part("minutos", t.minutes), Part("segundos", t.seconds);
    assert Parts(t) == (([d] + [h]) + [m]) + [s];
    NonZeroPartsAppend(([d] + [h]) + [m], [s]);
    NonZeroPartsAppend([d] + [h], [m]);
    NonZeroPartsAppend([d], [h]);
    NonZeroPartsSingle(d);
    NonZeroPartsSingle(h);
    NonZeroPartsSingle(m);
    NonZeroPartsSingle(s);
  }

  /** The `forEach` that fills `timerComponents`. */
  method TimerComponents(t: TimeLeft) returns (components: seq<Part>)
    ensures components == NonZeroParts(Parts(t))
    ensures components
      == (if t.days != 0 then [Part("dias", t.days)] else [])
       + (if t.hours != 0 then [Part("horas", t.hours)] else [])
       + (if t.minutes != 0 then [Part("minutos", t.minutes)] else [])
       + (if t.seconds != 0 then [Part("segundos", t.seconds)] else [])
  {
    var keys := Parts(t);
    components := [];
    for i := 0 to |keys|
      invariant components == NonZeroParts(keys[..i])
    {
      assert keys[..i + 1][..i] == keys[..i];
      if keys[i].value == 0 {
        continue;
      }
      components := components + [keys[i]];
    }
    assert keys[..|keys|] == keys;
    NonZeroPartsOfTimeLeft(t);
  }

  /** What the component shows. */
  datatype Display = Components(parts: seq<Part>) | PeriodEnded

  function Show(components: seq<Part>): (v: Display)
    ensures v == PeriodEnded <==> components == []
  {
    if |components| > 0 then Components(components) else PeriodEnded
  }

  /** The countdown reads "Período encerrado!" exactly when less than a second is left, or the target is not a date. */
  lemma EndedIffUnderASecond(difference: Option<int>)
    ensures Show(NonZeroParts(Parts(CalculateTimeLeft(difference)))) == PeriodEnded
      <==> difference.None? || difference.value < MsPerSecond
  {
    var t := CalculateTimeLeft(difference);
    var ps := Parts(t);
    assert ps[0].value == t.days && ps[1].value == t.hours && ps[2].value == t.minutes && ps[3].value == t.seconds;
    if difference.Some? && difference.value >= MsPerSecond {
      Decomposition(difference.value);
    }
  }
}
