/**
 The cost calculator: what a session costs at a given moment.

 Elapsed time is billed in whole minutes rounded up. A timed session pays its
 booked minutes up front whatever it has used, plus overtime for each billed
 minute past the booking; an open session pays for the billed minutes. The sum
 is rounded up to a whole currency unit. All amounts are exact reals.
 */
module Cost {
  import opened Arith
  import opened Sessions

  /** The cost of a session at one instant, as `calculateCost` returns it. */
  datatype Breakdown = Breakdown(
    durationMs: int,
    durationMinutes: int,
    baseCost: real,
    overtimeCost: real,
    overtimeMinutes: int,
    isOvertime: bool,
    totalCost: int)

  /** The per-minute price of an hourly rate. */
  function PricePerMinute(hourlyRate: real): (perMinute: real)
    ensures perMinute * 60.0 == hourlyRate
  {
    hourlyRate / 60.0
  }

  /** Elapsed milliseconds billed as minutes; a started minute counts in full. */
  function BilledMinutes(durationMs: int): (minutes: int)
    ensures (minutes - 1) * 60000 < durationMs <= minutes * 60000
  {
    CeilDiv(durationMs, 60000)
  }

  /**
   The cost of `s` at time `now` (milliseconds). The clock may be behind the
   start time; the arithmetic then runs on a negative duration, as it would in
   the original program.
   */
  function CalculateCost(s: Session, now: int): (b: Breakdown)
    ensures b.durationMs == now - s.startTime
    ensures (b.durationMinutes - 1) * 60000 < b.durationMs <= b.durationMinutes * 60000
    ensures b.isOvertime <==> s.isTimed && b.durationMinutes > s.timeLimitMinutes
    ensures b.isOvertime ==> b.overtimeMinutes == b.durationMinutes - s.timeLimitMinutes > 0
    ensures !b.isOvertime ==> b.overtimeMinutes == 0
    ensures s.isTimed ==> b.baseCost == s.timeLimitMinutes as real * s.hourlyRate / 60.0
    ensures !s.isTimed ==> b.baseCost == b.durationMinutes as real * s.hourlyRate / 60.0
    ensures b.overtimeCost == b.overtimeMinutes as real * s.hourlyRate / 60.0
    ensures !b.isOvertime ==> b.overtimeCost == 0.0
    ensures b.baseCost + b.overtimeCost <= b.totalCost as real < b.baseCost + b.overtimeCost + 1.0
  {
    var durationMs := now - s.startTime;
    var durationMinutes := BilledMinutes(durationMs);
    var perMinute := PricePerMinute(s.hourlyRate);
    var baseCost :=
      if s.isTimed then s.timeLimitMinutes as real * perMinute
      else durationMinutes as real * perMinute;
    var isOvertime := s.isTimed && durationMinutes > s.timeLimitMinutes;
    var overtimeMinutes := if isOvertime then durationMinutes - s.timeLimitMinutes else 0;
    var overtimeCost := if isOvertime then overtimeMinutes as real * perMinute else 0.0;
    Breakdown(durationMs, durationMinutes, baseCost, overtimeCost, overtimeMinutes,
              isOvertime, Ceil(baseCost + overtimeCost))
  }

  /**
   Reference for the minutes a customer pays for: the larger of booked and used
   minutes for a timed session, the used minutes for an open one.
   */
  function ChargedMinutes(s: Session, usedMinutes: int): (minutes: int)
    ensures minutes >= usedMinutes
    ensures s.isTimed ==> minutes >= s.timeLimitMinutes
  {
    if !s.isTimed then usedMinutes
    else if usedMinutes > s.timeLimitMinutes then usedMinutes
    else s.timeLimitMinutes
  }

  /** Base plus overtime is exactly the charged minutes at the per-minute price. */
  lemma CostIsChargedMinutes(s: Session, now: int)
    ensures var b := CalculateCost(s, now);
            b.baseCost + b.overtimeCost
              == ChargedMinutes(s, b.durationMinutes) as real * s.hourlyRate / 60.0
  {
    var b := CalculateCost(s, now);
    if b.isOvertime {
      var t := s.timeLimitMinutes as real;
      var o := b.overtimeMinutes as real;
      assert b.durationMinutes as real == t + o;
      assert t * s.hourlyRate / 60.0 + o * s.hourlyRate / 60.0 == (t + o) * s.hourlyRate / 60.0;
    }
  }

  /** Within the booked time a timed session costs its prepaid amount, rounded up. */
  lemma TimedWithinBookingPaysPrepaid(s: Session, now: int)
    requires s.isTimed
    requires now - s.startTime <= s.timeLimitMinutes * 60000
    ensures !CalculateCost(s, now).isOvertime
    ensures CalculateCost(s, now).totalCost == Ceil(s.timeLimitMinutes as real * s.hourlyRate / 60.0)
  {
  }

  /**
   A session is in overtime exactly when it is timed and the elapsed
   milliseconds strictly exceed the booked time, however little.
   */
  lemma OvertimeIffPastBooking(s: Session, now: int)
    ensures CalculateCost(s, now).isOvertime <==>
              s.isTimed && now - s.startTime > s.timeLimitMinutes * 60000
  {
    var b := CalculateCost(s, now);
    if b.durationMinutes > s.timeLimitMinutes {
      MulMonotone(s.timeLimitMinutes, b.durationMinutes - 1, 60000);
    } else {
      MulMonotone(b.durationMinutes, s.timeLimitMinutes, 60000);
    }
  }

  /** The prepaid base of a timed session does not depend on the clock. */
  lemma TimedBaseIndependentOfClock(s: Session, now1: int, now2: int)
    requires s.isTimed
    ensures CalculateCost(s, now1).baseCost == CalculateCost(s, now2).baseCost
  {
  }

  /** An open session is never in overtime and its whole charge is the base. */
  lemma OpenNeverOvertime(s: Session, now: int)
    requires !s.isTimed
    ensures !CalculateCost(s, now).isOvertime
    ensures CalculateCost(s, now).overtimeCost == 0.0
    ensures CalculateCost(s, now).totalCost == Ceil(CalculateCost(s, now).baseCost)
  {
  }

  /** Once a timed session is in overtime it stays there as the clock advances. */
  lemma OvertimePersists(s: Session, now1: int, now2: int)
    requires now1 <= now2
    requires CalculateCost(s, now1).isOvertime
    ensures CalculateCost(s, now2).isOvertime
    ensures CalculateCost(s, now1).overtimeMinutes <= CalculateCost(s, now2).overtimeMinutes
  {
    CeilDivMonotone(now1 - s.startTime, now2 - s.startTime, 60000);
  }

  /** With a non-negative rate the bill never goes down as time passes. */
  lemma TotalCostMonotone(s: Session, now1: int, now2: int)
    requires now1 <= now2
    requires s.hourlyRate >= 0.0
    ensures CalculateCost(s, now1).totalCost <= CalculateCost(s, now2).totalCost
  {
    var b1 := CalculateCost(s, now1);
    var b2 := CalculateCost(s, now2);
    CeilDivMonotone(now1 - s.startTime, now2 - s.startTime, 60000);
    CostIsChargedMinutes(s, now1);
    CostIsChargedMinutes(s, now2);
    var c1 := ChargedMinutes(s, b1.durationMinutes) as real;
    var c2 := ChargedMinutes(s, b2.durationMinutes) as real;
    assert c1 <= c2;
    assert c1 * s.hourlyRate <= c2 * s.hourlyRate by {
      assert (c2 - c1) * s.hourlyRate >= 0.0;
    }
    CeilMonotone(b1.baseCost + b1.overtimeCost, b2.baseCost + b2.overtimeCost);
  }

  /** A partial minute bills as a whole one: 61 s is 2 minutes, 60 s is 1. */
  lemma PartialMinuteBillsWhole()
    ensures BilledMinutes(61000) == 2
    ensures BilledMinutes(60000) == 1
    ensures BilledMinutes(0) == 0
  {
  }

  /** Ten booked minutes at 30 an hour, used for twelve: 5 prepaid, 1 overtime, 6 in all. */
  lemma TimedOvertimeExample()
    ensures var s := Session(1, 0, 1, "g", 30.0, true, 10, []);
            var b := CalculateCost(s, 12 * 60000);
            && b.baseCost == 5.0 && b.isOvertime && b.overtimeMinutes == 2
            && b.overtimeCost == 1.0 && b.totalCost == 6
  {
    var s := Session(1, 0, 1, "g", 30.0, true, 10, []);
    CeilUnique(6.0, 6);
  }

  /** An open session of 45 minutes at 20 an hour costs 15; one of 61 s at 15 an hour bills 2 minutes. */
  lemma OpenExamples()
    ensures CalculateCost(Session(1, 0, 1, "g", 20.0, false, 0, []), 45 * 60000).totalCost == 15
    ensures CalculateCost(Session(1, 0, 1, "g", 15.0, false, 0, []), 61000).baseCost == 0.5
  {
    CeilUnique(15.0, 15);
  }

  /**
   Ten booked minutes at 25 an hour, used for sixty: 50 overtime minutes and a
   base plus overtime of exactly 25, so the bill is 25 with no rounding up.
   */
  lemma WholeSumExample()
    ensures var b := CalculateCost(Session(1, 0, 2, "m", 25.0, true, 10, []), 60 * 60000);
            && b.isOvertime && b.overtimeMinutes == 50
            && b.baseCost + b.overtimeCost == 25.0 && b.totalCost == 25
  {
    CeilUnique(25.0, 25);
  }
}
