/** The voting status banner: whether voting has ended and the time left,
    split into days, hours and minutes. Instants are integer milliseconds
    (`Date.getTime()`). */
module VotingStatus {

  /** `endDate <= now` */
  predicate IsExpired(end: int, now: int)
  {
    end <= now
  }

  /** `Math.max(0, Math.floor((end - now) / 1000))`. Dafny's `/` with a
      positive divisor rounds toward negative infinity, as `Math.floor` does. */
  function TotalSeconds(end: int, now: int): (t: nat)
    ensures now < end ==> t * 1000 <= end - now < t * 1000 + 1000
    ensures end <= now ==> t == 0
  {
    if (end - now) / 1000 < 0 then 0 else (end - now) / 1000
  }

  datatype Remaining = Remaining(days: nat, hours: nat, minutes: nat)

  const SecondsPerDay := 24 * 60 * 60
  const SecondsPerHour := 60 * 60

  /** `getTimeRemaining` */
  function TimeRemaining(end: int, now: int): Remaining
  {
    var t := TotalSeconds(end, now);
    Remaining(t / SecondsPerDay, (t % SecondsPerDay) / SecondsPerHour, (t % SecondsPerHour) / 60)
  }

  /** Hours and minutes stay below 24 and 60, and the three fields put back
      together give the remaining whole seconds rounded down to the minute. */
  lemma TimeRemainingDecomposes(end: int, now: int)
    ensures var r := TimeRemaining(end, now);
            var t := TotalSeconds(end, now);
            && r.hours < 24 && r.minutes < 60
            && r.days * 86400 + r.hours * 3600 + r.minutes * 60 <= t
            && t < r.days * 86400 + r.hours * 3600 + r.minutes * 60 + 60
  {
    var t := TotalSeconds(end, now);
    var d, rd := t / 86400, t % 86400;
    assert t == d * 86400 + rd;
    var h := rd / 3600;
    assert rd == h * 3600 + rd % 3600;
    assert t % 3600 == rd % 3600 by {
      assert t == (d * 24) * 3600 + rd;
      ModAfterMultiple(d * 24, rd);
    }
  }

  /** Whole hours added in front do not change the seconds past the hour. */
  lemma {:induction false} ModAfterMultiple(q: nat, r: nat)
    ensures (q * 3600 + r) % 3600 == r % 3600
  {
    if q > 0 {
      ModAfterMultiple(q - 1, r);
      assert q * 3600 + r == ((q - 1) * 3600 + r) + 3600;
    }
  }

  /** Once voting has ended every field is 0. */
  lemma ExpiredShowsZero(end: int, now: int)
    requires IsExpired(end, now)
    ensures TimeRemaining(end, now) == Remaining(0, 0, 0)
  {
  }

  /** A voting end set `offset` whole minutes after `now`, with hours below 24
      and minutes below 60, shows exactly those days, hours and minutes when
      read at `now`. */
  lemma RemainingRecoversOffset(now: int, days: nat, hours: nat, minutes: nat)
    requires hours < 24 && minutes < 60
    ensures var end := now + (days * 1440 + hours * 60 + minutes) * 60000;
            TimeRemaining(end, now) == Remaining(days, hours, minutes)
  {
    var end := now + (days * 1440 + hours * 60 + minutes) * 60000;
    var t := days * 86400 + hours * 3600 + minutes * 60;
    assert end - now == t * 1000;
    assert TotalSeconds(end, now) == t;
    var rd := hours * 3600 + minutes * 60;
    assert rd < 86400;
    assert t / 86400 == days && t % 86400 == rd by {
      assert t == days * 86400 + rd;
    }
    assert rd / 3600 == hours by {
      assert rd == hours * 3600 + minutes * 60;
    }
    assert t % 3600 == minutes * 60 by {
      assert t == (days * 24 + hours) * 3600 + minutes * 60;
      ModAfterMultiple(days * 24 + hours, minutes * 60);
    }
  }
}
