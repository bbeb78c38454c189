/**
 * The slot generator `generateAvailableSlots`. The source holds it twice with the same
 * logic (a helper of the appointment controller and a method of the conversation
 * manager); both are this one model. Times are minutes since midnight.
 *
 * The loop advances its cursor by the service duration in the loop test and again by
 * the slot duration at the end of the body, so successive candidate starts lie
 * `serviceDuration + slotDuration` apart.
 */
module Slots {

  /** An occupied window `[start, start + duration)` of an existing booking. */
  datatype Interval = Interval(start: int, duration: int)

  /** `slotStart < occ.end && slotEnd > occ.start`: overlap that is more than a shared endpoint. */
  predicate StrictlyOverlaps(slotStart: int, slotEnd: int, occ: Interval) {
    slotStart < occ.start + occ.duration && slotEnd > occ.start
  }

  /** `occupied.some(...)`: the intervals are tried in order until one overlaps. */
  predicate IsOccupied(slotStart: int, slotEnd: int, occupied: seq<Interval>) {
    |occupied| > 0 && (StrictlyOverlaps(slotStart, slotEnd, occupied[0]) || IsOccupied(slotStart, slotEnd, occupied[1..]))
  }

  /** A window is occupied exactly when some occupied interval strictly overlaps it. */
  lemma {:induction false} IsOccupiedExactly(slotStart: int, slotEnd: int, occupied: seq<Interval>)
    ensures IsOccupied(slotStart, slotEnd, occupied)
        <==> exists i | 0 <= i < |occupied| :: StrictlyOverlaps(slotStart, slotEnd, occupied[i])
  {
    if |occupied| > 0 {
      IsOccupiedExactly(slotStart, slotEnd, occupied[1..]);
      if IsOccupied(slotStart, slotEnd, occupied[1..]) {
        var i :| 0 <= i < |occupied[1..]| && StrictlyOverlaps(slotStart, slotEnd, occupied[1..][i]);
        assert StrictlyOverlaps(slotStart, slotEnd, occupied[i + 1]);
      }
      if exists i | 0 <= i < |occupied| :: StrictlyOverlaps(slotStart, slotEnd, occupied[i]) {
        var i :| 0 <= i < |occupied| && StrictlyOverlaps(slotStart, slotEnd, occupied[i]);
        if i > 0 {
          assert occupied[1..][i - 1] == occupied[i];
        }
      }
    }
  }

  /** The loop stops exactly when the cursor moves forward or the first test already fails. */
  predicate Terminates(openTime: int, closeTime: int, slotDuration: int, serviceDuration: int) {
    serviceDuration + slotDuration > 0 || openTime + serviceDuration > closeTime
  }

  /** The k-th candidate start after `start` when candidates lie `step` apart. */
  function Candidate(start: int, step: int, k: nat): int {
    start + k * step
  }

  ghost predicate OnGrid(s: int, start: int, step: int) {
    exists k: nat :: s == Candidate(start, step, k)
  }

  /** The free candidates from `start` on, in the order the loop visits them. */
  function FreeFrom(start: int, closeTime: int, slotDuration: int, serviceDuration: int, occupied: seq<Interval>): seq<int>
    requires Terminates(start, closeTime, slotDuration, serviceDuration)
    decreases closeTime - start - serviceDuration
  {
    if start + serviceDuration > closeTime then []
    else
      (if IsOccupied(start, start + serviceDuration, occupied) then [] else [start])
      + FreeFrom(start + serviceDuration + slotDuration, closeTime, slotDuration, serviceDuration, occupied)
  }

  /** What `generateAvailableSlots(open, close, slot, service, occupied)` returns. */
  function AvailableSlots(openTime: int, closeTime: int, slotDuration: int, serviceDuration: int, occupied: seq<Interval>): seq<int>
    requires Terminates(openTime, closeTime, slotDuration, serviceDuration)
  {
    if openTime + serviceDuration > closeTime then []
    else FreeFrom(openTime, closeTime, slotDuration, serviceDuration, occupied)
  }

  /**
   * The loop of the source. `current.add(serviceDuration)` in the loop test mutates the
   * cursor, so the test is an assignment followed by a comparison.
   */
  method GenerateAvailableSlots(openTime: int, closeTime: int, slotDuration: int, serviceDuration: int, occupiedSlots: seq<Interval>)
    returns (slots: seq<int>)
    requires Terminates(openTime, closeTime, slotDuration, serviceDuration)
    ensures slots == AvailableSlots(openTime, closeTime, slotDuration, serviceDuration, occupiedSlots)
  {
    slots := [];
    var current := openTime;
    current := current + serviceDuration;
    while current <= closeTime
      invariant Terminates(current - serviceDuration, closeTime, slotDuration, serviceDuration)
      invariant Scan(slots, current - serviceDuration, closeTime, slotDuration, serviceDuration, occupiedSlots)
             == Scan([], openTime, closeTime, slotDuration, serviceDuration, occupiedSlots)
      decreases closeTime - current
    {
      var slotStart := current - serviceDuration;
      var slotEnd := current;
      var isOccupied := IsOccupied(slotStart, slotEnd, occupiedSlots);
      if !isOccupied {
        slots := slots + [slotStart];
      }
      current := current + slotDuration;
      current := current + serviceDuration;
    }
    ScanIsFreeFrom([], openTime, closeTime, slotDuration, serviceDuration, occupiedSlots);
    assert [] + FreeFrom(openTime, closeTime, slotDuration, serviceDuration, occupiedSlots)
        == AvailableSlots(openTime, closeTime, slotDuration, serviceDuration, occupiedSlots);
  }

  /** The loop's own view of the result: the kept starts so far, then the rest of the day scanned. */
  function Scan(acc: seq<int>, start: int, closeTime: int, slotDuration: int, serviceDuration: int, occupied: seq<Interval>): seq<int>
    requires Terminates(start, closeTime, slotDuration, serviceDuration)
    decreases closeTime - start - serviceDuration
  {
    if start + serviceDuration > closeTime then acc
    else
      Scan(if IsOccupied(start, start + serviceDuration, occupied) then acc else acc + [start],
           start + serviceDuration + slotDuration, closeTime, slotDuration, serviceDuration, occupied)
  }

  lemma {:induction false} ScanIsFreeFrom(acc: seq<int>, start: int, closeTime: int, slotDuration: int, serviceDuration: int, occupied: seq<Interval>)
    requires Terminates(start, closeTime, slotDuration, serviceDuration)
    ensures Scan(acc, start, closeTime, slotDuration, serviceDuration, occupied)
         == acc + FreeFrom(start, closeTime, slotDuration, serviceDuration, occupied)
    decreases closeTime - start - serviceDuration
  {
    if start + serviceDuration > closeTime {
      assert acc + [] == acc;
    } else {
      var next := start + serviceDuration + slotDuration;
      var rest := FreeFrom(next, closeTime, slotDuration, serviceDuration, occupied);
      if IsOccupied(start, start + serviceDuration, occupied) {
        ScanIsFreeFrom(acc, next, closeTime, slotDuration, serviceDuration, occupied);
        assert FreeFrom(start, closeTime, slotDuration, serviceDuration, occupied) == [] + rest == rest;
      } else {
        ScanIsFreeFrom(acc + [start], next, closeTime, slotDuration, serviceDuration, occupied);
        assert FreeFrom(start, closeTime, slotDuration, serviceDuration, occupied) == [start] + rest;
        assert acc + ([start] + rest) == (acc + [start]) + rest;
      }
    }
  }

  lemma {:induction false} FreeFromSound(start: int, closeTime: int, slotDuration: int, serviceDuration: int, occupied: seq<Interval>, s: int)
    requires serviceDuration + slotDuration > 0
    requires s in FreeFrom(start, closeTime, slotDuration, serviceDuration, occupied)
    ensures OnGrid(s, start, serviceDuration + slotDuration)
    ensures s + serviceDuration <= closeTime
    ensures !IsOccupied(s, s + serviceDuration, occupied)
    decreases closeTime - start - serviceDuration
  {
    var step := serviceDuration + slotDuration;
    if s == start && !IsOccupied(start, start + serviceDuration, occupied) {
      assert s == Candidate(start, step, 0);
    } else {
      FreeFromSound(start + step, closeTime, slotDuration, serviceDuration, occupied, s);
      var k: nat :| s == Candidate(start + step, step, k);
      assert s == Candidate(start, step, k + 1);
    }
  }

  lemma {:induction false} FreeFromComplete(start: int, closeTime: int, slotDuration: int, serviceDuration: int, occupied: seq<Interval>, k: nat)
    requires serviceDuration + slotDuration > 0
    requires Candidate(start, serviceDuration + slotDuration, k) + serviceDuration <= closeTime
    requires !IsOccupied(Candidate(start, serviceDuration + slotDuration, k), Candidate(start, serviceDuration + slotDuration, k) + serviceDuration, occupied)
    ensures Candidate(start, serviceDuration + slotDuration, k) in FreeFrom(start, closeTime, slotDuration, serviceDuration, occupied)
    decreases k
  {
    var step := serviceDuration + slotDuration;
    assert k * step >= 0;
    if k > 0 {
      assert Candidate(start, step, k) == Candidate(start + step, step, k - 1);
      FreeFromComplete(start + step, closeTime, slotDuration, serviceDuration, occupied, k - 1);
    }
  }

  /**
   * A start time is returned exactly when it is a candidate `open + k * (serviceDuration +
   * slotDuration)`, its service window ends by closing time, and the window strictly
   * overlaps no occupied interval (touching one at an endpoint is allowed).
   */
  lemma AvailableSlotsExactly(openTime: int, closeTime: int, slotDuration: int, serviceDuration: int, occupied: seq<Interval>, s: int)
    requires serviceDuration + slotDuration > 0
    ensures s in AvailableSlots(openTime, closeTime, slotDuration, serviceDuration, occupied)
        <==> && OnGrid(s, openTime, serviceDuration + slotDuration)
             && s + serviceDuration <= closeTime
             && !IsOccupied(s, s + serviceDuration, occupied)
  {
    var step := serviceDuration + slotDuration;
    if s in AvailableSlots(openTime, closeTime, slotDuration, serviceDuration, occupied) {
      FreeFromSound(openTime, closeTime, slotDuration, serviceDuration, occupied, s);
    }
    if OnGrid(s, openTime, step) && s + serviceDuration <= closeTime && !IsOccupied(s, s + serviceDuration, occupied) {
      var k: nat :| s == Candidate(openTime, step, k);
      assert k * step >= 0;
      FreeFromComplete(openTime, closeTime, slotDuration, serviceDuration, occupied, k);
    }
  }

  /** Every element of `r` is at least `low`. */
  predicate AllAtLeast(r: seq<int>, low: int) {
    forall i | 0 <= i < |r| :: low <= r[i]
  }

  /** Each element of `r` is at least `gap` below every later one. */
  predicate Spaced(r: seq<int>, gap: int) {
    forall i, j | 0 <= i < j < |r| :: r[i] + gap <= r[j]
  }

  lemma PrependSpaced(x: int, rest: seq<int>, gap: int)
    requires AllAtLeast(rest, x + gap) && Spaced(rest, gap)
    ensures Spaced([x] + rest, gap)
  {
    var r := [x] + rest;
    forall i, j | 0 <= i < j < |r| ensures r[i] + gap <= r[j] {
      assert r[j] == rest[j - 1];
      if i > 0 {
        assert r[i] == rest[i - 1];
      }
    }
  }

  lemma {:induction false} FreeFromAscending(start: int, closeTime: int, slotDuration: int, serviceDuration: int, occupied: seq<Interval>)
    requires serviceDuration + slotDuration > 0
    ensures AllAtLeast(FreeFrom(start, closeTime, slotDuration, serviceDuration, occupied), start)
    ensures Spaced(FreeFrom(start, closeTime, slotDuration, serviceDuration, occupied), serviceDuration + slotDuration)
    decreases closeTime - start - serviceDuration
  {
    if start + serviceDuration <= closeTime {
      var step := serviceDuration + slotDuration;
      FreeFromAscending(start + step, closeTime, slotDuration, serviceDuration, occupied);
      var rest := FreeFrom(start + step, closeTime, slotDuration, serviceDuration, occupied);
      if !IsOccupied(start, start + serviceDuration, occupied) {
        PrependSpaced(start, rest, step);
        assert FreeFrom(start, closeTime, slotDuration, serviceDuration, occupied) == [start] + rest;
        var r := [start] + rest;
        assert forall i | 0 < i < |r| :: r[i] == rest[i - 1];
      }
    }
  }

  /**
   * Every returned start lies within business hours with its whole service window, and the
   * list ascends strictly, consecutive starts at least `serviceDuration + slotDuration` apart.
   */
  lemma AvailableSlotsInHoursAndAscending(openTime: int, closeTime: int, slotDuration: int, serviceDuration: int, occupied: seq<Interval>)
    requires Terminates(openTime, closeTime, slotDuration, serviceDuration)
    ensures forall s :: s in AvailableSlots(openTime, closeTime, slotDuration, serviceDuration, occupied) ==>
      openTime <= s && s + serviceDuration <= closeTime
    ensures forall i, j :: 0 <= i < j < |AvailableSlots(openTime, closeTime, slotDuration, serviceDuration, occupied)| ==>
      AvailableSlots(openTime, closeTime, slotDuration, serviceDuration, occupied)[i] + serviceDuration + slotDuration
      <= AvailableSlots(openTime, closeTime, slotDuration, serviceDuration, occupied)[j]
  {
    if openTime + serviceDuration <= closeTime {
      FreeFromAscending(openTime, closeTime, slotDuration, serviceDuration, occupied);
      forall s | s in AvailableSlots(openTime, closeTime, slotDuration, serviceDuration, occupied)
        ensures s + serviceDuration <= closeTime
      {
        FreeFromSound(openTime, closeTime, slotDuration, serviceDuration, occupied, s);
      }
    }
  }

  /** A service longer than the business day has no slot at all. */
  lemma NoSlotsWhenServiceTooLong(openTime: int, closeTime: int, slotDuration: int, serviceDuration: int, occupied: seq<Interval>)
    requires serviceDuration > closeTime - openTime
    ensures Terminates(openTime, closeTime, slotDuration, serviceDuration)
    ensures AvailableSlots(openTime, closeTime, slotDuration, serviceDuration, occupied) == []
  {
  }

  /** The number of candidates from `start` on. */
  function CandidateCount(start: int, closeTime: int, serviceDuration: int, step: int): nat
    requires step > 0
  {
    if start + serviceDuration > closeTime then 0 else (closeTime - start - serviceDuration) / step + 1
  }

  lemma CandidateCountStep(start: int, closeTime: int, serviceDuration: int, step: int)
    requires step > 0 && start + serviceDuration <= closeTime
    ensures CandidateCount(start, closeTime, serviceDuration, step)
      == CandidateCount(start + step, closeTime, serviceDuration, step) + 1
  {
    var x := closeTime - start - serviceDuration;
    if x >= step {
      DivStep(x, step);
    } else {
      assert x / step == 0;
    }
  }

  lemma DivStep(x: int, step: int)
    requires step > 0 && x >= step
    ensures x / step == (x - step) / step + 1
  {
    var q := (x - step) / step;
    var r := (x - step) % step;
    assert x - step == q * step + r;
    assert x == (q + 1) * step + r by {
      assert (q + 1) * step == q * step + step;
    }
    DivUnique(x, step, q + 1, r);
  }

  lemma DivUnique(x: int, d: int, q: int, r: int)
    requires d > 0 && 0 <= r < d && x == q * d + r
    ensures x / d == q
  {
    var q' := x / d;
    var r' := x % d;
    assert x == q' * d + r';
    assert (q' - q) * d == r - r' by {
      assert (q' - q) * d == q' * d - q * d;
    }
    if q' > q {
      MulAtLeast(q' - q, d);
      assert false;
    } else if q' < q {
      MulAtLeast(q - q', d);
      assert false;
    }
  }

  lemma {:induction false} MulAtLeast(a: int, d: int)
    requires a >= 1 && d > 0
    ensures a * d >= d
    decreases a
  {
    if a > 1 {
      MulAtLeast(a - 1, d);
      assert a * d == (a - 1) * d + d;
    }
  }

  /** The candidates after the first are those of the next start. */
  lemma CandidateShift(start: int, step: int, k: nat)
    requires k >= 1
    ensures Candidate(start, step, k) == Candidate(start + step, step, k - 1)
  {
    assert k * step == (k - 1) * step + step;
  }

  lemma {:induction false} FreeFromNoBookings(start: int, closeTime: int, slotDuration: int, serviceDuration: int)
    requires serviceDuration + slotDuration > 0
    ensures FreeFrom(start, closeTime, slotDuration, serviceDuration, [])
      == seq(CandidateCount(start, closeTime, serviceDuration, serviceDuration + slotDuration),
             k requires k >= 0 => Candidate(start, serviceDuration + slotDuration, k))
    decreases closeTime - start - serviceDuration
  {
    var step := serviceDuration + slotDuration;
    if start + serviceDuration <= closeTime {
      FreeFromNoBookings(start + step, closeTime, slotDuration, serviceDuration);
      var n := CandidateCount(start, closeTime, serviceDuration, step);
      CandidateCountStep(start, closeTime, serviceDuration, step);
      var rest := FreeFrom(start + step, closeTime, slotDuration, serviceDuration, []);
      assert !IsOccupied(start, start + serviceDuration, []);
      forall k | 0 <= k < n
        ensures ([start] + rest)[k] == Candidate(start, step, k)
      {
        if k > 0 {
          assert rest[k - 1] == Candidate(start + step, step, k - 1);
          CandidateShift(start, step, k);
        }
      }
    }
  }

  /**
   * With no bookings the result is every candidate that fits:
   * `(close - open - serviceDuration) / (serviceDuration + slotDuration) + 1` evenly spaced starts.
   */
  lemma NoBookingsClosedForm(openTime: int, closeTime: int, slotDuration: int, serviceDuration: int)
    requires serviceDuration + slotDuration > 0
    ensures AvailableSlots(openTime, closeTime, slotDuration, serviceDuration, [])
      == seq(CandidateCount(openTime, closeTime, serviceDuration, serviceDuration + slotDuration),
             k requires k >= 0 => Candidate(openTime, serviceDuration + slotDuration, k))
  {
    FreeFromNoBookings(openTime, closeTime, slotDuration, serviceDuration);
  }

  /** 09:00-18:00 with 30-minute slots and a 30-minute service: nine slots, 09:00, 10:00, ..., 17:00. */
  lemma NineToSixExample()
    ensures AvailableSlots(540, 1080, 30, 30, []) == [540, 600, 660, 720, 780, 840, 900, 960, 1020]
  {
    NoBookingsClosedForm(540, 1080, 30, 30);
    assert CandidateCount(540, 1080, 30, 60) == 9;
  }
}
