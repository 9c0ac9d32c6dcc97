/** One tick of the expiry scheduler (`ReservationScheduler.checkAndUpdateReservations`),
    taking the clock reading `now` as a parameter. */
module Scheduling {
  import opened Sequences
  import opened Spots
  import opened Reservations
  import opened SpotRegistries
  import opened ReservationRegistries

  /** Positions of `snapshot`, in the order the tick visited them. */
  ghost predicate Positions(snapshot: seq<Reservation>, visits: seq<nat>) {
    forall j :: 0 <= j < |visits| ==> visits[j] < |snapshot|
  }

  /** The reservation list after `ReservationRegistry.Update` has been called,
      in order, with the snapshot entries at the positions `visits`, starting
      from `store`: each call replaces the first entry with the same id. */
  ghost function ReplayReservations(store: seq<Reservation>, snapshot: seq<Reservation>, visits: seq<nat>): seq<Reservation>
    requires Positions(snapshot, visits)
  {
    if visits == [] then store
    else
      var cur := ReplayReservations(store, snapshot, visits[..|visits| - 1]);
      var r := snapshot[visits[|visits| - 1]];
      if r.reservationId in Ids(cur) then cur[ReservationIndex(cur, r.reservationId) := r] else cur
  }

  /** The spot list after `SpotRegistry.Update` has been called, in order, with
      the spots of the snapshot entries at the positions `visits`, starting from
      `spots`: each call replaces the first spot with the same number. */
  ghost function ReplaySpots(spots: seq<ParkingSpot>, snapshot: seq<Reservation>, visits: seq<nat>): seq<ParkingSpot>
    requires Positions(snapshot, visits)
  {
    if visits == [] then spots
    else
      var cur := ReplaySpots(spots, snapshot, visits[..|visits| - 1]);
      var s := snapshot[visits[|visits| - 1]].spot;
      if s.spotNumber in Numbers(cur) then cur[SpotIndex(cur, s.spotNumber) := s] else cur
  }

  /** One more reservation update, at position `i` of the snapshot. */
  lemma ReplayReservationsStep(store: seq<Reservation>, snapshot: seq<Reservation>, visits: seq<nat>, i: nat)
    requires Positions(snapshot, visits) && i < |snapshot|
    ensures Positions(snapshot, visits + [i])
    ensures var cur := ReplayReservations(store, snapshot, visits);
            var r := snapshot[i];
            ReplayReservations(store, snapshot, visits + [i]) ==
              if r.reservationId in Ids(cur) then cur[ReservationIndex(cur, r.reservationId) := r] else cur
  {
    assert (visits + [i])[..|visits|] == visits;
  }

  /** One more spot update, with the spot of position `i` of the snapshot. */
  lemma ReplaySpotsStep(spots: seq<ParkingSpot>, snapshot: seq<Reservation>, visits: seq<nat>, i: nat)
    requires Positions(snapshot, visits) && i < |snapshot|
    ensures Positions(snapshot, visits + [i])
    ensures var cur := ReplaySpots(spots, snapshot, visits);
            var s := snapshot[i].spot;
            ReplaySpots(spots, snapshot, visits + [i]) ==
              if s.spotNumber in Numbers(cur) then cur[SpotIndex(cur, s.spotNumber) := s] else cur
  {
    assert (visits + [i])[..|visits|] == visits;
  }

  /** Replacing an entry by one with the same id keeps the ids of the list. */
  lemma ReplaceKeepsIds(cur: seq<Reservation>, i: nat, r: Reservation)
    requires i < |cur| && cur[i].reservationId == r.reservationId
    ensures Ids(cur[i := r]) == Ids(cur)
  {
    assert forall k :: 0 <= k < |cur| ==> Ids(cur[i := r])[k] == Ids(cur)[k];
  }

  /** Replacing a spot by one with the same number keeps the numbers of the list. */
  lemma ReplaceKeepsNumbers(cur: seq<ParkingSpot>, i: nat, s: ParkingSpot)
    requires i < |cur| && cur[i].spotNumber == s.spotNumber
    ensures Numbers(cur[i := s]) == Numbers(cur)
  {
    assert forall k :: 0 <= k < |cur| ==> Numbers(cur[i := s])[k] == Numbers(cur)[k];
  }

  /** The tick's updates keep the length and the id at every position. */
  lemma {:induction false} ReplayKeepsIds(store: seq<Reservation>, snapshot: seq<Reservation>, visits: seq<nat>)
    requires Positions(snapshot, visits)
    ensures |ReplayReservations(store, snapshot, visits)| == |store|
    ensures Ids(ReplayReservations(store, snapshot, visits)) == Ids(store)
  {
    if visits != [] {
      var prefix := visits[..|visits| - 1];
      ReplayKeepsIds(store, snapshot, prefix);
      var cur := ReplayReservations(store, snapshot, prefix);
      var r := snapshot[visits[|visits| - 1]];
      if r.reservationId in Ids(cur) {
        ReplaceKeepsIds(cur, ReservationIndex(cur, r.reservationId), r);
      }
    }
  }

  /** The tick's spot updates keep the length and the number at every position. */
  lemma {:induction false} ReplayKeepsNumbers(spots: seq<ParkingSpot>, snapshot: seq<Reservation>, visits: seq<nat>)
    requires Positions(snapshot, visits)
    ensures |ReplaySpots(spots, snapshot, visits)| == |spots|
    ensures Numbers(ReplaySpots(spots, snapshot, visits)) == Numbers(spots)
  {
    if visits != [] {
      var prefix := visits[..|visits| - 1];
      ReplayKeepsNumbers(spots, snapshot, prefix);
      var cur := ReplaySpots(spots, snapshot, prefix);
      var s := snapshot[visits[|visits| - 1]].spot;
      if s.spotNumber in Numbers(cur) {
        ReplaceKeepsNumbers(cur, SpotIndex(cur, s.spotNumber), s);
      }
    }
  }

  /** Every entry of `list` is one of `snapshot`. */
  ghost predicate DrawnFrom(list: seq<Reservation>, snapshot: seq<Reservation>) {
    forall i :: 0 <= i < |list| ==> list[i] in snapshot
  }

  /** The tick's updates only put snapshot entries into the store it took the
      snapshot from, so the replayed list is still drawn from the snapshot,
      whatever the ids. */
  lemma {:induction false} ReplayWithin(snapshot: seq<Reservation>, visits: seq<nat>)
    requires Positions(snapshot, visits)
    ensures DrawnFrom(ReplayReservations(snapshot, snapshot, visits), snapshot)
  {
    if visits != [] {
      var prefix := visits[..|visits| - 1];
      ReplayWithin(snapshot, prefix);
      var cur := ReplayReservations(snapshot, snapshot, prefix);
      var r := snapshot[visits[|visits| - 1]];
      var next := ReplayReservations(snapshot, snapshot, visits);
      forall i | 0 <= i < |next| ensures next[i] in snapshot {
        if r.reservationId in Ids(cur) && i == ReservationIndex(cur, r.reservationId) {
          assert next[i] == r;
        } else {
          assert next[i] == cur[i];
        }
      }
    }
  }

  /** With unique ids, updating the store with its own entries changes nothing. */
  lemma {:induction false} ReplayOfStoredReservations(snapshot: seq<Reservation>, visits: seq<nat>)
    requires Positions(snapshot, visits) && Unique(Ids(snapshot))
    ensures ReplayReservations(snapshot, snapshot, visits) == snapshot
  {
    if visits != [] {
      ReplayOfStoredReservations(snapshot, visits[..|visits| - 1]);
      FirstIndexOfUnique(Ids(snapshot), visits[|visits| - 1]);
    }
  }

  /** With unique numbers, updating the spot store with spots it holds changes nothing. */
  lemma {:induction false} ReplayOfStoredSpots(spots: seq<ParkingSpot>, snapshot: seq<Reservation>, visits: seq<nat>)
    requires Positions(snapshot, visits) && Unique(Numbers(spots))
    requires forall j :: 0 <= j < |visits| ==> snapshot[visits[j]].spot in spots
    ensures ReplaySpots(spots, snapshot, visits) == spots
  {
    if visits != [] {
      ReplayOfStoredSpots(spots, snapshot, visits[..|visits| - 1]);
      var s := snapshot[visits[|visits| - 1]].spot;
      var j :| 0 <= j < |spots| && spots[j] == s;
      FirstIndexOfUnique(Numbers(spots), j);
    }
  }

  /** The end times of a list of reservations, position by position. */
  function EndTimes(reservations: seq<Reservation>): (r: seq<int>)
    reads reservations
    ensures |r| == |reservations|
    ensures forall k :: 0 <= k < |reservations| ==> r[k] == reservations[k].endTime
  {
    seq(|reservations|, k requires 0 <= k < |reservations| reads reservations => reservations[k].endTime)
  }

  /** The statuses of a list of reservations, position by position. */
  function Statuses(reservations: seq<Reservation>): (r: seq<Status>)
    reads reservations
    ensures |r| == |reservations|
    ensures forall k :: 0 <= k < |reservations| ==> r[k] == reservations[k].status
  {
    seq(|reservations|, k requires 0 <= k < |reservations| reads reservations => reservations[k].status)
  }

  /** Whether the spot of each reservation of a list is occupied, position by position. */
  function Occupancy(reservations: seq<Reservation>): (r: seq<bool>)
    reads SpotList(reservations)
    ensures |r| == |reservations|
    ensures forall k :: 0 <= k < |reservations| ==> r[k] == reservations[k].spot.occupied
  {
    seq(|reservations|, k requires 0 <= k < |reservations| reads SpotList(reservations) => SpotList(reservations)[k].occupied)
  }

  /** The tick's test: still ACTIVE, and the window ended strictly before `now`. */
  predicate Expired(endTime: int, status: Status, now: int) {
    endTime < now && status == Active
  }

  /** No reservation of the list is expired at `now`. */
  predicate Settled(list: seq<Reservation>, now: int)
    reads list
  {
    forall i :: 0 <= i < |list| ==> !Expired(list[i].endTime, list[i].status, now)
  }

  /** `statuses` after `complete()` on the object `r`: every position of
      `snapshot` that holds `r` reads COMPLETED. */
  function MarkCompleted(snapshot: seq<Reservation>, statuses: seq<Status>, r: Reservation): (m: seq<Status>)
    requires |statuses| == |snapshot|
    ensures |m| == |snapshot|
    ensures forall k :: 0 <= k < |snapshot| ==> m[k] == if snapshot[k] == r then Completed else statuses[k]
  {
    seq(|snapshot|, k requires 0 <= k < |snapshot| => if snapshot[k] == r then Completed else statuses[k])
  }

  /** `occupancy` after `vacate()` on the object `s`: every position of
      `snapshot` whose reservation refers to `s` reads vacant. */
  function MarkVacant(snapshot: seq<Reservation>, occupancy: seq<bool>, s: ParkingSpot): (m: seq<bool>)
    requires |occupancy| == |snapshot|
    ensures |m| == |snapshot|
    ensures forall k :: 0 <= k < |snapshot| ==> m[k] == if snapshot[k].spot == s then false else occupancy[k]
  {
    seq(|snapshot|, k requires 0 <= k < |snapshot| => if snapshot[k].spot == s then false else occupancy[k])
  }

  /** Where the tick stands: the statuses and occupancy flags seen through the
      snapshot, the positions at which it completed a reservation (in order),
      and whether every spot update so far found its spot. */
  datatype Progress = Progress(statuses: seq<Status>, occupancy: seq<bool>, visits: seq<nat>, ok: bool)

  /** The tick over the first `n` positions of `snapshot`, from the given end
      times, statuses and occupancy flags and the spot store's numbers. A spot
      update that finds no spot throws, so nothing after it happens. */
  function Sweep(snapshot: seq<Reservation>, ends: seq<int>, statuses: seq<Status>, occupancy: seq<bool>,
                 numbers: seq<int>, now: int, n: nat): (p: Progress)
    requires |ends| == |snapshot| && |statuses| == |snapshot| && |occupancy| == |snapshot| && n <= |snapshot|
    ensures |p.statuses| == |snapshot| && |p.occupancy| == |snapshot|
    ensures forall j :: 0 <= j < |p.visits| ==> p.visits[j] < n
    ensures forall k :: 0 <= k < |snapshot| ==> p.statuses[k] == statuses[k] || p.statuses[k] == Completed
    decreases n
  {
    if n == 0 then Progress(statuses, occupancy, [], true)
    else
      var p := Sweep(snapshot, ends, statuses, occupancy, numbers, now, n - 1);
      var r := snapshot[n - 1];
      if p.ok && Expired(ends[n - 1], p.statuses[n - 1], now) then
        Progress(MarkCompleted(snapshot, p.statuses, r), MarkVacant(snapshot, p.occupancy, r.spot),
                 p.visits + [n - 1], r.spot.spotNumber in numbers)
      else p
  }

  /** The end times and statuses read through a snapshot agree wherever two
      positions hold the same reservation. */
  ghost predicate Coherent(snapshot: seq<Reservation>, ends: seq<int>, statuses: seq<Status>) {
    && |ends| == |snapshot| && |statuses| == |snapshot|
    && forall j, k :: 0 <= j < |snapshot| && 0 <= k < |snapshot| && snapshot[j] == snapshot[k] ==>
         ends[j] == ends[k] && statuses[j] == statuses[k]
  }

  /** What the heap holds is coherent. */
  lemma HeapIsCoherent(snapshot: seq<Reservation>)
    ensures Coherent(snapshot, EndTimes(snapshot), Statuses(snapshot))
  {
  }

  /** Once a spot update has failed, the rest of the snapshot is not visited. */
  lemma {:induction false} SweepHalts(snapshot: seq<Reservation>, ends: seq<int>, statuses: seq<Status>, occupancy: seq<bool>,
                                      numbers: seq<int>, now: int, m: nat, n: nat)
    requires |ends| == |snapshot| && |statuses| == |snapshot| && |occupancy| == |snapshot| && m <= n <= |snapshot|
    requires m == n || !Sweep(snapshot, ends, statuses, occupancy, numbers, now, m).ok
    ensures Sweep(snapshot, ends, statuses, occupancy, numbers, now, n) == Sweep(snapshot, ends, statuses, occupancy, numbers, now, m)
    decreases n
  {
    if m < n {
      SweepHalts(snapshot, ends, statuses, occupancy, numbers, now, m, n - 1);
      var p := Sweep(snapshot, ends, statuses, occupancy, numbers, now, n - 1);
      assert !p.ok;
      assert Sweep(snapshot, ends, statuses, occupancy, numbers, now, n) == p;
    }
  }

  /** A status changes only from expired to COMPLETED. */
  lemma {:induction false} SweepStatuses(snapshot: seq<Reservation>, ends: seq<int>, statuses: seq<Status>, occupancy: seq<bool>,
      numbers: seq<int>, now: int, n: nat)
    requires Coherent(snapshot, ends, statuses) && |occupancy| == |snapshot| && n <= |snapshot|
    ensures var p := Sweep(snapshot, ends, statuses, occupancy, numbers, now, n);
            forall k :: 0 <= k < |snapshot| ==>
              p.statuses[k] == statuses[k] || (Expired(ends[k], statuses[k], now) && p.statuses[k] == Completed)
    decreases n
  {
    if n > 0 {
      SweepStatuses(snapshot, ends, statuses, occupancy, numbers, now, n - 1);
      var p := Sweep(snapshot, ends, statuses, occupancy, numbers, now, n - 1);
      var r := snapshot[n - 1];
      if p.ok && Expired(ends[n - 1], p.statuses[n - 1], now) {
        assert Sweep(snapshot, ends, statuses, occupancy, numbers, now, n).statuses == MarkCompleted(snapshot, p.statuses, r);
      }
    }
  }

  /** A reservation whose status changed has a vacant spot. */
  lemma {:induction false} SweepVacatesCompleted(snapshot: seq<Reservation>, ends: seq<int>, statuses: seq<Status>, occupancy: seq<bool>,
      numbers: seq<int>, now: int, n: nat)
    requires |ends| == |snapshot| && |statuses| == |snapshot| && |occupancy| == |snapshot| && n <= |snapshot|
    ensures var p := Sweep(snapshot, ends, statuses, occupancy, numbers, now, n);
            forall k :: 0 <= k < |snapshot| && p.statuses[k] != statuses[k] ==> !p.occupancy[k]
    decreases n
  {
    if n > 0 {
      SweepVacatesCompleted(snapshot, ends, statuses, occupancy, numbers, now, n - 1);
      var p := Sweep(snapshot, ends, statuses, occupancy, numbers, now, n - 1);
      var r := snapshot[n - 1];
      if p.ok && Expired(ends[n - 1], p.statuses[n - 1], now) {
        assert Sweep(snapshot, ends, statuses, occupancy, numbers, now, n).statuses == MarkCompleted(snapshot, p.statuses, r);
        assert Sweep(snapshot, ends, statuses, occupancy, numbers, now, n).occupancy == MarkVacant(snapshot, p.occupancy, r.spot);
      }
    }
  }

  /** Occupancy flags `after` differ from `occupancy` only where a position
      became vacant and an expired reservation refers to the same spot. */
  predicate VacatedByExpired(snapshot: seq<Reservation>, ends: seq<int>, statuses: seq<Status>, occupancy: seq<bool>,
      now: int, after: seq<bool>)
    requires |ends| == |snapshot| && |statuses| == |snapshot| && |occupancy| == |snapshot| && |after| == |snapshot|
  {
    forall k :: 0 <= k < |snapshot| && after[k] != occupancy[k] ==>
      !after[k] && exists j :: 0 <= j < |snapshot| && Expired(ends[j], statuses[j], now) && snapshot[j].spot == snapshot[k].spot
  }

  /** The tick only vacates, and only spots of expired reservations. */
  lemma {:induction false} SweepOccupancy(snapshot: seq<Reservation>, ends: seq<int>, statuses: seq<Status>, occupancy: seq<bool>,
      numbers: seq<int>, now: int, n: nat)
    requires |ends| == |snapshot| && |statuses| == |snapshot| && |occupancy| == |snapshot| && n <= |snapshot|
    ensures VacatedByExpired(snapshot, ends, statuses, occupancy, now, Sweep(snapshot, ends, statuses, occupancy, numbers, now, n).occupancy)
    decreases n
  {
    if n > 0 {
      SweepOccupancy(snapshot, ends, statuses, occupancy, numbers, now, n - 1);
      var p := Sweep(snapshot, ends, statuses, occupancy, numbers, now, n - 1);
      var r := snapshot[n - 1];
      if p.ok && Expired(ends[n - 1], p.statuses[n - 1], now) {
        assert Expired(ends[n - 1], statuses[n - 1], now);
        var after := MarkVacant(snapshot, p.occupancy, r.spot);
        assert Sweep(snapshot, ends, statuses, occupancy, numbers, now, n).occupancy == after;
        forall k | 0 <= k < |snapshot| && after[k] != occupancy[k]
          ensures !after[k] && exists j :: 0 <= j < |snapshot| && Expired(ends[j], statuses[j], now) && snapshot[j].spot == snapshot[k].spot
        {
          if snapshot[k].spot == r.spot {
            assert Expired(ends[n - 1], statuses[n - 1], now) && snapshot[n - 1].spot == snapshot[k].spot;
          }
        }
      } else {
        assert Sweep(snapshot, ends, statuses, occupancy, numbers, now, n) == p;
      }
    }
  }

  /** While the tick's `ok` holds after `n` positions, each expired
      reservation among them is COMPLETED and each changed position's spot
      number is registered. */
  predicate SucceededOn(snapshot: seq<Reservation>, ends: seq<int>, statuses: seq<Status>, numbers: seq<int>, now: int,
      n: nat, p: Progress)
    requires |ends| == |snapshot| && |statuses| == |snapshot| && |p.statuses| == |snapshot| && n <= |snapshot|
  {
    p.ok ==>
      && (forall k :: 0 <= k < n && Expired(ends[k], statuses[k], now) ==> p.statuses[k] == Completed)
      && (forall k :: 0 <= k < |snapshot| && p.statuses[k] != statuses[k] ==> snapshot[k].spot.spotNumber in numbers)
  }

  /** Once the tick's `ok` fails after `n` positions, an expired reservation
      among them has a spot number that is not registered. */
  predicate FailedOn(snapshot: seq<Reservation>, ends: seq<int>, statuses: seq<Status>, numbers: seq<int>, now: int,
      n: nat, p: Progress)
    requires |ends| == |snapshot| && |statuses| == |snapshot| && n <= |snapshot|
  {
    !p.ok ==> exists k :: 0 <= k < n && Expired(ends[k], statuses[k], now) && snapshot[k].spot.spotNumber !in numbers
  }

  lemma {:induction false} SweepSucceeds(snapshot: seq<Reservation>, ends: seq<int>, statuses: seq<Status>, occupancy: seq<bool>,
      numbers: seq<int>, now: int, n: nat)
    requires |ends| == |snapshot| && |statuses| == |snapshot| && |occupancy| == |snapshot| && n <= |snapshot|
    ensures SucceededOn(snapshot, ends, statuses, numbers, now, n, Sweep(snapshot, ends, statuses, occupancy, numbers, now, n))
    decreases n
  {
    if n > 0 {
      SweepSucceeds(snapshot, ends, statuses, occupancy, numbers, now, n - 1);
      var p := Sweep(snapshot, ends, statuses, occupancy, numbers, now, n - 1);
      var r := snapshot[n - 1];
      if p.ok && Expired(ends[n - 1], p.statuses[n - 1], now) {
        var q := Progress(MarkCompleted(snapshot, p.statuses, r), MarkVacant(snapshot, p.occupancy, r.spot),
                          p.visits + [n - 1], r.spot.spotNumber in numbers);
        assert Sweep(snapshot, ends, statuses, occupancy, numbers, now, n) == q;
        if q.ok {
          forall k | 0 <= k < n && Expired(ends[k], statuses[k], now) ensures q.statuses[k] == Completed {
            if snapshot[k] != r {
              assert k < n - 1 && q.statuses[k] == p.statuses[k];
            }
          }
          forall k | 0 <= k < |snapshot| && q.statuses[k] != statuses[k] ensures snapshot[k].spot.spotNumber in numbers {
            if snapshot[k] != r {
              assert q.statuses[k] == p.statuses[k];
            }
          }
        }
      } else {
        assert Sweep(snapshot, ends, statuses, occupancy, numbers, now, n) == p;
        if p.ok {
          assert Expired(ends[n - 1], statuses[n - 1], now) ==> p.statuses[n - 1] == Completed;
        }
      }
    }
  }

  lemma {:induction false} SweepFails(snapshot: seq<Reservation>, ends: seq<int>, statuses: seq<Status>, occupancy: seq<bool>,
      numbers: seq<int>, now: int, n: nat)
    requires |ends| == |snapshot| && |statuses| == |snapshot| && |occupancy| == |snapshot| && n <= |snapshot|
    ensures FailedOn(snapshot, ends, statuses, numbers, now, n, Sweep(snapshot, ends, statuses, occupancy, numbers, now, n))
    decreases n
  {
    if n > 0 {
      SweepFails(snapshot, ends, statuses, occupancy, numbers, now, n - 1);
      var p := Sweep(snapshot, ends, statuses, occupancy, numbers, now, n - 1);
      var r := snapshot[n - 1];
      if p.ok && Expired(ends[n - 1], p.statuses[n - 1], now) {
        assert Expired(ends[n - 1], statuses[n - 1], now);
        assert Sweep(snapshot, ends, statuses, occupancy, numbers, now, n).ok == (r.spot.spotNumber in numbers);
      } else {
        assert Sweep(snapshot, ends, statuses, occupancy, numbers, now, n) == p;
      }
    }
  }

  /** Every visited position was expired at the start. */
  predicate VisitsExpired(visits: seq<nat>, ends: seq<int>, statuses: seq<Status>, now: int) {
    forall j :: 0 <= j < |visits| ==>
      visits[j] < |ends| && visits[j] < |statuses| && Expired(ends[visits[j]], statuses[visits[j]], now)
  }

  /** Every position the tick updated held an expired reservation. */
  lemma {:induction false} SweepVisitsExpired(snapshot: seq<Reservation>, ends: seq<int>, statuses: seq<Status>, occupancy: seq<bool>,
      numbers: seq<int>, now: int, n: nat)
    requires |ends| == |snapshot| && |statuses| == |snapshot| && |occupancy| == |snapshot| && n <= |snapshot|
    ensures VisitsExpired(Sweep(snapshot, ends, statuses, occupancy, numbers, now, n).visits, ends, statuses, now)
    decreases n
  {
    if n > 0 {
      SweepVisitsExpired(snapshot, ends, statuses, occupancy, numbers, now, n - 1);
      var p := Sweep(snapshot, ends, statuses, occupancy, numbers, now, n - 1);
      if p.ok && Expired(ends[n - 1], p.statuses[n - 1], now) {
        assert Expired(ends[n - 1], statuses[n - 1], now);
        assert Sweep(snapshot, ends, statuses, occupancy, numbers, now, n).visits == p.visits + [n - 1];
      } else {
        assert Sweep(snapshot, ends, statuses, occupancy, numbers, now, n) == p;
      }
    }
  }

  /** With nothing expired, the tick changes nothing and succeeds. */
  lemma {:induction false} SweepQuiet(snapshot: seq<Reservation>, ends: seq<int>, statuses: seq<Status>, occupancy: seq<bool>,
      numbers: seq<int>, now: int, n: nat)
    requires |ends| == |snapshot| && |statuses| == |snapshot| && |occupancy| == |snapshot| && n <= |snapshot|
    requires forall k :: 0 <= k < |snapshot| ==> !Expired(ends[k], statuses[k], now)
    ensures Sweep(snapshot, ends, statuses, occupancy, numbers, now, n) == Progress(statuses, occupancy, [], true)
    decreases n
  {
    if n > 0 {
      SweepQuiet(snapshot, ends, statuses, occupancy, numbers, now, n - 1);
    }
  }

  /** A tick that succeeds completes every expired reservation and leaves its spot vacant. */
  lemma TickCompletesExpired(snapshot: seq<Reservation>, ends: seq<int>, statuses: seq<Status>, occupancy: seq<bool>,
      numbers: seq<int>, now: int)
    requires |ends| == |snapshot| && |statuses| == |snapshot| && |occupancy| == |snapshot|
    ensures var p := Sweep(snapshot, ends, statuses, occupancy, numbers, now, |snapshot|);
            p.ok ==> forall k :: 0 <= k < |snapshot| && Expired(ends[k], statuses[k], now) ==>
                       p.statuses[k] == Completed && !p.occupancy[k]
  {
    SweepSucceeds(snapshot, ends, statuses, occupancy, numbers, now, |snapshot|);
    SweepVacatesCompleted(snapshot, ends, statuses, occupancy, numbers, now, |snapshot|);
  }

  /** A reservation that is not expired, because it is COMPLETED or its
      window has not ended strictly before `now`, keeps its status. */
  lemma TickKeepsUnexpired(snapshot: seq<Reservation>, ends: seq<int>, statuses: seq<Status>, occupancy: seq<bool>,
      numbers: seq<int>, now: int)
    requires Coherent(snapshot, ends, statuses) && |occupancy| == |snapshot|
    ensures var p := Sweep(snapshot, ends, statuses, occupancy, numbers, now, |snapshot|);
            forall k :: 0 <= k < |snapshot| && !Expired(ends[k], statuses[k], now) ==> p.statuses[k] == statuses[k]
  {
    SweepStatuses(snapshot, ends, statuses, occupancy, numbers, now, |snapshot|);
  }

  /** The tick never occupies a spot, and a spot that no expired reservation
      refers to keeps its occupancy. */
  lemma TickKeepsUnreferencedSpots(snapshot: seq<Reservation>, ends: seq<int>, statuses: seq<Status>, occupancy: seq<bool>,
      numbers: seq<int>, now: int)
    requires |ends| == |snapshot| && |statuses| == |snapshot| && |occupancy| == |snapshot|
    ensures var p := Sweep(snapshot, ends, statuses, occupancy, numbers, now, |snapshot|);
            && (forall k :: 0 <= k < |snapshot| && p.occupancy[k] ==> occupancy[k])
            && (forall k :: 0 <= k < |snapshot| ==>
                  (forall j :: 0 <= j < |snapshot| && Expired(ends[j], statuses[j], now) ==> snapshot[j].spot != snapshot[k].spot) ==>
                  p.occupancy[k] == occupancy[k])
  {
    SweepOccupancy(snapshot, ends, statuses, occupancy, numbers, now, |snapshot|);
  }

  /** The tick fails exactly when an expired reservation's spot number is not
      in the spot store. */
  lemma TickFailsIff(snapshot: seq<Reservation>, ends: seq<int>, statuses: seq<Status>, occupancy: seq<bool>,
      numbers: seq<int>, now: int)
    requires |ends| == |snapshot| && |statuses| == |snapshot| && |occupancy| == |snapshot|
    ensures Sweep(snapshot, ends, statuses, occupancy, numbers, now, |snapshot|).ok <==>
              forall k :: 0 <= k < |snapshot| && Expired(ends[k], statuses[k], now) ==> snapshot[k].spot.spotNumber in numbers
  {
    SweepSucceeds(snapshot, ends, statuses, occupancy, numbers, now, |snapshot|);
    SweepFails(snapshot, ends, statuses, occupancy, numbers, now, |snapshot|);
  }

  /** A second tick at the same `now`, after one that succeeded, changes nothing. */
  lemma TickIdempotent(snapshot: seq<Reservation>, ends: seq<int>, statuses: seq<Status>, occupancy: seq<bool>,
      numbers: seq<int>, now: int)
    requires Coherent(snapshot, ends, statuses) && |occupancy| == |snapshot|
    ensures var p := Sweep(snapshot, ends, statuses, occupancy, numbers, now, |snapshot|);
            p.ok ==> Sweep(snapshot, ends, p.statuses, p.occupancy, numbers, now, |snapshot|) == Progress(p.statuses, p.occupancy, [], true)
  {
    var p := Sweep(snapshot, ends, statuses, occupancy, numbers, now, |snapshot|);
    if p.ok {
      SweepSucceeds(snapshot, ends, statuses, occupancy, numbers, now, |snapshot|);
      SweepStatuses(snapshot, ends, statuses, occupancy, numbers, now, |snapshot|);
      SweepQuiet(snapshot, ends, p.statuses, p.occupancy, numbers, now, |snapshot|);
    }
  }

  /** After a tick that succeeds, no reservation of the snapshot is expired
      any more: the expired ones are COMPLETED and the others keep their
      status and end time. */
  lemma TickSettles(snapshot: seq<Reservation>, ends: seq<int>, statuses: seq<Status>, occupancy: seq<bool>,
      numbers: seq<int>, now: int)
    requires Coherent(snapshot, ends, statuses) && |occupancy| == |snapshot|
    ensures var p := Sweep(snapshot, ends, statuses, occupancy, numbers, now, |snapshot|);
            p.ok ==> forall k :: 0 <= k < |snapshot| ==> !Expired(ends[k], p.statuses[k], now)
  {
    TickCompletesExpired(snapshot, ends, statuses, occupancy, numbers, now);
    TickKeepsUnexpired(snapshot, ends, statuses, occupancy, numbers, now);
  }

  /** A list drawn from `snapshot` holds only the snapshot's reservations and
      refers only to the snapshot's spots: what a tick over the list may
      change, a tick over the snapshot could change too. */
  lemma SpotsWithin(snapshot: seq<Reservation>, list: seq<Reservation>)
    requires DrawnFrom(list, snapshot)
    ensures forall r :: r in list ==> r in snapshot
    ensures forall s :: s in SpotList(list) ==> s in SpotList(snapshot)
  {
    forall s | s in SpotList(list) ensures s in SpotList(snapshot) {
      var i :| 0 <= i < |list| && SpotList(list)[i] == s;
      var k :| 0 <= k < |snapshot| && snapshot[k] == list[i];
      assert SpotList(snapshot)[k] == s;
    }
  }

  /** When nothing in `snapshot` is expired, nothing in a list drawn from it is either. */
  lemma SettledWithin(snapshot: seq<Reservation>, list: seq<Reservation>, ends: seq<int>, statuses: seq<Status>, now: int)
    requires DrawnFrom(list, snapshot)
    requires EndTimes(snapshot) == ends && Statuses(snapshot) == statuses
    requires forall k :: 0 <= k < |snapshot| ==> !Expired(ends[k], statuses[k], now)
    ensures Settled(list, now)
  {
    forall i | 0 <= i < |list| ensures !Expired(list[i].endTime, list[i].status, now) {
      var k :| 0 <= k < |snapshot| && snapshot[k] == list[i];
      assert !Expired(ends[k], statuses[k], now);
    }
  }

  /** With unique spot numbers, and every expired reservation's spot being the
      one stored, the spot store ends as it began. */
  lemma TickKeepsStoredSpots(snapshot: seq<Reservation>, ends: seq<int>, statuses: seq<Status>, occupancy: seq<bool>,
      spots: seq<ParkingSpot>, now: int)
    requires |ends| == |snapshot| && |statuses| == |snapshot| && |occupancy| == |snapshot| && Unique(Numbers(spots))
    requires forall k :: 0 <= k < |snapshot| && Expired(ends[k], statuses[k], now) ==> snapshot[k].spot in spots
    ensures ReplaySpots(spots, snapshot, Sweep(snapshot, ends, statuses, occupancy, Numbers(spots), now, |snapshot|).visits) == spots
  {
    SweepVisitsExpired(snapshot, ends, statuses, occupancy, Numbers(spots), now, |snapshot|);
    var p := Sweep(snapshot, ends, statuses, occupancy, Numbers(spots), now, |snapshot|);
    forall j | 0 <= j < |p.visits| ensures snapshot[p.visits[j]].spot in spots {
      assert Expired(ends[p.visits[j]], statuses[p.visits[j]], now);
    }
    ReplayOfStoredSpots(spots, snapshot, p.visits);
  }

  class ReservationScheduler {
    const reservationStore: ReservationRegistry
    const spotStore: SpotRegistry

    constructor (reservationStore: ReservationRegistry, spotStore: SpotRegistry)
      ensures this.reservationStore == reservationStore && this.spotStore == spotStore
    {
      this.reservationStore := reservationStore;
      this.spotStore := spotStore;
    }

    /** One tick at time `now`: over a snapshot of the reservations, completes
        each expired one, updates it in the store, vacates its spot and
        updates that in the spot store. `ok` is false when a spot update found
        no spot (Java throws, and the tick ends there). The new statuses and
        occupancy flags, read through the snapshot, and `ok` are those of
        `Sweep`; the stores are the old ones replayed with its updates. */
    method CheckAndUpdateReservations(now: int) returns (ok: bool)
      modifies reservationStore, spotStore, reservationStore.reservations, SpotList(reservationStore.reservations)
      ensures var S := old(reservationStore.reservations);
              var p := Sweep(S, old(EndTimes(S)), old(Statuses(S)), old(Occupancy(S)), Numbers(old(spotStore.spots)), now, |S|);
              && ok == p.ok
              && EndTimes(S) == old(EndTimes(S))
              && Statuses(S) == p.statuses
              && Occupancy(S) == p.occupancy
              && reservationStore.reservations == ReplayReservations(S, S, p.visits)
              && spotStore.spots == ReplaySpots(old(spotStore.spots), S, p.visits)
      // Neither store gains or loses an entry, and every position keeps its key.
      ensures |reservationStore.reservations| == |old(reservationStore.reservations)|
      ensures Ids(reservationStore.reservations) == Ids(old(reservationStore.reservations))
      ensures |spotStore.spots| == |old(spotStore.spots)|
      ensures Numbers(spotStore.spots) == Numbers(old(spotStore.spots))
      // The store only ever holds reservations it held before, and after a
      // tick that succeeds none of them is expired.
      ensures DrawnFrom(reservationStore.reservations, old(reservationStore.reservations))
      ensures ok ==> Settled(reservationStore.reservations, now)
    {
      ghost var S, P0 := reservationStore.reservations, spotStore.spots;
      ghost var ends0, status0, occ0 := EndTimes(S), Statuses(S), Occupancy(S);
      assert ends0 == old(EndTimes(S)) && status0 == old(Statuses(S)) && occ0 == old(Occupancy(S));
      HeapIsCoherent(S);
      var snapshot := reservationStore.FindAll();
      assert snapshot == S;
      assert Tracks(S, P0, ends0, status0, occ0, now, 0, true, Progress(status0, occ0, [], true),
                    reservationStore.reservations, spotStore.spots);
      ghost var p;
      ok, p := Run(snapshot, now, P0, ends0, status0, occ0);
      assert p == Sweep(S, old(EndTimes(S)), old(Statuses(S)), old(Occupancy(S)), Numbers(old(spotStore.spots)), now, |S|);
      ReplayKeepsIds(S, S, p.visits);
      ReplayKeepsNumbers(P0, S, p.visits);
      ReplayWithin(S, p.visits);
      if ok {
        TickSettles(S, ends0, status0, occ0, Numbers(P0), now);
        SettledWithin(S, reservationStore.reservations, ends0, p.statuses, now);
      }
    }

    /** Two ticks at the same `now`, as the periodic task runs them when the
        clock has not moved on. Once the first succeeds, the second succeeds
        too and changes nothing: the heap and both stores are exactly where a
        single tick leaves them. With unique reservation ids the reservation
        list is moreover the one the store started with. */
    method RepeatedTick(now: int) returns (first: bool, second: bool)
      modifies reservationStore, spotStore, reservationStore.reservations, SpotList(reservationStore.reservations)
      ensures var S := old(reservationStore.reservations);
              var p := Sweep(S, old(EndTimes(S)), old(Statuses(S)), old(Occupancy(S)), Numbers(old(spotStore.spots)), now, |S|);
              first ==>
                && second
                && EndTimes(S) == old(EndTimes(S))
                && Statuses(S) == p.statuses
                && Occupancy(S) == p.occupancy
                && reservationStore.reservations == ReplayReservations(S, S, p.visits)
                && spotStore.spots == ReplaySpots(old(spotStore.spots), S, p.visits)
      ensures first && Unique(Ids(old(reservationStore.reservations))) ==>
                reservationStore.reservations == old(reservationStore.reservations)
    {
      ghost var S, P0 := reservationStore.reservations, spotStore.spots;
      ghost var ends0, status0, occ0 := EndTimes(S), Statuses(S), Occupancy(S);
      first := CheckAndUpdateReservations(now);
      ghost var p := Sweep(S, ends0, status0, occ0, Numbers(P0), now, |S|);
      if first && Unique(Ids(S)) {
        ReplayOfStoredReservations(S, p.visits);
      }
      second := TickThrough(now, S);
    }

    /** A tick over a store in which nothing is expired succeeds and changes
        nothing: both stores, and the end times, statuses and occupancy of
        the stored reservations, are as they were. */
    method QuietTick(now: int) returns (ok: bool)
      modifies reservationStore, spotStore, reservationStore.reservations, SpotList(reservationStore.reservations)
      ensures var L := old(reservationStore.reservations);
              old(Settled(L, now)) ==>
                && ok
                && reservationStore.reservations == L
                && spotStore.spots == old(spotStore.spots)
                && EndTimes(L) == old(EndTimes(L)) && Statuses(L) == old(Statuses(L)) && Occupancy(L) == old(Occupancy(L))
    {
      ghost var L, P := reservationStore.reservations, spotStore.spots;
      ghost var ends, statuses, occupancy := EndTimes(L), Statuses(L), Occupancy(L);
      if Settled(L, now) {
        assert forall k :: 0 <= k < |L| ==> !Expired(ends[k], statuses[k], now);
        SweepQuiet(L, ends, statuses, occupancy, Numbers(P), now, |L|);
      }
      ok := CheckAndUpdateReservations(now);
    }

    /** A tick over a store whose reservations are all drawn from an older
        snapshot `S`, framed by what a tick over `S` may change. When nothing
        stored is expired, what is read through `S` is unchanged as well,
        since the tick touches only the stored reservations and their spots. */
    method TickThrough(now: int, ghost S: seq<Reservation>) returns (ok: bool)
      requires DrawnFrom(reservationStore.reservations, S)
      modifies reservationStore, spotStore, S, SpotList(S)
      ensures old(Settled(reservationStore.reservations, now)) ==>
                && ok
                && reservationStore.reservations == old(reservationStore.reservations)
                && spotStore.spots == old(spotStore.spots)
                && EndTimes(S) == old(EndTimes(S)) && Statuses(S) == old(Statuses(S)) && Occupancy(S) == old(Occupancy(S))
    {
      ghost var L := reservationStore.reservations;
      ghost var ends, statuses, occupancy := EndTimes(L), Statuses(L), Occupancy(L);
      ghost var settled := Settled(L, now);
      SpotsWithin(S, L);
      ok := QuietTick(now);
      if settled {
        forall k | 0 <= k < |S|
          ensures S[k].endTime == old(S[k].endTime) && S[k].status == old(S[k].status)
          ensures S[k].spot.occupied == old(S[k].spot.occupied)
        {
          if S[k] in L {
            var i :| 0 <= i < |L| && L[i] == S[k];
            assert EndTimes(L)[i] == ends[i] && Statuses(L)[i] == statuses[i];
          }
          if S[k].spot in SpotList(L) {
            var i :| 0 <= i < |L| && SpotList(L)[i] == S[k].spot;
            assert Occupancy(L)[i] == occupancy[i];
          }
        }
      }
    }

    /** The tick's loop over the snapshot: it visits each position in turn and
        stops after the first spot update that found no spot, leaving the heap
        and the stores where `Sweep` over the whole snapshot says. */
    method Run(snapshot: seq<Reservation>, now: int, ghost P0: seq<ParkingSpot>,
               ghost ends0: seq<int>, ghost status0: seq<Status>, ghost occ0: seq<bool>) returns (ok: bool, ghost p: Progress)
      requires Tracks(snapshot, P0, ends0, status0, occ0, now, 0, true, Progress(status0, occ0, [], true),
                      reservationStore.reservations, spotStore.spots)
      modifies reservationStore, spotStore, snapshot, SpotList(snapshot)
      ensures Tracks(snapshot, P0, ends0, status0, occ0, now, |snapshot|, ok, p, reservationStore.reservations, spotStore.spots)
    {
      ok := true;
      var i := 0;
      p := Progress(status0, occ0, [], true);
      while i < |snapshot| && ok
        invariant Tracks(snapshot, P0, ends0, status0, occ0, now, i, ok, p, reservationStore.reservations, spotStore.spots)
      {
        ok, p := Visit(snapshot, i, now, P0, ends0, status0, occ0, p);
        i := i + 1;
      }
      TracksHalts(snapshot, P0, ends0, status0, occ0, now, i, ok, p, reservationStore.reservations, spotStore.spots);
    }

    /** Once the loop stops, at the end or after a failed spot update, it
        stands where `Sweep` over the whole snapshot does. */
    lemma TracksHalts(snapshot: seq<Reservation>, P0: seq<ParkingSpot>, ends0: seq<int>, status0: seq<Status>,
                      occ0: seq<bool>, now: int, i: nat, ok: bool, p: Progress, rs: seq<Reservation>, ps: seq<ParkingSpot>)
      requires Tracks(snapshot, P0, ends0, status0, occ0, now, i, ok, p, rs, ps) && (i == |snapshot| || !ok)
      ensures Tracks(snapshot, P0, ends0, status0, occ0, now, |snapshot|, ok, p, rs, ps)
    {
      SweepHalts(snapshot, ends0, status0, occ0, Numbers(P0), now, i, |snapshot|);
    }

    /** After `i` positions of `snapshot`, the tick stands at `p`, the progress
        of `Sweep`, and the heap and the stores are where `p` says: same end
        times, its statuses and occupancy flags, and the old stores replayed
        with its updates. */
    ghost predicate Tracks(snapshot: seq<Reservation>, P0: seq<ParkingSpot>, ends0: seq<int>, status0: seq<Status>,
                           occ0: seq<bool>, now: int, i: nat, ok: bool, p: Progress, rs: seq<Reservation>, ps: seq<ParkingSpot>)
      reads snapshot, SpotList(snapshot)
    {
      && |ends0| == |snapshot| && |status0| == |snapshot| && |occ0| == |snapshot| && i <= |snapshot|
      && p == Sweep(snapshot, ends0, status0, occ0, Numbers(P0), now, i) && ok == p.ok
      && EndTimes(snapshot) == ends0 && Statuses(snapshot) == p.statuses && Occupancy(snapshot) == p.occupancy
      && rs == ReplayReservations(snapshot, snapshot, p.visits)
      && ps == ReplaySpots(P0, snapshot, p.visits)
    }

    /** One pass of the tick's loop, at position `i` of the snapshot: the step
        of `Sweep` from `i` to `i + 1`. */
    method Visit(snapshot: seq<Reservation>, i: nat, now: int, ghost P0: seq<ParkingSpot>,
                 ghost ends0: seq<int>, ghost status0: seq<Status>, ghost occ0: seq<bool>, ghost p: Progress)
      returns (ok: bool, ghost next: Progress)
      requires i < |snapshot|
      requires Tracks(snapshot, P0, ends0, status0, occ0, now, i, true, p, reservationStore.reservations, spotStore.spots)
      modifies reservationStore, spotStore, snapshot[i], snapshot[i].spot
      ensures Tracks(snapshot, P0, ends0, status0, occ0, now, i + 1, ok, next, reservationStore.reservations, spotStore.spots)
    {
      next := Sweep(snapshot, ends0, status0, occ0, Numbers(P0), now, i + 1);
      ok := true;
      var reservation := snapshot[i];
      if reservation.endTime < now && reservation.status == Active {
        ReplayKeepsIds(snapshot, snapshot, p.visits);
        ReplayKeepsNumbers(P0, snapshot, p.visits);
        ReplayReservationsStep(snapshot, snapshot, p.visits, i);
        ReplaySpotsStep(P0, snapshot, p.visits, i);
        ok := Expire(reservation, snapshot);
        assert next == Progress(MarkCompleted(snapshot, p.statuses, reservation), MarkVacant(snapshot, p.occupancy, reservation.spot),
                                p.visits + [i], ok);
      } else {
        assert next == p;
      }
    }

    /** The work the tick does for one expired reservation: complete it,
        update it in the store, vacate its spot, update that in the spot store.
        `spotUpdated` is false when the spot store has no spot with its number.
        Read through `snapshot`, only the reservation's positions change status
        and only its spot's positions change occupancy. */
    method Expire(reservation: Reservation, ghost snapshot: seq<Reservation>) returns (spotUpdated: bool)
      requires reservation.reservationId in Ids(reservationStore.reservations)
      modifies reservationStore, spotStore, reservation, reservation.spot
      ensures reservation.status == Completed && reservation.endTime == old(reservation.endTime)
      ensures !reservation.spot.occupied
      ensures EndTimes(snapshot) == old(EndTimes(snapshot))
      ensures Statuses(snapshot) == MarkCompleted(snapshot, old(Statuses(snapshot)), reservation)
      ensures Occupancy(snapshot) == MarkVacant(snapshot, old(Occupancy(snapshot)), reservation.spot)
      ensures reservationStore.reservations == old(reservationStore.reservations)
                [ReservationIndex(old(reservationStore.reservations), reservation.reservationId) := reservation]
      ensures spotUpdated <==> reservation.spot.spotNumber in Numbers(old(spotStore.spots))
      ensures spotStore.spots == if spotUpdated
                                 then old(spotStore.spots)[SpotIndex(old(spotStore.spots), reservation.spot.spotNumber) := reservation.spot]
                                 else old(spotStore.spots)
    {
      CompleteIn(reservation, snapshot);
      spotUpdated := VacateIn(reservation.spot, snapshot);
    }

    /** Completes a reservation and updates it in the store; read through
        `snapshot`, only that reservation's positions change status. */
    method CompleteIn(reservation: Reservation, ghost snapshot: seq<Reservation>)
      requires reservation.reservationId in Ids(reservationStore.reservations)
      modifies reservationStore, reservation
      ensures reservation.status == Completed && reservation.endTime == old(reservation.endTime)
      ensures EndTimes(snapshot) == old(EndTimes(snapshot))
      ensures Statuses(snapshot) == MarkCompleted(snapshot, old(Statuses(snapshot)), reservation)
      ensures Occupancy(snapshot) == old(Occupancy(snapshot))
      ensures reservationStore.reservations == old(reservationStore.reservations)
                [ReservationIndex(old(reservationStore.reservations), reservation.reservationId) := reservation]
    {
      reservation.Complete();
      var updated := reservationStore.Update(reservation);
    }

    /** Vacates a spot and updates it in the spot store, which finds no spot
        with its number when `updated` is false; read through `snapshot`, only
        the positions holding that spot change occupancy. */
    method VacateIn(spot: ParkingSpot, ghost snapshot: seq<Reservation>) returns (updated: bool)
      modifies spotStore, spot
      ensures !spot.occupied
      ensures EndTimes(snapshot) == old(EndTimes(snapshot)) && Statuses(snapshot) == old(Statuses(snapshot))
      ensures Occupancy(snapshot) == MarkVacant(snapshot, old(Occupancy(snapshot)), spot)
      ensures updated <==> spot.spotNumber in Numbers(old(spotStore.spots))
      ensures spotStore.spots == if updated then old(spotStore.spots)[SpotIndex(old(spotStore.spots), spot.spotNumber) := spot]
                                 else old(spotStore.spots)
    {
      spot.Vacate();
      updated := spotStore.Update(spot);
    }
  }
}
