/** Recurring sessions: occurrence times in 64-bit nanoseconds, and which
    occurrences a greedy materialisation creates. */
module SeriesTx {
  import opened Domain
  import opened Tables
  import opened Arithmetic
  import opened SessionTx

  const HOUR := 3_600_000_000_000
  const MAX64 := 0x7FFF_FFFF_FFFF_FFFF
  const MOD64 := 0x1_0000_0000_0000_0000

  datatype SeriesInput = SeriesInput(
    roomId: Id, speakerId: Id, title: string, firstStartsAt: Time, firstEndsAt: Time,
    freq: Freq, interval: int, occurrences: int)

  datatype Occurrence = Booked(startsAt: Time, id: Id) | Clashed(startsAt: Time)

  /** Two's complement wrap-around of a 64-bit duration. */
  function Wrap(x: int): int {
    (x + MAX64 + 1) % MOD64 - MAX64 - 1
  }

  /** Subtracting two instants saturates instead of wrapping. */
  function Saturate(x: int): int {
    if x > MAX64 then MAX64 else if x < -MAX64 - 1 then -MAX64 - 1 else x
  }

  function Step(interval: int, freq: Freq): int {
    var day := Wrap(Wrap(Wrap(interval) * 24) * HOUR);
    if freq == Weekly then Wrap(day * 7) else day
  }

  function Offset(interval: int, freq: Freq, i: int): int {
    Wrap(i * Step(interval, freq))
  }

  /** The step without any overflow: so many days, or weeks, in nanoseconds. */
  function ExactStep(interval: int, freq: Freq): int {
    interval * (if freq == Weekly then 604_800_000_000_000 else 86_400_000_000_000)
  }

  lemma {:induction false} ModShift(a: int, k: int)
    ensures (a + k * MOD64) % MOD64 == a % MOD64
    decreases if k < 0 then -k else k
  {
    if k > 0 {
      ModShift(a, k - 1);
      assert a + k * MOD64 == (a + (k - 1) * MOD64) + MOD64;
    } else if k < 0 {
      ModShift(a, k + 1);
      assert a + k * MOD64 == (a + (k + 1) * MOD64) - MOD64;
    }
  }

  /** Wrapping early or late makes no difference to a product. */
  lemma WrapTwice(x: int, m: int)
    ensures Wrap(Wrap(x) * m) == Wrap(x * m)
  {
    var k := (x + MAX64 + 1) / MOD64;
    assert Wrap(x) == x - k * MOD64;
    var km := k * m;
    assert Wrap(x) * m == x * m - km * MOD64 by {
      assert (x - k * MOD64) * m == x * m - (k * MOD64) * m;
      assert (k * MOD64) * m == km * MOD64 by { MulSwap(k, MOD64, m); }
    }
    ModShift(x * m + MAX64 + 1, -km);
    assert x * m - km * MOD64 + MAX64 + 1 == (x * m + MAX64 + 1) + (-km) * MOD64;
  }

  lemma MulSwap(a: int, b: int, c: int)
    ensures (a * b) * c == (a * c) * b
  {
  }

  lemma WrapIsExactInRange(x: int)
    ensures Wrap(x) == x <==> -MAX64 - 1 <= x <= MAX64
  {
  }

  lemma OffsetWrapsOnce(interval: int, freq: Freq, i: int)
    ensures Offset(interval, freq, i) == Wrap(i * ExactStep(interval, freq))
  {
    var day := Wrap(Wrap(Wrap(interval) * 24) * HOUR);
    WrapTwice(interval, 24);
    WrapTwice(interval * 24, HOUR);
    assert day == Wrap(interval * 24 * HOUR);
    if freq == Weekly {
      WrapTwice(interval * 24 * HOUR, 7);
    }
    assert Step(interval, freq) == Wrap(ExactStep(interval, freq));
    WrapTwice(ExactStep(interval, freq), i);
    assert i * Step(interval, freq) == Step(interval, freq) * i;
    assert i * ExactStep(interval, freq) == ExactStep(interval, freq) * i;
  }

  /** No occurrence is misplaced exactly when the last one is within 64 bits. */
  lemma OffsetsExactIff(interval: int, freq: Freq, occurrences: int)
    requires interval > 0 && occurrences >= 1
    ensures (forall i | 0 <= i < occurrences :: Offset(interval, freq, i) == i * ExactStep(interval, freq))
       <==> (occurrences - 1) * ExactStep(interval, freq) <= 9_223_372_036_854_775_807
  {
    var s := ExactStep(interval, freq);
    OffsetWrapsOnce(interval, freq, occurrences - 1);
    WrapIsExactInRange((occurrences - 1) * s);
    MulMonotone(0, occurrences - 1, s);
    if (occurrences - 1) * s <= MAX64 {
      forall i | 0 <= i < occurrences ensures Offset(interval, freq, i) == i * s {
        OffsetWrapsOnce(interval, freq, i);
        MulMonotone(i, occurrences - 1, s);
        WrapIsExactInRange(i * s);
      }
    } else {
      assert Offset(interval, freq, occurrences - 1) != (occurrences - 1) * s;
    }
  }

  /** For the 52 occurrences a request may ask for, the bound on the interval is
      2093 days or 299 weeks - a bound no validator enforces. */
  lemma FiftyTwoOccurrencesExactIff(interval: int, freq: Freq)
    requires interval > 0
    ensures (forall i | 0 <= i < 52 :: Offset(interval, freq, i) == i * ExactStep(interval, freq))
       <==> interval <= (if freq == Daily then 2093 else 299)
  {
    OffsetsExactIff(interval, freq, 52);
  }

  /** At interval 2094 the last of 52 daily occurrences lands before the first. */
  lemma LongIntervalWrapsIntoThePast()
    ensures Offset(2094, Daily, 51) < 0
  {
  }

  // ---------------------------------------------------------------------
  // Materialisation
  // ---------------------------------------------------------------------

  function Duration(s: SeriesInput): int {
    Saturate(s.firstEndsAt - s.firstStartsAt)
  }

  function StartOf(s: SeriesInput, i: int): Time {
    s.firstStartsAt + Offset(s.interval, s.freq, i)
  }

  function OccurrenceInput(s: SeriesInput, series: Id, i: int): SessionInput {
    SessionInput(s.roomId, s.speakerId, s.title, StartOf(s, i), StartOf(s, i) + Duration(s), Some(series))
  }

  function OccurrenceOf(startsAt: Time, r: Result<Id>): Option<Occurrence> {
    match r
    case Ok(id) => Some(Booked(startsAt, id))
    case Err(ErrConflict) => Some(Clashed(startsAt))
    case Err(_) => None
  }

  /** The store and outcomes after the first `n` occurrences, each its own
      transaction; an outcome other than created or conflict aborts the loop,
      leaving what was committed. */
  ghost function Materialize(
    db: DB, actor: Id, event: Id, s: SeriesInput, series: Id, ids: seq<Id>, clock: nat -> Time, n: nat): (DB, Result<seq<Occurrence>>)
    requires n <= |ids|
  {
    if n == 0 then (db, Ok([]))
    else
      var (d, rs) := Materialize(db, actor, event, s, series, ids, clock, n - 1);
      if rs.Err? then (d, rs)
      else
        var (d', r) := CreateSession(d, actor, event, OccurrenceInput(s, series, n - 1), ids[n - 1], clock(n - 1));
        var o := OccurrenceOf(StartOf(s, n - 1), r);
        if o.None? then (d', Err(r.error)) else (d', Ok(rs.value + [o.value]))
  }

  /** The bookings of a series all concern one existing room, speaker and actor. */
  ghost predicate Bookable(db: DB, actor: Id, event: Id, s: SeriesInput, series: Id) {
    && s.roomId in db.rooms && db.rooms[s.roomId].eventId == event
    && s.speakerId in db.users && actor in db.users && series in db.series
    && s.firstStartsAt < s.firstEndsAt
  }

  predicate Meets(s: SeriesInput, i: int, j: int) {
    Overlaps(StartOf(s, i), StartOf(s, i) + Duration(s), StartOf(s, j), StartOf(s, j) + Duration(s))
  }

  /** The schedule as it was before the call leaves occurrence `i` its slot. */
  ghost predicate SlotFree(sessions: map<Id, Session>, event: Id, s: SeriesInput, series: Id, i: int) {
    forall t | t in sessions && !sessions[t].deleted ::
      !Clash(NewSession(event, OccurrenceInput(s, series, i), 0), sessions[t])
  }

  /** Greedy booking stated without the store: an occurrence is created iff its
      slot was free before and it meets no created earlier occurrence. */
  ghost predicate Expected(sessions: map<Id, Session>, event: Id, s: SeriesInput, series: Id, i: nat) {
    SlotFree(sessions, event, s, series, i) && forall j: nat | j < i && Meets(s, i, j) :: !Expected(sessions, event, s, series, j)
  }

  function OccurrenceRow(event: Id, s: SeriesInput, series: Id, clock: nat -> Time, i: nat): Session {
    NewSession(event, OccurrenceInput(s, series, i), clock(i))
  }

  /** The session table after `n` occurrences: what was there, plus one row per
      expected occurrence under its own identifier. */
  ghost predicate TableAfter(
    before: map<Id, Session>, after: map<Id, Session>, event: Id, s: SeriesInput, series: Id, ids: seq<Id>, clock: nat -> Time, n: nat)
    requires n <= |ids|
  {
    && (forall t | t in before :: t in after && after[t] == before[t])
    && (forall i: nat | i < n && Expected(before, event, s, series, i) ::
          ids[i] in after && after[ids[i]] == OccurrenceRow(event, s, series, clock, i))
    && (forall t | t in after && t !in before :: exists i: nat :: i < n && t == ids[i] && Expected(before, event, s, series, i))
  }

  /** What the caller is told about occurrence `i`. */
  ghost function Outcome(before: map<Id, Session>, event: Id, s: SeriesInput, series: Id, id: Id, i: nat): Occurrence {
    if Expected(before, event, s, series, i) then Booked(StartOf(s, i), id) else Clashed(StartOf(s, i))
  }

  lemma ClashIsMeet(event: Id, s: SeriesInput, series: Id, clock: nat -> Time, i: nat, j: nat)
    ensures Clash(OccurrenceRow(event, s, series, clock, i), OccurrenceRow(event, s, series, clock, j)) <==> Meets(s, i, j)
  {
  }

  lemma FreeIff(sessions: map<Id, Session>, event: Id, s: SeriesInput, series: Id, clock: nat -> Time, i: nat)
    ensures SlotFree(sessions, event, s, series, i) <==>
            forall t | t in sessions && !sessions[t].deleted :: !Clash(OccurrenceRow(event, s, series, clock, i), sessions[t])
  {
    forall t | t in sessions
      ensures Clash(OccurrenceRow(event, s, series, clock, i), sessions[t])
         <==> Clash(NewSession(event, OccurrenceInput(s, series, i), 0), sessions[t])
    {
    }
  }

  lemma OccurrenceConflictIff(
    before: map<Id, Session>, after: map<Id, Session>, event: Id, s: SeriesInput, series: Id, ids: seq<Id>, clock: nat -> Time, n: nat)
    requires n < |ids| && TableAfter(before, after, event, s, series, ids, clock, n)
    requires ids[n] !in before && forall i | 0 <= i < n :: ids[i] != ids[n]
    ensures SlotTaken(after, ids[n], OccurrenceRow(event, s, series, clock, n)) <==> !Expected(before, event, s, series, n)
  {
    hide OccurrenceRow, Meets, Clash, SlotFree;
    var row := OccurrenceRow(event, s, series, clock, n);
    FreeIff(before, event, s, series, clock, n);
    forall j: nat ensures Clash(row, OccurrenceRow(event, s, series, clock, j)) <==> Meets(s, n, j) {
      ClashIsMeet(event, s, series, clock, n, j);
    }
    if SlotTaken(after, ids[n], row) {
      var t :| t in after && t != ids[n] && !after[t].deleted && Clash(row, after[t]);
      if t !in before {
        var i: nat :| i < n && t == ids[i] && Expected(before, event, s, series, i);
        assert Meets(s, n, i);
      }
    }
    if !Expected(before, event, s, series, n) {
      if SlotFree(before, event, s, series, n) {
        var j: nat :| j < n && Meets(s, n, j) && Expected(before, event, s, series, j);
        OccurrenceIsLive(event, s, series, clock, j);
        assert ids[j] in after && Clash(row, after[ids[j]]);
      }
    }
  }

  lemma OccurrenceIsLive(event: Id, s: SeriesInput, series: Id, clock: nat -> Time, i: nat)
    ensures !OccurrenceRow(event, s, series, clock, i).deleted
  {
  }

  /** One occurrence, once its room, speaker and actor are known to exist. */
  lemma BookOccurrence(d: DB, actor: Id, event: Id, s: SeriesInput, series: Id, id: Id, clock: nat -> Time, i: nat)
    requires Bookable(d, actor, event, s, series)
    ensures var (d', r) := CreateSession(d, actor, event, OccurrenceInput(s, series, i), id, clock(i));
      var row := OccurrenceRow(event, s, series, clock, i);
      && d'.rooms == d.rooms && d'.users == d.users && d'.series == d.series
      && r == (if SlotTaken(d.sessions, id, row) then Err(ErrConflict) else Ok(id))
      && d'.sessions == (if SlotTaken(d.sessions, id, row) then d.sessions else d.sessions[id := row])
  {
    hide SlotTaken, StartOf;
  }

  /** On any schedule, an uninterrupted series creates exactly the expected
      occurrences and reports every other one as a conflict. */
  lemma {:induction false} MaterializeIsGreedy(
    db: DB, actor: Id, event: Id, s: SeriesInput, series: Id, ids: seq<Id>, clock: nat -> Time, n: nat)
    requires n <= |ids| && Bookable(db, actor, event, s, series) && FreshIds(db, ids) && IssuedOk(db)
    ensures var (d, rs) := Materialize(db, actor, event, s, series, ids, clock, n);
      && rs.Ok? && |rs.value| == n
      && (forall i: nat | i < n :: rs.value[i] == Outcome(db.sessions, event, s, series, ids[i], i))
      && TableAfter(db.sessions, d.sessions, event, s, series, ids, clock, n)
      && d.rooms == db.rooms && d.users == db.users && d.series == db.series
  {
    hide Outcome, TableAfter, CreateSession, Expected, Bookable;
    if n == 0 {
      NothingBookedYet(db.sessions, event, s, series, ids, clock);
    } else {
      MaterializeIsGreedy(db, actor, event, s, series, ids, clock, n - 1);
      var d := Materialize(db, actor, event, s, series, ids, clock, n - 1).0;
      NextOccurrence(db, d, actor, event, s, series, ids, clock, n - 1);
    }
  }

  lemma NothingBookedYet(sessions: map<Id, Session>, event: Id, s: SeriesInput, series: Id, ids: seq<Id>, clock: nat -> Time)
    ensures TableAfter(sessions, sessions, event, s, series, ids, clock, 0)
  {
  }

  lemma NextOccurrence(
    db: DB, d: DB, actor: Id, event: Id, s: SeriesInput, series: Id, ids: seq<Id>, clock: nat -> Time, n: nat)
    requires n < |ids| && Bookable(db, actor, event, s, series) && FreshIds(db, ids) && IssuedOk(db)
    requires d.rooms == db.rooms && d.users == db.users && d.series == db.series
    requires TableAfter(db.sessions, d.sessions, event, s, series, ids, clock, n)
    ensures var (d', r) := CreateSession(d, actor, event, OccurrenceInput(s, series, n), ids[n], clock(n));
      && d'.rooms == db.rooms && d'.users == db.users && d'.series == db.series
      && OccurrenceOf(StartOf(s, n), r) == Some(Outcome(db.sessions, event, s, series, ids[n], n))
      && TableAfter(db.sessions, d'.sessions, event, s, series, ids, clock, n + 1)
  {
    hide TableAfter, Expected, SlotTaken, CreateSession, OccurrenceInput, OccurrenceRow, StartOf;
    assert ids[n] !in db.sessions;
    BookOccurrence(d, actor, event, s, series, ids[n], clock, n);
    OccurrenceConflictIff(db.sessions, d.sessions, event, s, series, ids, clock, n);
    TableGrows(db, d, event, s, series, ids, clock, n + 1);
  }

  lemma TableGrows(
    db: DB, d: DB, event: Id, s: SeriesInput, series: Id, ids: seq<Id>, clock: nat -> Time, n: nat)
    requires 0 < n <= |ids| && FreshIds(db, ids) && IssuedOk(db)
    requires TableAfter(db.sessions, d.sessions, event, s, series, ids, clock, n - 1)
    ensures Expected(db.sessions, event, s, series, n - 1) ==>
      TableAfter(db.sessions, d.sessions[ids[n - 1] := OccurrenceRow(event, s, series, clock, n - 1)], event, s, series, ids, clock, n)
    ensures !Expected(db.sessions, event, s, series, n - 1) ==>
      TableAfter(db.sessions, d.sessions, event, s, series, ids, clock, n)
  {
    hide Expected, OccurrenceRow;
    assert ids[n - 1] !in db.sessions;
    var sessions' := d.sessions[ids[n - 1] := OccurrenceRow(event, s, series, clock, n - 1)];
    if Expected(db.sessions, event, s, series, n - 1) {
      forall t | t in sessions' && t !in db.sessions
        ensures exists i: nat :: i < n && t == ids[i] && Expected(db.sessions, event, s, series, i)
      {
        if t != ids[n - 1] {
          var i: nat :| i < n - 1 && t == ids[i] && Expected(db.sessions, event, s, series, i);
          assert i < n;
        }
      }
    } else {
      forall t | t in d.sessions && t !in db.sessions
        ensures exists i: nat :: i < n && t == ids[i] && Expected(db.sessions, event, s, series, i)
      {
        var i: nat :| i < n - 1 && t == ids[i] && Expected(db.sessions, event, s, series, i);
        assert i < n;
      }
    }
  }

  // ---------------------------------------------------------------------
  // Closed forms
  // ---------------------------------------------------------------------

  /** Every offset of the series is exact: the last occurrence fits 64 bits. */
  ghost predicate Exact(s: SeriesInput) {
    s.interval > 0 && s.occurrences >= 1 && (s.occurrences - 1) * ExactStep(s.interval, s.freq) <= MAX64
  }

  lemma MeetsIff(s: SeriesInput, i: nat, j: nat)
    requires Exact(s) && j < i < s.occurrences && s.firstStartsAt < s.firstEndsAt
    ensures Meets(s, i, j) <==> (i - j) * ExactStep(s.interval, s.freq) < Duration(s)
  {
    var step := ExactStep(s.interval, s.freq);
    OffsetsExactIff(s.interval, s.freq, s.occurrences);
    assert Offset(s.interval, s.freq, i) == i * step && Offset(s.interval, s.freq, j) == j * step;
    MulMonotone(j, i, step);
    assert (i - j) * step == i * step - j * step;
  }

  /** When an occurrence is no longer than the step, occurrences never block each
      other: each is created exactly when its slot was free before the call. */
  lemma ShortOccurrencesAreIndependent(
    sessions: map<Id, Session>, event: Id, s: SeriesInput, series: Id, i: nat)
    requires Exact(s) && i < s.occurrences && s.firstStartsAt < s.firstEndsAt
    requires Duration(s) <= ExactStep(s.interval, s.freq)
    ensures Expected(sessions, event, s, series, i) <==> SlotFree(sessions, event, s, series, i)
  {
    var step := ExactStep(s.interval, s.freq);
    forall j: nat | j < i ensures !Meets(s, i, j) {
      MeetsIff(s, i, j);
      MulMonotone(1, i - j, step);
    }
  }

  /** The least number of steps that clears one occurrence: ceil(D / S). */
  function Stride(d: int, step: int): (q: nat)
    requires d > 0 && step > 0
    ensures q >= 1 && q * step >= d && (q - 1) * step < d
    decreases d
  {
    if d <= step then 1 else 1 + Stride(d - step, step)
  }

  /** How many occurrences apart two created ones must be. */
  function Every(s: SeriesInput): (q: nat)
    requires Exact(s) && s.firstStartsAt < s.firstEndsAt
    ensures q >= 1
    ensures q * ExactStep(s.interval, s.freq) >= Duration(s) && (q - 1) * ExactStep(s.interval, s.freq) < Duration(s)
  {
    Stride(Duration(s), ExactStep(s.interval, s.freq))
  }

  /** On a schedule that is otherwise free, occurrence i is created exactly when
      i is a multiple of ceil(D / S). */
  lemma {:induction false} FreeScheduleBooksMultiples(
    sessions: map<Id, Session>, event: Id, s: SeriesInput, series: Id, i: nat)
    requires Exact(s) && i < s.occurrences && s.firstStartsAt < s.firstEndsAt
    requires forall j: nat | j < s.occurrences :: SlotFree(sessions, event, s, series, j)
    ensures Expected(sessions, event, s, series, i) <==> i % Every(s) == 0
  {
    hide Meets, Exact, Duration, ExactStep, SlotFree, Every;
    var q := Every(s);
    forall j: nat | j < i ensures Expected(sessions, event, s, series, j) <==> j % q == 0 {
      FreeScheduleBooksMultiples(sessions, event, s, series, j);
    }
    if i % q == 0 {
      forall j: nat | j < i && j % q == 0 ensures !Meets(s, i, j) {
        MultiplesNeverMeet(s, i, j, q);
      }
    } else {
      MultipleBelowMeets(s, i, q);
      assert Expected(sessions, event, s, series, i - i % q);
    }
  }

  lemma MultiplesNeverMeet(s: SeriesInput, i: nat, j: nat, q: nat)
    requires Exact(s) && j < i < s.occurrences && s.firstStartsAt < s.firstEndsAt
    requires q == Every(s)
    requires i % q == 0 && j % q == 0
    ensures !Meets(s, i, j)
  {
    hide Meets, Exact, Duration, Every;
    MeetsIff(s, i, j);
    MultiplesAreApart(i, j, q);
    MulMonotone(q, i - j, ExactStep(s.interval, s.freq));
  }

  lemma MultipleBelowMeets(s: SeriesInput, i: nat, q: nat)
    requires Exact(s) && i < s.occurrences && s.firstStartsAt < s.firstEndsAt
    requires q == Every(s)
    requires i % q != 0
    ensures 0 <= i - i % q < i && (i - i % q) % q == 0 && Meets(s, i, i - i % q)
  {
    hide Meets, Exact, Duration, Every;
    Quotient(i - i % q, i / q, 0, q);
    MulMonotone(0, i / q, q);
    MeetsIff(s, i, i - i % q);
    MulMonotone(i % q, q - 1, ExactStep(s.interval, s.freq));
  }

  lemma MultiplesAreApart(i: nat, j: nat, q: nat)
    requires q > 0 && j < i && i % q == 0 && j % q == 0
    ensures i - j >= q
  {
    var a, b := i / q, j / q;
    assert i == a * q && j == b * q;
    assert i - j == (a - b) * q;
    if a <= b {
      MulMonotone(a, b, q);
    } else {
      MulMonotone(1, a - b, q);
    }
  }

  // ---------------------------------------------------------------------
  // The whole call
  // ---------------------------------------------------------------------

  function SeriesRow(event: Id, s: SeriesInput, now: Time): Series {
    Series(event, s.roomId, s.speakerId, s.title, s.freq, s.interval, s.occurrences, now)
  }

  ghost function CreateSeries(
    db: DB, actor: Id, event: Id, s: SeriesInput, series: Id, ids: seq<Id>, clock: nat -> Time, now: Time)
    : (DB, Result<seq<Occurrence>>)
    requires s.occurrences <= |ids|
  {
    var (d, r) := InsertSeries(db, SeriesRow(event, s, now), series);
    if r.Err? then (d, Err(r.error)) else Materialize(d, actor, event, s, series, ids, clock, s.occurrences)
  }

  /** An occurrence that fails otherwise than by a conflict ends the loop as it stands. */
  lemma {:induction false} AbortStays(
    db: DB, actor: Id, event: Id, s: SeriesInput, series: Id, ids: seq<Id>, clock: nat -> Time, i: nat, n: nat)
    requires i <= n <= |ids| && Materialize(db, actor, event, s, series, ids, clock, i).1.Err?
    ensures Materialize(db, actor, event, s, series, ids, clock, n) == Materialize(db, actor, event, s, series, ids, clock, i)
  {
    hide CreateSession, OccurrenceInput, StartOf;
    if i < n {
      AbortStays(db, actor, event, s, series, ids, clock, i, n - 1);
    }
  }

  lemma FirstOccurrenceFails(d: DB, actor: Id, event: Id, s: SeriesInput, series: Id, ids: seq<Id>, clock: nat -> Time)
    requires 1 <= s.occurrences <= |ids| && s.roomId in d.rooms
    requires d.rooms[s.roomId].eventId != event || s.firstStartsAt >= s.firstEndsAt
    ensures Materialize(d, actor, event, s, series, ids, clock, s.occurrences) ==
      (d, Err(if d.rooms[s.roomId].eventId != event then ErrInvalidRoom else ErrInternal))
  {
    hide SlotTaken, StartOf;
    assert Materialize(d, actor, event, s, series, ids, clock, 0) == (d, Ok([]));
    assert Materialize(d, actor, event, s, series, ids, clock, 1) ==
      (d, Err(if d.rooms[s.roomId].eventId != event then ErrInvalidRoom else ErrInternal));
    AbortStays(d, actor, event, s, series, ids, clock, 1, s.occurrences);
  }

  /** What a refused recurring booking leaves behind. It errs exactly when its
      series row is refused, its room is another event's, or its time range is
      empty - and in the last two cases the series row has been committed. */
  lemma SeriesFailsExactlyWhen(
    db: DB, actor: Id, event: Id, s: SeriesInput, series: Id, ids: seq<Id>, clock: nat -> Time, now: Time)
    requires Inv(db) && FreshIds(db, [series] + ids) && s.occurrences <= |ids| && actor in db.users
    ensures var (d, r) := CreateSeries(db, actor, event, s, series, ids, clock, now);
      var (inserted, row) := InsertSeries(db, SeriesRow(event, s, now), series);
      && (row.Ok? ==> s.roomId in db.rooms && series in inserted.series && inserted != db)
      && (r.Err? <==> row.Err? || db.rooms[s.roomId].eventId != event || s.firstStartsAt >= s.firstEndsAt)
      && (r.Err? ==> d == inserted && (d == db <==> row.Err?))
      && (r.Err? && row.Ok? ==> r.error == if db.rooms[s.roomId].eventId != event then ErrInvalidRoom else ErrInternal)
  {
    hide AccessOk, BookingOk, RecordsOk, IssuedOk, Materialize, FreshIds, TableAfter, Outcome;
    IdsAfterSeries(db, series, ids);
    InsertSeriesKeepsInv(db, SeriesRow(event, s, now), series);
    var (inserted, row) := InsertSeries(db, SeriesRow(event, s, now), series);
    if row.Ok? {
      InsertedSeriesIsNew(db, series);
      if db.rooms[s.roomId].eventId != event || s.firstStartsAt >= s.firstEndsAt {
        FirstOccurrenceFails(inserted, actor, event, s, series, ids, clock);
      } else {
        MaterializeIsGreedy(inserted, actor, event, s, series, ids, clock, s.occurrences);
      }
    }
  }

  lemma InsertedSeriesIsNew(db: DB, series: Id)
    requires Inv(db) && Fresh(db, series)
    ensures series !in db.series
  {
    hide AccessOk, BookingOk, RecordsOk;
  }

  /** A recurring booking by a known actor, whatever is asked for. It errs exactly
      as `SeriesFailsExactlyWhen` says; otherwise it runs to its end, and which
      occurrences it creates can be read off the schedule before the call: greedily
      in general; each on its own when an occurrence is no longer than the step;
      every ceil(D / S)-th when the schedule is free. */
  lemma SeriesClosedForm(
    db: DB, actor: Id, event: Id, s: SeriesInput, series: Id, ids: seq<Id>, clock: nat -> Time, now: Time)
    requires Inv(db) && FreshIds(db, [series] + ids) && s.occurrences <= |ids| && actor in db.users
    ensures var r := CreateSeries(db, actor, event, s, series, ids, clock, now).1;
      && (r.Err? <==>
            || InsertSeries(db, SeriesRow(event, s, now), series).1.Err?
            || db.rooms[s.roomId].eventId != event || s.firstStartsAt >= s.firstEndsAt)
      && (r.Ok? ==>
            && |r.value| == s.occurrences && s.firstStartsAt < s.firstEndsAt
            && (forall i: nat | i < s.occurrences :: r.value[i].Booked? <==> Expected(db.sessions, event, s, series, i))
            && (Exact(s) && Duration(s) <= ExactStep(s.interval, s.freq) ==>
                  forall i: nat | i < s.occurrences :: r.value[i].Booked? <==> SlotFree(db.sessions, event, s, series, i))
            && (Exact(s) && (forall j: nat | j < s.occurrences :: SlotFree(db.sessions, event, s, series, j)) ==>
                  forall i: nat | i < s.occurrences :: r.value[i].Booked? <==> i % Every(s) == 0))
  {
    hide AccessOk, BookingOk, RecordsOk, IssuedOk, Expected, SlotFree, Every, Duration, ExactStep, Materialize, TableAfter,
      FreshIds, Exact;
    SeriesFailsExactlyWhen(db, actor, event, s, series, ids, clock, now);
    IdsAfterSeries(db, series, ids);
    var (d, row) := InsertSeries(db, SeriesRow(event, s, now), series);
    if row.Ok? && db.rooms[s.roomId].eventId == event && s.firstStartsAt < s.firstEndsAt {
      InsertSeriesKeepsInv(db, SeriesRow(event, s, now), series);
      MaterializeIsGreedy(d, actor, event, s, series, ids, clock, s.occurrences);
      ClosedForms(db.sessions, event, s, series);
    }
  }

  /** One live session of the series for each booked occurrence, so many whole days or
      weeks after the first and as long as the first, and nothing else. */
  ghost predicate OccurrencesStored(
    before: map<Id, Session>, after: map<Id, Session>, event: Id, s: SeriesInput, series: Id, ids: seq<Id>,
    clock: nat -> Time, told: seq<Occurrence>)
    requires |told| <= |ids|
  {
    var step := s.interval * (if s.freq == Weekly then 604_800_000_000_000 else 86_400_000_000_000);
    var length := s.firstEndsAt - s.firstStartsAt;
    && (forall t | t in before :: t in after && after[t] == before[t])
    && (forall t | t in after && t !in before :: exists i :: 0 <= i < |told| && t == ids[i] && told[i].Booked?)
    && (forall i: nat | i < |told| && told[i].Booked? ::
          && told[i].id == ids[i] && ids[i] in after
          && var row := after[ids[i]];
          && row == Session(event, s.roomId, s.speakerId, s.title, told[i].startsAt, row.endsAt, 1, false, Some(series), clock(i))
          && ((s.occurrences - 1) * step <= 9_223_372_036_854_775_807 ==> row.startsAt == s.firstStartsAt + i * step)
          && (length <= 9_223_372_036_854_775_807 ==> row.endsAt == row.startsAt + length))
  }

  /** What a successful recurring booking stores, column by column: the series as
      asked for, and the occurrences it told of. */
  lemma SeriesStores(
    db: DB, actor: Id, event: Id, s: SeriesInput, series: Id, ids: seq<Id>, clock: nat -> Time, now: Time)
    requires Inv(db) && FreshIds(db, [series] + ids) && s.occurrences <= |ids| && actor in db.users
    ensures var (d, r) := CreateSeries(db, actor, event, s, series, ids, clock, now);
      r.Ok? ==>
        && |r.value| == s.occurrences
        && d.series ==
             db.series[series := Series(event, s.roomId, s.speakerId, s.title, s.freq, s.interval, s.occurrences, now)]
        && OccurrencesStored(db.sessions, d.sessions, event, s, series, ids, clock, r.value)
  {
    hide AccessOk, BookingOk, RecordsOk, IssuedOk, Outcome, Materialize, TableAfter, FreshIds, OccurrencesStored, InsertSeries;
    SeriesFailsExactlyWhen(db, actor, event, s, series, ids, clock, now);
    var (inserted, row) := InsertSeries(db, SeriesRow(event, s, now), series);
    var (d, r) := CreateSeries(db, actor, event, s, series, ids, clock, now);
    if row.Ok? && r.Ok? {
      IdsAfterSeries(db, series, ids);
      InsertSeriesKeepsInv(db, SeriesRow(event, s, now), series);
      SeriesInserted(db, SeriesRow(event, s, now), series);
      MaterializeIsGreedy(inserted, actor, event, s, series, ids, clock, s.occurrences);
      BookedRows(db.sessions, d.sessions, event, s, series, ids, clock, r.value);
    }
  }

  lemma SeriesInserted(db: DB, row: Series, series: Id)
    requires InsertSeries(db, row, series).1.Ok?
    ensures InsertSeries(db, row, series).0 == db.(series := db.series[series := row], issued := db.issued + {series})
    ensures 0 < row.interval && 1 <= row.occurrences
    ensures row.eventId in db.events && row.roomId in db.rooms && row.speakerId in db.users
  {
  }

  lemma BookedRows(
    before: map<Id, Session>, after: map<Id, Session>, event: Id, s: SeriesInput, series: Id, ids: seq<Id>,
    clock: nat -> Time, told: seq<Occurrence>)
    requires 1 <= s.occurrences == |told| <= |ids| && s.interval > 0 && s.firstStartsAt < s.firstEndsAt
    requires TableAfter(before, after, event, s, series, ids, clock, s.occurrences)
    requires forall i: nat | i < s.occurrences :: told[i] == Outcome(before, event, s, series, ids[i], i)
    ensures OccurrencesStored(before, after, event, s, series, ids, clock, told)
  {
    hide Expected, Offset;
    OffsetsExactIff(s.interval, s.freq, s.occurrences);
    forall t | t in after && t !in before ensures exists i :: 0 <= i < |told| && t == ids[i] && told[i].Booked? {
      var i: nat :| i < s.occurrences && t == ids[i] && Expected(before, event, s, series, i);
      assert told[i].Booked?;
    }
  }

  lemma ClosedForms(sessions: map<Id, Session>, event: Id, s: SeriesInput, series: Id)
    requires Exact(s) ==> s.firstStartsAt < s.firstEndsAt
    ensures Exact(s) && Duration(s) <= ExactStep(s.interval, s.freq) ==>
      forall i: nat | i < s.occurrences :: Expected(sessions, event, s, series, i) <==> SlotFree(sessions, event, s, series, i)
    ensures Exact(s) && (forall j: nat | j < s.occurrences :: SlotFree(sessions, event, s, series, j)) ==>
      forall i: nat | i < s.occurrences :: Expected(sessions, event, s, series, i) <==> i % Every(s) == 0
  {
    hide Expected, SlotFree, Every, Duration, ExactStep, Exact;
    if Exact(s) && Duration(s) <= ExactStep(s.interval, s.freq) {
      forall i: nat | i < s.occurrences
        ensures Expected(sessions, event, s, series, i) <==> SlotFree(sessions, event, s, series, i)
      {
        ShortOccurrencesAreIndependent(sessions, event, s, series, i);
      }
    }
    if Exact(s) && forall j: nat | j < s.occurrences :: SlotFree(sessions, event, s, series, j) {
      forall i: nat | i < s.occurrences ensures Expected(sessions, event, s, series, i) <==> i % Every(s) == 0 {
        FreeScheduleBooksMultiples(sessions, event, s, series, i);
      }
    }
  }

  lemma IdsAfterSeries(db: DB, series: Id, ids: seq<Id>)
    requires FreshIds(db, [series] + ids)
    ensures Fresh(db, series)
    ensures forall d: DB | d.issued <= db.issued + {series} :: FreshIds(d, ids)
  {
    assert ([series] + ids)[0] == series;
    assert forall i | 0 <= i < |ids| :: ids[i] == ([series] + ids)[i + 1];
  }
}
