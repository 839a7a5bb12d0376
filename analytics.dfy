/** The focus-consistency report: minutes of focus per calendar day over the
    last `days` days, today included, with a zero for each day without
    activity. Only sessions marked `countsTowardStats` contribute, with their
    `actualDuration`. The handler as written matches the caller by the string
    id of the access token, which no stored ObjectId equals; the model gives
    both that pipeline and the one with the id converted. */
module Analytics {

  import opened Common
  import opened Query
  import opened Sessions

  /** One entry of the report. */
  datatype DayMinutes = DayMinutes(day: int, minutes: int)

  /** The first day of a window of `days` days ending today: midnight of
      `days - 1` days ago. */
  function WindowStart(now: int, days: int): (from: int)
    ensures DayStart(from + days - 1) <= now <= DayEnd(from + days - 1)
  {
    WithinDayBounds(now, DayOf(now));
    DayOf(now) - (days - 1)
  }

  /** The value `$match` compares a session's `userID` with. The stored
      `userID` is an ObjectId; `req.userID` is the id as the access token
      carries it, a hex string. An aggregation does not cast its pipeline to
      the schema's types, and values of different BSON types never compare
      equal, so `IdString(n)` matches no stored `userID`, not even `n`'s. */
  datatype MatchId = ObjectId(oid: UserId) | IdString(hex: UserId)

  /** The `$match` stage: the sessions whose owner equals `caller`, counted,
      and started at or after midnight of day `from`. */
  predicate Qualifies(s: Session, caller: MatchId, from: int)
    ensures Qualifies(s, caller, from) ==> caller == ObjectId(s.userID) && DayOf(s.startTime) >= from
  {
    AfterMidnight(s.startTime, from);
    ObjectId(s.userID) == caller && s.countsTowardStats && s.startTime >= DayStart(from)
  }

  /** What `$sum` adds for a session: a missing duration adds nothing. */
  function Minutes(s: Session): int {
    if s.actualDuration.Some? then s.actualDuration.value else 0
  }

  /** `minutesByDate.get(key) || 0`. */
  function Lookup(totals: map<int, int>, day: int): int {
    if day in totals then totals[day] else 0
  }

  /** The `$match` and `$group` stages: the summed minutes of the qualifying
      sessions under the day they started on. No day before `from` is
      grouped, and the string id of the handler as written groups nothing. */
  function GroupByDay(docs: seq<Session>, caller: MatchId, from: int): (totals: map<int, int>)
    ensures forall day :: day in totals ==> day >= from
    ensures caller.IdString? ==> totals == map[]
  {
    if docs == [] then map[]
    else
      var totals := GroupByDay(docs[1..], caller, from);
      var s := docs[0];
      if Qualifies(s, caller, from) then
        totals[DayOf(s.startTime) := Minutes(s) + Lookup(totals, DayOf(s.startTime))]
      else totals
  }

  /** A counted session of `caller` started on `day`. */
  predicate CountsOn(s: Session, caller: UserId, day: int) {
    s.userID == caller && s.countsTowardStats && DayOf(s.startTime) == day
  }

  function SumMinutes(docs: seq<Session>): int {
    if docs == [] then 0 else Minutes(docs[0]) + SumMinutes(docs[1..])
  }

  /** The reference total for one day: the minutes of every counted session
      of `caller` that started on `day`. */
  function DayTotal(docs: seq<Session>, caller: UserId, day: int): int {
    SumMinutes(Filter(docs, (s: Session) => CountsOn(s, caller, day)))
  }

  /** A timestamp lies at or after midnight of day `from` exactly when its
      day is `from` or later. */
  lemma AfterMidnight(t: int, from: int)
    ensures t >= DayStart(from) <==> DayOf(t) >= from
  {
    var q, r := t / MsPerDay, t % MsPerDay;
    assert t == q * MsPerDay + r && 0 <= r < MsPerDay;
    if q >= from {
      assert q * MsPerDay >= from * MsPerDay;
    } else {
      assert (q + 1) * MsPerDay <= from * MsPerDay;
    }
  }

  /** The grouped totals are the reference totals: a day of the window gets
      all the minutes counted on it, and no earlier day appears. */
  lemma {:induction false} GroupMatchesTotal(docs: seq<Session>, caller: UserId, from: int, day: int)
    ensures Lookup(GroupByDay(docs, ObjectId(caller), from), day) == if day >= from then DayTotal(docs, caller, day) else 0
  {
    if docs != [] {
      var s := docs[0];
      var p := (x: Session) => CountsOn(x, caller, day);
      GroupMatchesTotal(docs[1..], caller, from, day);
      assert Filter(docs, p) == (if p(s) then [s] else []) + Filter(docs[1..], p);
      if p(s) {
        assert Filter(docs, p)[1..] == Filter(docs[1..], p);
      } else {
        assert Filter(docs, p) == Filter(docs[1..], p);
      }
      AfterMidnight(s.startTime, from);
    }
  }

  /** The loop that fills the report: one entry per day of the window, the
      day's total or zero. */
  method ZeroFill(totals: map<int, int>, start: int, days: int) returns (response: seq<DayMinutes>)
    ensures |response| == if days > 0 then days else 0
    ensures forall i :: 0 <= i < |response| ==>
      response[i].day == start + i && response[i].minutes == Lookup(totals, start + i)
  {
    response := [];
    var i := 0;
    while i < days
      invariant days > 0 ==> 0 <= i <= days
      invariant days <= 0 ==> i == 0
      invariant |response| == i
      invariant forall k :: 0 <= k < i ==>
        response[k].day == start + k && response[k].minutes == Lookup(totals, start + k)
    {
      var key := start + i;
      response := response + [DayMinutes(key, Lookup(totals, key))];
      i := i + 1;
    }
  }

  /** `focusConsistency` (`GET /api/analytics/focus-consistency/:days`) as
      written: `$match` is given the caller's id as the string the access
      token carries, which matches no session, so each of the last `days`
      days, oldest first and ending today, reports 0. */
  method FocusConsistency(sessions: SessionTable, caller: UserId, days: int, now: int)
    returns (r: Response<seq<DayMinutes>>)
    requires sessions.Valid()
    ensures r.status == 200 && r.payload.Some?
    ensures |r.payload.value| == if days > 0 then days else 0
    ensures forall i :: 0 <= i < |r.payload.value| ==>
      r.payload.value[i] == DayMinutes(WindowStart(now, days) + i, 0)
    ensures days >= 1 ==> r.payload.value[days - 1].day == DayOf(now)
  {
    var from := WindowStart(now, days);
    var docs := Collect(sessions.rows, sessions.nextId);
    var minutesByDate := GroupByDay(docs, IdString(caller), from);
    var response := ZeroFill(minutesByDate, from, days);
    r := Response(200, "", Some(response));
  }

  /** `focusConsistency` with the caller's id converted to an
      ObjectId before `$match`: for each of the last `days` days, oldest
      first and ending today, the minutes counted on that day. */
  method FocusConsistencyWithObjectId(sessions: SessionTable, caller: UserId, days: int, now: int)
    returns (r: Response<seq<DayMinutes>>)
    requires sessions.Valid()
    ensures r.status == 200 && r.payload.Some?
    ensures |r.payload.value| == if days > 0 then days else 0
    ensures forall i :: 0 <= i < |r.payload.value| ==>
      r.payload.value[i] == DayMinutes(WindowStart(now, days) + i,
                                       DayTotal(Collect(sessions.rows, sessions.nextId), caller, WindowStart(now, days) + i))
    ensures days >= 1 ==> r.payload.value[days - 1].day == DayOf(now)
  {
    var from := WindowStart(now, days);
    var docs := Collect(sessions.rows, sessions.nextId);
    var minutesByDate := GroupByDay(docs, ObjectId(caller), from);
    var response := ZeroFill(minutesByDate, from, days);
    forall i | 0 <= i < |response|
      ensures response[i] == DayMinutes(from + i, DayTotal(docs, caller, from + i))
    {
      GroupMatchesTotal(docs, caller, from, from + i);
    }
    r := Response(200, "", Some(response));
  }

  /** No session marked as counting toward the statistics: every day of the
      report is zero. */
  lemma {:induction false} NothingCountedMeansZero(docs: seq<Session>, caller: UserId, day: int)
    requires forall i :: 0 <= i < |docs| ==> !docs[i].countsTowardStats
    ensures DayTotal(docs, caller, day) == 0
  {
    if docs != [] {
      NothingCountedMeansZero(docs[1..], caller, day);
      assert Filter(docs, (s: Session) => CountsOn(s, caller, day))
          == Filter(docs[1..], (s: Session) => CountsOn(s, caller, day));
    }
  }

  lemma {:induction false} SumMinutesAppend(a: seq<Session>, b: seq<Session>)
    ensures SumMinutes(a + b) == SumMinutes(a) + SumMinutes(b)
  {
    if a != [] {
      SumMinutesAppend(a[1..], b);
      assert (a + b)[0] == a[0] && (a + b)[1..] == a[1..] + b;
    } else {
      assert a + b == b;
    }
  }

  /** The reference total of one more session: its minutes count when it is
      a counted session of `caller` on `day`, and nothing else changes. */
  lemma DayTotalSnoc(docs: seq<Session>, s: Session, caller: UserId, day: int)
    ensures DayTotal(docs + [s], caller, day)
         == DayTotal(docs, caller, day) + (if CountsOn(s, caller, day) then Minutes(s) else 0)
  {
    var p := (x: Session) => CountsOn(x, caller, day);
    FilterAppend(docs, [s], p);
    assert Filter([s], p) == (if p(s) then [s] else []) + Filter([s][1..], p);
    SumMinutesAppend(Filter(docs, p), Filter([s], p));
  }

  /** Sessions of other users never reach the caller's report. */
  lemma OthersIgnored(docs: seq<Session>, other: Session, caller: UserId, day: int)
    requires other.userID != caller
    ensures DayTotal(docs + [other], caller, day) == DayTotal(docs, caller, day)
  {
    DayTotalSnoc(docs, other, caller, day);
  }

  /** A three-day window ending on day 10 with 20 minutes on day 8 and 15 on
      day 10 (and another user's 30 minutes on day 9): with the id converted
      the pipeline groups 20, 0 and 15, as the reference totals say; with the
      string id of the handler as written it groups nothing, so the report
      is 0, 0 and 0. */
  lemma ThreeDayWindow()
    ensures var docs := [Session(0, 1, 0, true, 8 * MsPerDay + 3_600_000, None, None, true, Some(20)),
                         Session(1, 1, 0, true, 10 * MsPerDay, None, None, true, Some(15)),
                         Session(2, 2, 0, true, 9 * MsPerDay, None, None, true, Some(30))];
      && WindowStart(10 * MsPerDay + 5, 3) == 8
      && DayTotal(docs, 1, 8) == 20 && DayTotal(docs, 1, 9) == 0 && DayTotal(docs, 1, 10) == 15
      && Lookup(GroupByDay(docs, ObjectId(1), 8), 8) == 20
      && Lookup(GroupByDay(docs, ObjectId(1), 8), 9) == 0
      && Lookup(GroupByDay(docs, ObjectId(1), 8), 10) == 15
      && GroupByDay(docs, IdString(1), 8) == map[]
  {
    var a := Session(0, 1, 0, true, 8 * MsPerDay + 3_600_000, None, None, true, Some(20));
    var b := Session(1, 1, 0, true, 10 * MsPerDay, None, None, true, Some(15));
    var c := Session(2, 2, 0, true, 9 * MsPerDay, None, None, true, Some(30));
    assert [a] == [] + [a] && [a, b] == [a] + [b] && [a, b, c] == [a, b] + [c];
    DayTotalSnoc([], a, 1, 8);
    DayTotalSnoc([a], b, 1, 8);
    DayTotalSnoc([a, b], c, 1, 8);
    DayTotalSnoc([], a, 1, 9);
    DayTotalSnoc([a], b, 1, 9);
    DayTotalSnoc([a, b], c, 1, 9);
    DayTotalSnoc([], a, 1, 10);
    DayTotalSnoc([a], b, 1, 10);
    DayTotalSnoc([a, b], c, 1, 10);
    GroupMatchesTotal([a, b, c], 1, 8, 8);
    GroupMatchesTotal([a, b, c], 1, 8, 9);
    GroupMatchesTotal([a, b, c], 1, 8, 10);
  }
}
