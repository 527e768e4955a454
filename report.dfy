/**
 * `main`: turn the optional `--start` and `--end` days into the item
 * window, construct a `User` for each requested id, skip the ones whose
 * construction raises, and write the survivors ranked by contribution.
 */
module Report {
  import opened Wrappers
  import opened Calendar
  import opened Api
  import opened Items
  import opened Users
  import opened Timestamps
  import opened Csv

  /** Why `main` stops without writing a report. */
  datatype Failure =
    | InvalidDate     // `strptime` rejects a `--start` or `--end` day
    | DateOutOfRange  // `end + timedelta(days=1)` overflows past 9999-12-31
    | NoData          // no user could be retrieved

  // ---------------------------------------------------------------------
  // The window

  /** `start`: midnight at the beginning of the day. */
  function StartBound(start: Option<Date>): Result<Option<int>, Failure> {
    match start
    case None => Ok(None)
    case Some(d) => if ValidDate(d) then Ok(Some(Seconds(Midnight(d)))) else Err(InvalidDate)
  }

  /** `end`: the day plus one day minus one second. */
  function EndBound(end: Option<Date>): Result<Option<int>, Failure> {
    match end
    case None => Ok(None)
    case Some(d) =>
      if !ValidDate(d) then Err(InvalidDate)
      else
        match EndOfDay(d)
        case None => Err(DateOutOfRange)
        case Some(t) => Ok(Some(t))
  }

  /** The window every item is checked against; `start` is handled before `end`. */
  function MakeWindow(start: Option<Date>, end: Option<Date>): Result<Window, Failure> {
    match StartBound(start)
    case Err(e) => Err(e)
    case Ok(s) =>
      match EndBound(end)
      case Err(e) => Err(e)
      case Ok(t) => Ok(Window(s, t))
  }

  // ---------------------------------------------------------------------
  // The users

  /** The records of the users whose construction succeeds, in input order. */
  function Successes(api: Server, ids: seq<UserId>, w: Window): seq<Record> {
    if ids == [] then []
    else
      Successes(api, ids[..|ids| - 1], w)
        + match UserOutcome(api, ids[|ids| - 1], w)
          case None => []
          case Some(r) => [r]
  }

  /** The loop of `main` over the requested ids, with its `try`/`except`. */
  method Collect(api: Server, ids: seq<UserId>, w: Window) returns (contributions: seq<Record>)
    ensures contributions == Successes(api, ids, w)
  {
    hide UserOutcome;
    contributions := [];
    for i := 0 to |ids|
      invariant contributions == Successes(api, ids[..i], w)
    {
      assert ids[..i + 1][..i] == ids[..i];
      var user := new User(ids[i], w);
      var ok := user.Retrieve(api);
      if ok {
        contributions := contributions + [user.GetContribution()];
      }
    }
    assert ids[..|ids|] == ids;
  }

  // ---------------------------------------------------------------------
  // Ranking

  /**
   * Put `r` before the first record whose contribution is not greater, so
   * that among equal contributions the earlier record stays first.
   */
  function Insert(r: Record, rs: seq<Record>): seq<Record> {
    if rs == [] || rs[0].contribution <= r.contribution then [r] + rs
    else [rs[0]] + Insert(r, rs[1..])
  }

  /** `sorted(contributions, key=lambda x: x['contribution'], reverse=True)`. */
  function SortByContribution(rs: seq<Record>): seq<Record> {
    if rs == [] then [] else Insert(rs[0], SortByContribution(rs[1..]))
  }

  predicate NonIncreasing(rs: seq<Record>) {
    forall i, j :: 0 <= i < j < |rs| ==> rs[i].contribution >= rs[j].contribution
  }

  /** The records with contribution `c`, in order. */
  function WithContribution(rs: seq<Record>, c: nat): seq<Record> {
    if rs == [] then []
    else (if rs[0].contribution == c then [rs[0]] else []) + WithContribution(rs[1..], c)
  }

  // ---------------------------------------------------------------------
  // The output file

  const Columns := ["user_id", "followees", "followers", "items", "likes", "stockers", "comments", "contribution"]

  /** The first line of the file. */
  function Header(): string {
    Join(["rank"] + Columns) + "\n"
  }

  function RowFields(rank: nat, r: Record): seq<string> {
    [NatToString(rank), r.userId, NatToString(r.followees), NatToString(r.followers),
     NatToString(r.items), NatToString(r.likes), NatToString(r.stockers),
     NatToString(r.comments), NatToString(r.contribution)]
  }

  /** The line of the record ranked `rank`. */
  function Row(rank: nat, r: Record): string {
    Join(RowFields(rank, r)) + "\n"
  }

  /** One line per record, ranked from 1. */
  function Rows(ranked: seq<Record>): (lines: seq<string>)
    ensures |lines| == |ranked|
  {
    seq(|ranked|, i requires 0 <= i < |ranked| => Row(i + 1, ranked[i]))
  }

  /** The lines of the report of a non-empty list of records. */
  function ReportLines(contributions: seq<Record>): seq<string> {
    [Header()] + Rows(SortByContribution(contributions))
  }

  /** What one run of `main` writes, or why it stops. */
  function Outcome(api: Server, ids: seq<UserId>, start: Option<Date>, end: Option<Date>): Result<seq<string>, Failure> {
    match MakeWindow(start, end)
    case Err(e) => Err(e)
    case Ok(w) =>
      var contributions := Successes(api, ids, w);
      if contributions == [] then Err(NoData) else Ok(ReportLines(contributions))
  }

  /** The writing loop of `main`: the header, then one ranked line per record. */
  method WriteReport(contributions: seq<Record>) returns (lines: seq<string>)
    ensures lines == ReportLines(contributions)
  {
    var ranked := SortByContribution(contributions);
    lines := [Header()];
    for i := 0 to |ranked|
      invariant lines == [Header()] + Rows(ranked[..i])
    {
      lines := lines + [Row(i + 1, ranked[i])];
    }
    assert ranked[..|ranked|] == ranked;
  }

  /** `main` after argument parsing. */
  method Run(api: Server, ids: seq<UserId>, start: Option<Date>, end: Option<Date>)
    returns (out: Result<seq<string>, Failure>)
    ensures out == Outcome(api, ids, start, end)
  {
    var window := MakeWindow(start, end);
    if window.Err? {
      return Err(window.error);
    }
    var contributions := Collect(api, ids, window.value);
    if |contributions| < 1 {
      return Err(NoData);
    }
    var lines := WriteReport(contributions);
    return Ok(lines);
  }

  /** A line of the file read back: the rank and the record. */
  function ParseRow(line: string): Option<(nat, Record)> {
    if line == [] || line[|line| - 1] != '\n' then None
    else
      var fs := Split(line[..|line| - 1]);
      if |fs| != 9 then None
      else
        match (ParseNat(fs[0]), ParseNat(fs[2]), ParseNat(fs[3]), ParseNat(fs[4]), ParseNat(fs[5]),
               ParseNat(fs[6]), ParseNat(fs[7]), ParseNat(fs[8]))
        case (Some(rank), Some(a), Some(b), Some(c), Some(d), Some(e), Some(f), Some(g)) =>
          Some((rank, Record(fs[1], a, b, c, d, e, f, g)))
        case _ => None
  }

  // ---------------------------------------------------------------------
  // Lemmas: the window

  /** With a `--start` day, an item passes the lower bound iff it was updated on that day or later. */
  lemma StartBoundMeaning(d: Date, t: DateTime)
    requires ValidDate(d) && ValidDateTime(t)
    ensures StartBound(Some(d)).Ok? && StartBound(Some(d)).value.Some?
    ensures StartBound(Some(d)).value.value <= Seconds(t) <==> !DateBefore(t.date, d)
  {
    SecondsOrder(t, Midnight(d));
  }

  /** With an `--end` day before 9999-12-31, an item passes the upper bound iff it was created on that day or earlier. */
  lemma EndBoundMeaning(d: Date, t: DateTime)
    requires ValidDate(d) && !IsMaxDate(d) && ValidDateTime(t)
    ensures EndBound(Some(d)).Ok? && EndBound(Some(d)).value.Some?
    ensures Seconds(t) <= EndBound(Some(d)).value.value <==> !DateBefore(d, t.date)
  {
    EndOfDayIsLastSecond(d);
    SecondsOrder(LastSecond(d), t);
  }

  /** `main` stops before any request exactly when a day is not a date or the end day is the last one. */
  lemma MakeWindowFails(start: Option<Date>, end: Option<Date>)
    ensures MakeWindow(start, end) == Err(InvalidDate) <==>
      (start.Some? && !ValidDate(start.value)) || (end.Some? && !ValidDate(end.value))
    ensures MakeWindow(start, end) == Err(DateOutOfRange) <==>
      (start.None? || ValidDate(start.value)) && end.Some? && ValidDate(end.value) && IsMaxDate(end.value)
    ensures MakeWindow(start, end).Err? ==> MakeWindow(start, end).error != NoData
  {
    hide Seconds, EndOfDay;
    if end.Some? && ValidDate(end.value) {
      EndOfDayFails(end.value);
    }
  }

  /**
   * An item is valid iff it was updated on or after the `--start` day and
   * created on or before the `--end` day: both days count in full.
   */
  lemma ValidityByDay(start: Option<Date>, end: Option<Date>, created: DateTime, updated: DateTime)
    requires MakeWindow(start, end).Ok?
    requires ValidDateTime(created) && ValidDateTime(updated)
    ensures InWindow(MakeWindow(start, end).value, Seconds(created), Seconds(updated)) <==>
      && (start.None? || !DateBefore(updated.date, start.value))
      && (end.None? || !DateBefore(end.value, created.date))
  {
    hide Seconds, EndOfDay;
    if start.Some? {
      StartBoundMeaning(start.value, updated);
    }
    if end.Some? {
      EndOfDayFails(end.value);
      EndBoundMeaning(end.value, created);
    }
  }

  /**
   * An item constructed under the window of `--start` and `--end` is valid
   * iff the day of its `updated_at` is not before the start day and the day
   * of its `created_at` is not after the end day.
   */
  lemma ItemValidityByDay(api: Server, id: ItemId, start: Option<Date>, end: Option<Date>)
    requires MakeWindow(start, end).Ok?
    requires ItemOutcome(api, id, MakeWindow(start, end).value).Some?
    ensures id in api.items
    ensures var data := api.items[id];
      var created, updated := ParseTimestamp(data.createdAt), ParseTimestamp(data.updatedAt);
      && created.Some? && updated.Some?
      && (ItemOutcome(api, id, MakeWindow(start, end).value).value.isValid <==>
            && (start.None? || !DateBefore(updated.value.date, start.value))
            && (end.None? || !DateBefore(end.value, created.value.date)))
  {
    var w := MakeWindow(start, end).value;
    ItemOutcomeMeaning(api, id, w);
    var data := api.items[id];
    var created, updated := ParseTimestamp(data.createdAt).value, ParseTimestamp(data.updatedAt).value;
    ValidityByDay(start, end, created, updated);
  }

  // ---------------------------------------------------------------------
  // Lemmas: the users

  lemma {:induction false} SuccessesConcat(api: Server, a: seq<UserId>, b: seq<UserId>, w: Window)
    ensures Successes(api, a + b, w) == Successes(api, a, w) + Successes(api, b, w)
    decreases |b|
  {
    hide UserOutcome;
    if b == [] {
      assert a + b == a;
    } else {
      var b', id := b[..|b| - 1], b[|b| - 1];
      assert (a + b)[..|a + b| - 1] == a + b';
      SuccessesConcat(api, a, b', w);
    }
  }

  /**
   * Failing users are skipped and the others keep their input order; a
   * user requested twice appears twice.
   */
  lemma {:induction false} SuccessesMeaning(api: Server, ids: seq<UserId>, w: Window)
    ensures |Successes(api, ids, w)| <= |ids|
    ensures Successes(api, ids, w) == [] <==> forall i :: 0 <= i < |ids| ==> UserOutcome(api, ids[i], w).None?
    ensures (forall i :: 0 <= i < |ids| ==> UserOutcome(api, ids[i], w).Some?) ==>
      |Successes(api, ids, w)| == |ids|
      && forall i :: 0 <= i < |ids| ==> Successes(api, ids, w)[i] == UserOutcome(api, ids[i], w).value
    decreases |ids|
  {
    hide UserOutcome;
    if ids != [] {
      var prefix := ids[..|ids| - 1];
      SuccessesMeaning(api, prefix, w);
      assert forall i :: 0 <= i < |prefix| ==> prefix[i] == ids[i];
    }
  }

  /** Every record written is the record of one of the requested users. */
  lemma {:induction false} SuccessesFromIds(api: Server, ids: seq<UserId>, w: Window)
    ensures forall r :: r in Successes(api, ids, w) ==> exists i :: 0 <= i < |ids| && UserOutcome(api, ids[i], w) == Some(r)
    decreases |ids|
  {
    hide UserOutcome;
    if ids != [] {
      var prefix := ids[..|ids| - 1];
      SuccessesFromIds(api, prefix, w);
      forall r | r in Successes(api, ids, w)
        ensures exists i :: 0 <= i < |ids| && UserOutcome(api, ids[i], w) == Some(r)
      {
        if r in Successes(api, prefix, w) {
          var i :| 0 <= i < |prefix| && UserOutcome(api, prefix[i], w) == Some(r);
          assert prefix[i] == ids[i];
        } else {
          assert UserOutcome(api, ids[|ids| - 1], w) == Some(r);
        }
      }
    }
  }

  // ---------------------------------------------------------------------
  // Lemmas: the ranking

  lemma {:induction false} InsertPermutes(r: Record, rs: seq<Record>)
    ensures multiset(Insert(r, rs)) == multiset(rs) + multiset{r}
    decreases |rs|
  {
    if rs != [] && rs[0].contribution > r.contribution {
      InsertPermutes(r, rs[1..]);
      assert rs == [rs[0]] + rs[1..];
    }
  }

  /** A bound on `r` and on every record of `rs` bounds every record of `Insert(r, rs)`. */
  lemma InsertBounded(r: Record, rs: seq<Record>, bound: nat)
    requires r.contribution <= bound
    requires forall k :: 0 <= k < |rs| ==> rs[k].contribution <= bound
    ensures forall k :: 0 <= k < |Insert(r, rs)| ==> Insert(r, rs)[k].contribution <= bound
  {
    InsertPermutes(r, rs);
    var ins := Insert(r, rs);
    forall k | 0 <= k < |ins|
      ensures ins[k].contribution <= bound
    {
      assert ins[k] in multiset(rs) + multiset{r};
      if ins[k] != r {
        assert ins[k] in rs;
      }
    }
  }

  lemma {:induction false} InsertSorted(r: Record, rs: seq<Record>)
    requires NonIncreasing(rs)
    ensures NonIncreasing(Insert(r, rs))
    decreases |rs|
  {
    if rs != [] && rs[0].contribution > r.contribution {
      var tail := rs[1..];
      InsertSorted(r, tail);
      InsertBounded(r, tail, rs[0].contribution);
      var ins := Insert(r, tail);
      var out := [rs[0]] + ins;
      forall i, j | 0 <= i < j < |out|
        ensures out[i].contribution >= out[j].contribution
      {
        assert out[j] == ins[j - 1];
        if i > 0 {
          assert out[i] == ins[i - 1];
        }
      }
    }
  }

  /** Inserting keeps `r` ahead of the records of equal contribution and keeps their order. */
  lemma {:induction false} InsertStable(r: Record, rs: seq<Record>, c: nat)
    requires NonIncreasing(rs)
    ensures WithContribution(Insert(r, rs), c) == WithContribution([r] + rs, c)
    decreases |rs|
  {
    if rs != [] && rs[0].contribution > r.contribution {
      var tail := rs[1..];
      assert NonIncreasing(tail) by {
        forall i, j | 0 <= i < j < |tail|
          ensures tail[i].contribution >= tail[j].contribution
        {
          assert tail[i] == rs[i + 1] && tail[j] == rs[j + 1];
        }
      }
      InsertStable(r, tail, c);
      assert ([rs[0]] + Insert(r, tail))[1..] == Insert(r, tail);
      assert ([r] + rs)[1..] == rs;
      assert ([r] + tail)[1..] == tail;
      assert rs[1..] == tail;
    }
  }

  /** The ranking is ordered by contribution, largest first. */
  lemma {:induction false} SortSorted(rs: seq<Record>)
    ensures NonIncreasing(SortByContribution(rs))
    decreases |rs|
  {
    if rs != [] {
      SortSorted(rs[1..]);
      InsertSorted(rs[0], SortByContribution(rs[1..]));
    }
  }

  /** The ranking holds exactly the records it was given. */
  lemma {:induction false} SortPermutes(rs: seq<Record>)
    ensures multiset(SortByContribution(rs)) == multiset(rs)
    decreases |rs|
  {
    if rs != [] {
      SortPermutes(rs[1..]);
      InsertPermutes(rs[0], SortByContribution(rs[1..]));
      assert rs == [rs[0]] + rs[1..];
    }
  }

  /** Records of equal contribution keep their input order: the sort is stable. */
  lemma {:induction false} SortStable(rs: seq<Record>, c: nat)
    ensures WithContribution(SortByContribution(rs), c) == WithContribution(rs, c)
    decreases |rs|
  {
    if rs != [] {
      SortStable(rs[1..], c);
      SortSorted(rs[1..]);
      InsertStable(rs[0], SortByContribution(rs[1..]), c);
      assert ([rs[0]] + SortByContribution(rs[1..]))[1..] == SortByContribution(rs[1..]);
    }
  }

  // ---------------------------------------------------------------------
  // Lemmas: the file

  /** The header names the rank and then the eight columns. */
  lemma HeaderFields()
    ensures Split(Header()[..|Header()| - 1]) == ["rank"] + Columns
  {
    var fs := ["rank"] + Columns;
    assert Plain(fs);
    SplitJoin(fs);
    assert Header()[..|Header()| - 1] == Join(fs);
  }

  /**
   * A row read back gives its rank and its record, for any user id
   * without a comma (ids come from splitting `--users` at commas).
   */
  lemma RowRoundTrip(rank: nat, r: Record)
    requires ',' !in r.userId
    ensures ParseRow(Row(rank, r)) == Some((rank, r))
  {
    RowSplits(rank, r);
    NatRoundTrip(rank);
    NatRoundTrip(r.followees);
    NatRoundTrip(r.followers);
    NatRoundTrip(r.items);
    NatRoundTrip(r.likes);
    NatRoundTrip(r.stockers);
    NatRoundTrip(r.comments);
    NatRoundTrip(r.contribution);
  }

  /** A row is its nine fields joined by commas and ended by a newline. */
  lemma RowSplits(rank: nat, r: Record)
    requires ',' !in r.userId
    ensures var line := Row(rank, r);
      line != [] && line[|line| - 1] == '\n' && Split(line[..|line| - 1]) == RowFields(rank, r)
  {
    var fs := RowFields(rank, r);
    forall k | 0 <= k < |fs| && k != 1
      ensures ',' !in fs[k]
    {
      assert forall i :: 0 <= i < |fs[k]| ==> IsDigit(fs[k][i]);
    }
    assert Plain(fs);
    SplitJoin(fs);
    var line := Row(rank, r);
    assert line[..|line| - 1] == Join(fs);
  }

  // ---------------------------------------------------------------------
  // Lemmas: a whole run

  /** The run fails with `NoData` exactly when the days are accepted and every user fails. */
  lemma OutcomeNoData(api: Server, ids: seq<UserId>, start: Option<Date>, end: Option<Date>)
    ensures Outcome(api, ids, start, end) == Err(NoData) <==>
      MakeWindow(start, end).Ok?
      && forall i :: 0 <= i < |ids| ==> UserOutcome(api, ids[i], MakeWindow(start, end).value).None?
  {
    hide UserOutcome, Successes;
    MakeWindowFails(start, end);
    if MakeWindow(start, end).Ok? {
      SuccessesMeaning(api, ids, MakeWindow(start, end).value);
    }
  }

  /**
   * A report is the header, then one line per successful user: ranked
   * from 1, by contribution from largest to smallest, with every
   * successful user exactly once; each line reads back as its rank and
   * its user's record.
   */
  lemma OutcomeReport(api: Server, ids: seq<UserId>, start: Option<Date>, end: Option<Date>)
    requires Outcome(api, ids, start, end).Ok?
    requires forall i :: 0 <= i < |ids| ==> ',' !in ids[i]
    ensures MakeWindow(start, end).Ok?
    ensures var lines, ranked := Outcome(api, ids, start, end).value,
                                 SortByContribution(Successes(api, ids, MakeWindow(start, end).value));
      && |lines| == |ranked| + 1 >= 2
      && lines[0] == Header()
      && NonIncreasing(ranked)
      && multiset(ranked) == multiset(Successes(api, ids, MakeWindow(start, end).value))
      && forall i :: 1 <= i < |lines| ==> ParseRow(lines[i]) == Some((i, ranked[i - 1]))
  {
    hide UserOutcome, Successes;
    var rs := Successes(api, ids, MakeWindow(start, end).value);
    SuccessesNamed(api, ids, MakeWindow(start, end).value);
    ReportLinesMeaning(rs);
  }

  /** Every successful record carries the id it was requested under. */
  lemma SuccessesNamed(api: Server, ids: seq<UserId>, w: Window)
    ensures forall r :: r in Successes(api, ids, w) ==> exists i :: 0 <= i < |ids| && r.userId == ids[i]
  {
    hide UserOutcome, Successes;
    SuccessesFromIds(api, ids, w);
    forall r | r in Successes(api, ids, w)
      ensures exists i :: 0 <= i < |ids| && r.userId == ids[i]
    {
      var j :| 0 <= j < |ids| && UserOutcome(api, ids[j], w) == Some(r);
      UserOutcomeMeaning(api, ids[j], w);
    }
  }

  /** The lines written for a non-empty list of records whose ids hold no comma. */
  lemma ReportLinesMeaning(rs: seq<Record>)
    requires rs != []
    requires forall r :: r in rs ==> ',' !in r.userId
    ensures var lines, ranked := ReportLines(rs), SortByContribution(rs);
      && |lines| == |ranked| + 1 == |rs| + 1
      && lines[0] == Header()
      && NonIncreasing(ranked)
      && multiset(ranked) == multiset(rs)
      && forall i :: 1 <= i < |lines| ==> ParseRow(lines[i]) == Some((i, ranked[i - 1]))
  {
    var ranked := SortByContribution(rs);
    var lines := ReportLines(rs);
    SortSorted(rs);
    SortPermutes(rs);
    assert |ranked| == |rs| by {
      assert |multiset(ranked)| == |multiset(rs)|;
    }
    forall i | 1 <= i < |lines|
      ensures ParseRow(lines[i]) == Some((i, ranked[i - 1]))
    {
      var r := ranked[i - 1];
      assert r in multiset(rs);
      assert lines[i] == Row(i, r);
      RowRoundTrip(i, r);
    }
  }
}
