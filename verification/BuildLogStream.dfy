/**
 Streaming build logs while the build is still writing them: a reader that pages through the
 log by sequence number, and a writer that may append between any two of its reads.
 */
module BuildLogStream {
  import opened Common

  datatype Log = Log(sequence: int, text: string)

  datatype BuildStatus = Queued | Running | CancelRequested | Success | Failed | Unsupported | Cancelled | Interrupted

  /** The statuses that end a stream. An interrupted build is not among them. */
  predicate Terminal(s: BuildStatus) { s == Success || s == Failed || s == Unsupported || s == Cancelled }

  // ---------------------------------------------------------------------------
  // Pages
  // ---------------------------------------------------------------------------

  datatype Cursor = Newest | After(sequence: int) | Before(sequence: int) | FromStart

  function Clamp(limit: int): nat {
    var wanted := if limit == 0 then 200 else limit;
    if wanted < 1 then 1 else if wanted > 1000 then 1000 else wanted
  }

  function Take<T>(s: seq<T>, n: nat): seq<T> { if |s| <= n then s else s[..n] }

  function TakeLast<T>(s: seq<T>, n: nat): seq<T> { if |s| <= n then s else s[|s| - n..] }

  /** The rows a query selects, in order of their sequence numbers. */
  function Selected(log: seq<Log>, cursor: Cursor): seq<Log> {
    if log == [] then []
    else
      var keep := match cursor
        case After(s) => log[0].sequence > s
        case Before(s) => log[0].sequence < s
        case _ => true;
      (if keep then [log[0]] else []) + Selected(log[1..], cursor)
  }

  /** Cursors before a row and the tail count from the end, the others from the start. */
  function Page(log: seq<Log>, cursor: Cursor, limit: int): seq<Log> {
    if cursor.Newest? || cursor.Before? then TakeLast(Selected(log, cursor), Clamp(limit))
    else Take(Selected(log, cursor), Clamp(limit))
  }

  ghost predicate Ordered(log: seq<Log>) {
    && (forall i :: 0 <= i < |log| ==> log[i].sequence >= 0)
    && (forall i, j :: 0 <= i < j < |log| ==> log[i].sequence < log[j].sequence)
  }

  lemma {:induction false} SelectedAll(log: seq<Log>, cursor: Cursor)
    requires forall i :: 0 <= i < |log| ==>
               match cursor case After(s) => log[i].sequence > s case Before(s) => log[i].sequence < s case _ => true
    ensures Selected(log, cursor) == log
  {
    if log != [] {
      SelectedAll(log[1..], cursor);
    }
  }

  /** After the last row read, an ordered log holds exactly the rows not read yet. */
  lemma {:induction false} SelectedAfter(log: seq<Log>, n: nat, last: int)
    requires Ordered(log) && n <= |log| && last == if n == 0 then -1 else log[n - 1].sequence
    ensures Selected(log, After(last)) == log[n..]
    decreases n
  {
    if n == 0 {
      SelectedAll(log, After(last));
      assert log[0..] == log;
    } else {
      SkipFirst(log, n, last);
    }
  }

  lemma {:induction false} SkipFirst(log: seq<Log>, n: nat, last: int)
    requires Ordered(log) && 0 < n <= |log| && last == log[n - 1].sequence
    ensures Selected(log, After(last)) == log[n..]
    decreases |log|
  {
    assert log[0].sequence <= last;
    if n == 1 {
      SelectedAll(log[1..], After(last));
    } else {
      SkipFirst(log[1..], n - 1, last);
      assert log[1..][n - 1..] == log[n..];
    }
  }

  /** Rows by position: the first `k` of an ordered log have sequence numbers up to `s`, the others do not. */
  ghost predicate SplitsAt(log: seq<Log>, s: int, k: nat) {
    && k <= |log| && (forall i :: 0 <= i < k ==> log[i].sequence <= s)
    && (forall i :: k <= i < |log| ==> log[i].sequence > s)
  }

  /** How many rows a query asks for: 200 for 0, and never fewer than 1 nor more than 1000. */
  function Asked(limit: int): nat {
    if limit == 0 then 200 else if limit < 1 then 1 else if limit > 1000 then 1000 else limit
  }

  /** A query from a row on: after it the next rows, before it the rows just before. */
  lemma PageAround(log: seq<Log>, s: int, k: nat, limit: int)
    requires SplitsAt(log, s, k)
    ensures Page(log, After(s), limit) == log[k..if |log| - k <= Asked(limit) then |log| else k + Asked(limit)]
    ensures Page(log, Before(s + 1), limit) == log[if k <= Asked(limit) then 0 else k - Asked(limit)..k]
  {
    SelectedSplit(log, s, k);
  }

  /** A query without a row: the first rows or, in tail mode, the last. */
  lemma PageAtEnds(log: seq<Log>, limit: int)
    ensures Page(log, FromStart, limit) == log[..if |log| <= Asked(limit) then |log| else Asked(limit)]
    ensures Page(log, Newest, limit) == log[if |log| <= Asked(limit) then 0 else |log| - Asked(limit)..]
  {
    SelectedAll(log, FromStart);
    SelectedAll(log, Newest);
  }

  lemma {:induction false} SelectedSplit(log: seq<Log>, s: int, k: nat)
    requires SplitsAt(log, s, k)
    ensures Selected(log, After(s)) == log[k..] && Selected(log, Before(s + 1)) == log[..k]
    decreases |log|
  {
    if log != [] {
      if k == 0 {
        SelectedSplit(log[1..], s, 0);
      } else {
        SelectedSplit(log[1..], s, k - 1);
        assert log[..k] == [log[0]] + log[1..][..k - 1];
      }
    }
  }

  // ---------------------------------------------------------------------------
  // The race
  // ---------------------------------------------------------------------------

  /** What the database holds at one moment; `None` once the build is deleted. */
  datatype Build = Build(log: seq<Log>, status: BuildStatus)

  type Moment = Option<Build>

  /** A writer that only appends, in order, and writes a terminal status after its last row. */
  ghost predicate History(h: seq<Moment>) {
    && (forall i: nat :: i < |h| ==> OrderedAt(h, i))
    && (forall i: nat, j: nat :: i <= j < |h| ==> GrowsBetween(h, i, j))
  }

  ghost predicate OrderedAt(h: seq<Moment>, i: nat)
    requires i < |h|
  {
    h[i].Some? ==> Ordered(h[i].value.log)
  }

  ghost predicate GrowsBetween(h: seq<Moment>, i: nat, j: nat)
    requires i < |h| && j < |h|
  {
    h[j].Some? ==> h[i].Some? && Grows(h[i].value, h[j].value)
  }

  ghost predicate Grows(a: Build, b: Build) {
    a.log <= b.log && (Terminal(a.status) ==> b.log == a.log)
  }

  /** One round of the reader: when it reads the build row, checks that it exists, and queries the page. */
  datatype Round = Round(statusAt: nat, checkAt: nat, pageAt: nat)

  ghost predicate Schedule(h: seq<Moment>, rounds: seq<Round>) {
    && (forall i: nat :: i < |rounds| ==> RoundOk(h, rounds, i))
    && (forall i: nat, j: nat :: i < j < |rounds| ==> InOrder(rounds, i, j))
  }

  ghost predicate RoundOk(h: seq<Moment>, rounds: seq<Round>, i: nat)
    requires i < |rounds|
  {
    rounds[i].statusAt <= rounds[i].checkAt <= rounds[i].pageAt < |h|
  }

  ghost predicate InOrder(rounds: seq<Round>, i: nat, j: nat)
    requires i < |rounds| && j < |rounds|
  {
    rounds[i].pageAt <= rounds[j].statusAt
  }

  datatype Event = LogEvent(log: Log) | StatusEvent(status: BuildStatus, count: nat)

  function LogsOf(events: seq<Event>): seq<Log> {
    if events == [] then []
    else LogsOf(events[..|events| - 1]) + if events[|events| - 1].LogEvent? then [events[|events| - 1].log] else []
  }

  lemma {:induction false} LogsOfConcat(a: seq<Event>, b: seq<Event>)
    ensures LogsOf(a + b) == LogsOf(a) + LogsOf(b)
    decreases |b|
  {
    if b == [] {
      assert a + b == a;
    } else {
      assert (a + b)[..|a + b| - 1] == a + b[..|b| - 1];
      LogsOfConcat(a, b[..|b| - 1]);
    }
  }

  /** The status events among these. */
  function StatusesOf(events: seq<Event>): seq<Event> {
    if events == [] then []
    else StatusesOf(events[..|events| - 1]) + if events[|events| - 1].StatusEvent? then [events[|events| - 1]] else []
  }

  lemma {:induction false} PageHasNoStatus(events: seq<Event>, page: seq<Event>)
    requires forall i :: 0 <= i < |page| ==> page[i].LogEvent?
    ensures StatusesOf(events + page) == StatusesOf(events)
    decreases |page|
  {
    if page == [] {
      assert events + page == events;
    } else {
      assert (events + page)[..|events + page| - 1] == events + page[..|page| - 1];
      PageHasNoStatus(events, page[..|page| - 1]);
    }
  }

  /** The rows sent are a stretch of the log. */
  ghost predicate Stretch(log: seq<Log>, start: nat, n: nat, sent: seq<Log>) {
    start <= n <= |log| && sent == log[start..n]
  }

  /** What a reader has sent: a stretch of the log, with its cursor at the end of the stretch. */
  ghost predicate Reading(log: seq<Log>, start: nat, n: nat, sent: seq<Log>, last: int) {
    Stretch(log, start, n, sent) && last == if n == 0 then -1 else log[n - 1].sequence
  }

  lemma ReadingContinues(log: seq<Log>, longer: seq<Log>, start: nat, n: nat, sent: seq<Log>, last: int)
    requires Reading(log, start, n, sent, last) && log <= longer
    ensures Reading(longer, start, n, sent, last)
  {
  }

  const PAGE: nat := 1000

  /** Where a page that begins at row `n` ends. */
  function Advance(n: nat, total: nat): nat { if total - n <= PAGE then total else n + PAGE }

  lemma PageAdvances(log: seq<Log>, start: nat, n: nat, sent: seq<Log>, last: int, page: seq<Log>)
    requires Ordered(log) && Reading(log, start, n, sent, last)
    requires page == Page(log, After(last), PAGE)
    ensures n + |page| <= |log| && page == log[n..n + |page|]
    ensures Reading(log, start, n + |page|, sent + page, LastOf(page, last))
    ensures n + |page| == Advance(n, |log|)
  {
    SelectedAfter(log, n, last);
    var rest := log[n..];
    assert page == rest[..|page|];
    assert log[start..n] + log[n..n + |page|] == log[start..n + |page|];
  }

  lemma TailPage(log: seq<Log>)
    ensures Page(log, Newest, 200) == log[TailStart(log)..|log|]
  {
    SelectedAll(log, Newest);
  }

  lemma TailStarts(log: seq<Log>, page: seq<Log>)
    requires page == log[TailStart(log)..|log|]
    ensures Reading(log, TailStart(log), |log|, [] + page, LastOf(page, -1))
  {
    assert [] + page == page;
  }

  function EventsOf(logs: seq<Log>): (events: seq<Event>)
    ensures |events| == |logs| && LogsOf(events) == logs
    ensures forall i :: 0 <= i < |events| ==> events[i].LogEvent?
  {
    if logs == [] then []
    else
      var init := EventsOf(logs[..|logs| - 1]);
      var events := init + [LogEvent(logs[|logs| - 1])];
      assert events[..|events| - 1] == init;
      events
  }

  /** Where the stream begins: at the first row, or with the last 200 rows of the first page. */
  function StartOf(h: seq<Moment>, rounds: seq<Round>, tail: bool): nat {
    if tail then TailStart(Seen(h, rounds, 1)) else 0
  }

  /** No status before the last event would have made a client stop reading. */
  ghost predicate StaysOpen(events: seq<Event>) {
    forall i :: 0 <= i < |events| ==> KeepsOpen(events[i])
  }

  predicate KeepsOpen(e: Event) { e.StatusEvent? ==> !Terminal(e.status) }

  /** What a read at some moment finds. */
  function At(h: seq<Moment>, t: nat): Moment {
    if t < |h| then h[t] else None
  }

  /** The build was deleted after the round's check and before its page query, which then finds no rows. */
  predicate Lost(h: seq<Moment>, rounds: seq<Round>, used: nat) {
    0 < used <= |rounds| && At(h, rounds[used - 1].checkAt).Some? && At(h, rounds[used - 1].pageAt).None?
  }

  /** The log as the last round met it: at its page query or, if the build was lost, at its check. */
  function Seen(h: seq<Moment>, rounds: seq<Round>, used: nat): seq<Log> {
    if !(0 < used <= |rounds|) then []
    else
      var at := if Lost(h, rounds, used) then rounds[used - 1].checkAt else rounds[used - 1].pageAt;
      if At(h, at).Some? then At(h, at).value.log else []
  }

  /** The status as the reader last saw it. */
  function StatusSeen(h: seq<Moment>, rounds: seq<Round>, used: nat): BuildStatus {
    if 0 < used <= |rounds| && At(h, rounds[used - 1].statusAt).Some?
    then At(h, rounds[used - 1].statusAt).value.status else Queued
  }

  /** A round meets a log that extends what was seen; after a terminal status it is complete. */
  lemma NextRound(h: seq<Moment>, rounds: seq<Round>, used: nat)
    requires History(h) && Schedule(h, rounds) && used < |rounds| && !Gone(h, rounds, used)
    ensures Ordered(Seen(h, rounds, used + 1)) && Seen(h, rounds, used) <= Seen(h, rounds, used + 1)
    ensures !Lost(h, rounds, used)
    ensures Terminal(StatusSeen(h, rounds, used + 1)) ==> Complete(h, rounds, used + 1)
  {
    assert RoundOk(h, rounds, used);
    var statusAt, pageAt := rounds[used].statusAt, rounds[used].pageAt;
    var at := if Lost(h, rounds, used + 1) then rounds[used].checkAt else pageAt;
    assert OrderedAt(h, at) && GrowsBetween(h, statusAt, at);
    if used > 0 {
      assert InOrder(rounds, used - 1, used) && RoundOk(h, rounds, used - 1);
      assert GrowsBetween(h, rounds[used - 1].pageAt, statusAt) && GrowsBetween(h, rounds[used - 1].pageAt, at);
      assert GrowsBetween(h, rounds[used - 1].checkAt, at);
    }
    forall j: nat | statusAt <= j < |h| && h[j].Some? && Terminal(h[statusAt].value.status)
      ensures h[j].value.log == h[at].value.log
    {
      assert GrowsBetween(h, statusAt, j);
    }
  }

  function TailStart(log: seq<Log>): nat { if |log| <= 200 then 0 else |log| - 200 }

  function LastOf(page: seq<Log>, last: int): int { if page == [] then last else page[|page| - 1].sequence }

  /** One page: the newest rows to begin with in tail mode, else the rows after the last one sent. */
  function NextPage(log: seq<Log>, newest: bool, last: int): seq<Log> {
    if newest then Page(log, Newest, 200) else Page(log, After(last), PAGE)
  }

  /** What a page adds to the rows sent. */
  lemma PageReads(log: seq<Log>, newest: bool, last: int, start: nat, n: nat, sent: seq<Log>)
    requires Ordered(log)
    requires newest ==> sent == [] && last == -1 && start == TailStart(log)
    requires !newest ==> Reading(log, start, n, sent, last)
    ensures var page := NextPage(log, newest, last);
      && Reading(log, start, if newest then |log| else Advance(n, |log|), sent + page, LastOf(page, last))
      && (|page| == PAGE <==> !newest && |log| - n >= PAGE)
  {
    var page := NextPage(log, newest, last);
    if newest {
      TailPage(log);
      TailStarts(log, page);
    } else {
      PageAdvances(log, start, n, sent, last, page);
    }
  }

  /** The events carry exactly these rows, and none of them makes a client stop reading. */
  ghost predicate Carries(events: seq<Event>, sent: seq<Log>) {
    LogsOf(events) == sent && StaysOpen(events)
  }

  /** The last event is a status with the number of rows sent; nothing before it ended the stream. */
  ghost predicate EndsWith(events: seq<Event>, status: BuildStatus, sent: seq<Log>) {
    && events != []
    && events[|events| - 1] == StatusEvent(status, |sent|)
    && Carries(events[..|events| - 1], sent)
  }

  lemma CarriesPage(events: seq<Event>, sent: seq<Log>, page: seq<Log>)
    requires Carries(events, sent)
    ensures Carries(events + EventsOf(page), sent + page)
  {
    LogsOfConcat(events, EventsOf(page));
  }

  lemma CarriesStatus(events: seq<Event>, sent: seq<Log>, status: BuildStatus)
    requires Carries(events, sent)
    ensures EndsWith(events + [StatusEvent(status, |sent|)], status, sent)
    ensures !Terminal(status) ==> Carries(events + [StatusEvent(status, |sent|)], sent)
  {
  }

  /** Only a page that is not full is followed by a status. */
  ghost predicate AddsStatus(events: seq<Event>, out: seq<Event>, page: seq<Log>, status: Event) {
    && StatusesOf(out) == StatusesOf(events) + (if |page| == PAGE then [] else [status])
    && (|page| != PAGE ==> out != [] && out[|out| - 1] == status)
  }

  /** The events after a round with this page. */
  ghost predicate Polled(status: BuildStatus, page: seq<Log>, sent: seq<Log>, closed: bool,
                         events: seq<Event>, out: seq<Event>)
  {
    && (if closed then EndsWith(out, status, sent + page) else Carries(out, sent + page))
    && AddsStatus(events, out, page, StatusEvent(status, |sent + page|))
  }

  /**
   One round of the generator: send a page and, unless it was full, the status read before it.
   `sent` are the rows sent so far.
   */
  method Poll(status: BuildStatus, log: seq<Log>, newest: bool, last: int, count: nat, events: seq<Event>,
              ghost sent: seq<Log>)
    returns (closed: bool, next: int, total: nat, out: seq<Event>)
    requires Carries(events, sent) && count == |sent|
    ensures var page := NextPage(log, newest, last);
      && next == LastOf(page, last) && total == |sent + page|
      && (closed <==> Terminal(status) && |page| != PAGE)
      && Polled(status, page, sent, closed, events, out)
  {
    var page := NextPage(log, newest, last);
    next, total := LastOf(page, last), count + |page|;
    out := events + EventsOf(page);
    CarriesPage(events, sent, page);
    PageHasNoStatus(events, EventsOf(page));
    if |page| == PAGE {
      return false, next, total, out;
    }
    CarriesStatus(out, sent + page, status);
    assert (out + [StatusEvent(status, total)])[..|out|] == out;
    out := out + [StatusEvent(status, total)];
    closed := Terminal(status);
  }

  // ---------------------------------------------------------------------------
  // Every interleaving
  // ---------------------------------------------------------------------------

  /** The row that the first `used` rounds reach: everything in a first tail page, then a page a round. */
  function Reach(h: seq<Moment>, rounds: seq<Round>, used: nat, tail: bool): nat {
    if used == 0 then 0
    else if Lost(h, rounds, used) then
      if used == 1 then StartOf(h, rounds, tail) else Reach(h, rounds, used - 1, tail)
    else if used == 1 && tail then |Seen(h, rounds, 1)|
    else Advance(Reach(h, rounds, used - 1, tail), |Seen(h, rounds, used)|)
  }

  /** A round's page is not full. */
  predicate Short(h: seq<Moment>, rounds: seq<Round>, used: nat, tail: bool)
    requires used > 0
  {
    || Lost(h, rounds, used) || (used == 1 && tail)
    || |Seen(h, rounds, used)| - Reach(h, rounds, used - 1, tail) < PAGE
  }

  /** A round closes the stream: it reads a terminal status and a page that is not full. */
  predicate Closes(h: seq<Moment>, rounds: seq<Round>, used: nat, tail: bool) {
    used > 0 && Terminal(StatusSeen(h, rounds, used)) && Short(h, rounds, used, tail)
  }

  /** The closing round: one of four statuses, and no more rows than a page holds. */
  lemma ClosesExactly(h: seq<Moment>, rounds: seq<Round>, used: nat, tail: bool)
    ensures Closes(h, rounds, used, tail) <==>
      && used > 0 && StatusSeen(h, rounds, used) in {Success, Failed, Unsupported, Cancelled}
      && (|| Lost(h, rounds, used) || (used == 1 && tail)
          || |Seen(h, rounds, used)| < Reach(h, rounds, used - 1, tail) + 1000)
  {
  }

  /** The statuses that the first rounds announce: one after each page that is not full. */
  function Announced(h: seq<Moment>, rounds: seq<Round>, used: nat, tail: bool): seq<Event> {
    if used == 0 then []
    else
      var reach, start := Reach(h, rounds, used, tail), StartOf(h, rounds, tail);
      Announced(h, rounds, used - 1, tail) +
      if Short(h, rounds, used, tail) && start <= reach
      then [StatusEvent(StatusSeen(h, rounds, used), reach - start)] else []
  }

  ghost predicate Announces(h: seq<Moment>, rounds: seq<Round>, used: nat, tail: bool, events: seq<Event>) {
    StatusesOf(events) == Announced(h, rounds, used, tail)
  }

  lemma RoundAnnounces(h: seq<Moment>, rounds: seq<Round>, used: nat, tail: bool, events: seq<Event>, out: seq<Event>,
                       page: seq<Log>, sent: seq<Log>)
    requires Announces(h, rounds, used, tail, events) && (|page| != PAGE <==> Short(h, rounds, used + 1, tail))
    requires Stretch(Seen(h, rounds, used + 1), StartOf(h, rounds, tail), Reach(h, rounds, used + 1, tail), sent)
    requires AddsStatus(events, out, page, StatusEvent(StatusSeen(h, rounds, used + 1), |sent|))
    ensures Announces(h, rounds, used + 1, tail, out)
  {
  }

  /** A round finds the build deleted: its status read or its check says so. */
  predicate Gone(h: seq<Moment>, rounds: seq<Round>, k: nat) {
    k < |rounds| && (At(h, rounds[k].statusAt).None? || At(h, rounds[k].checkAt).None?)
  }

  /** Every row from the start on is out, once and in order, and no row will ever be added. */
  ghost predicate Delivered(h: seq<Moment>, rounds: seq<Round>, used: nat, start: nat, events: seq<Event>) {
    && start <= |Seen(h, rounds, used)|
    && Terminal(StatusSeen(h, rounds, used))
    && EndsWith(events, StatusSeen(h, rounds, used), Seen(h, rounds, used)[start..])
    && Complete(h, rounds, used)
  }

  /** A stream that is still open carries the rows from the start to where its pages reach. */
  ghost predicate Underway(h: seq<Moment>, rounds: seq<Round>, used: nat, tail: bool, start: nat, events: seq<Event>) {
    var log, reach := Seen(h, rounds, used), Reach(h, rounds, used, tail);
    start <= reach <= |log| && Carries(events, log[start..reach])
  }

  /** A closed stream carries what an open one would, then the terminal status. */
  ghost predicate Ended(h: seq<Moment>, rounds: seq<Round>, used: nat, tail: bool, start: nat, events: seq<Event>) {
    var log, reach := Seen(h, rounds, used), Reach(h, rounds, used, tail);
    && start <= reach <= |log| && EndsWith(events, StatusSeen(h, rounds, used), log[start..reach])
    && Complete(h, rounds, used)
  }

  /** Everything is delivered, or the build was lost with rows left to send. */
  lemma DeliveredUnlessLost(h: seq<Moment>, rounds: seq<Round>, used: nat, tail: bool, start: nat, events: seq<Event>)
    requires Ended(h, rounds, used, tail, start, events) && Closes(h, rounds, used, tail)
    ensures Delivered(h, rounds, used, start, events) <==>
      !Lost(h, rounds, used) || Reach(h, rounds, used, tail) == |Seen(h, rounds, used)|
  {
    var log, reach := Seen(h, rounds, used), Reach(h, rounds, used, tail);
    assert |log[start..]| == |log| - start && |log[start..reach]| == reach - start;
    if reach == |log| {
      assert log[start..reach] == log[start..];
    }
  }

  /** Where the generator's variables stand after the first `used` rounds. */
  ghost predicate StandsAt(h: seq<Moment>, rounds: seq<Round>, used: nat, tail: bool,
                           events: seq<Event>, sent: seq<Log>, last: int, count: nat)
  {
    var log, start, n := Seen(h, rounds, used), StartOf(h, rounds, tail), Reach(h, rounds, used, tail);
    && Carries(events, sent) && count == |sent|
    && if used == 0 then events == [] && sent == [] && last == -1
       else if Lost(h, rounds, used) then Stretch(log, start, n, sent)
       else Reading(log, start, n, sent, last)
  }

  lemma ReadyToRead(h: seq<Moment>, rounds: seq<Round>, used: nat, tail: bool,
                    events: seq<Event>, sent: seq<Log>, last: int, count: nat)
    requires StandsAt(h, rounds, used, tail, events, sent, last, count)
    requires Seen(h, rounds, used) <= Seen(h, rounds, used + 1) && !Lost(h, rounds, used)
    ensures var log, start := Seen(h, rounds, used + 1), StartOf(h, rounds, tail);
      if used == 0 && tail then sent == [] && last == -1 && start == TailStart(log)
      else Reading(log, start, Reach(h, rounds, used, tail), sent, last)
  {
    if used > 0 {
      ReadingContinues(Seen(h, rounds, used), Seen(h, rounds, used + 1), StartOf(h, rounds, tail),
        Reach(h, rounds, used, tail), sent, last);
    }
  }

  /** What a round's page query returns: rows of the log it meets, or none once the build is lost. */
  function PageOf(h: seq<Moment>, rounds: seq<Round>, used: nat, tail: bool, last: int): seq<Log> {
    NextPage(if Lost(h, rounds, used) then [] else Seen(h, rounds, used), used == 1 && tail, last)
  }

  /** The rows sent after a round with this page. */
  ghost predicate PageRead(h: seq<Moment>, rounds: seq<Round>, used: nat, tail: bool, page: seq<Log>,
                           sent: seq<Log>, last: int)
    requires used > 0
  {
    var log, start, reach := Seen(h, rounds, used), StartOf(h, rounds, tail), Reach(h, rounds, used, tail);
    && Stretch(log, start, reach, sent)
    && (!Lost(h, rounds, used) ==> Reading(log, start, reach, sent, last))
    && (|page| != PAGE <==> Short(h, rounds, used, tail))
  }

  lemma RoundReads(h: seq<Moment>, rounds: seq<Round>, used: nat, tail: bool,
                   events: seq<Event>, sent: seq<Log>, last: int, count: nat)
    requires History(h) && Schedule(h, rounds) && used < |rounds| && !Gone(h, rounds, used)
    requires StandsAt(h, rounds, used, tail, events, sent, last, count)
    ensures var page := PageOf(h, rounds, used + 1, tail, last);
      PageRead(h, rounds, used + 1, tail, page, sent + page, LastOf(page, last))
  {
    NextRound(h, rounds, used);
    ReadyToRead(h, rounds, used, tail, events, sent, last, count);
    if Lost(h, rounds, used + 1) {
      assert PageOf(h, rounds, used + 1, tail, last) == [];
      assert sent + [] == sent;
    } else {
      PageReads(Seen(h, rounds, used + 1), used == 0 && tail, last, StartOf(h, rounds, tail),
        Reach(h, rounds, used, tail), sent);
    }
  }

  /** The build is there throughout the first `used` rounds. */
  predicate Present(h: seq<Moment>, rounds: seq<Round>, used: nat) {
    used == 0 || (Present(h, rounds, used - 1) && !Gone(h, rounds, used - 1) && !Lost(h, rounds, used))
  }

  /** None of the first `used` rounds closes the stream or finds the build deleted. */
  predicate InProgress(h: seq<Moment>, rounds: seq<Round>, used: nat, tail: bool) {
    used == 0
    || (InProgress(h, rounds, used - 1, tail) && !Gone(h, rounds, used - 1) && !Closes(h, rounds, used, tail))
  }

  /** A stream that has neither closed nor failed, with its variables where they should be. */
  ghost predicate Going(h: seq<Moment>, rounds: seq<Round>, used: nat, tail: bool,
                        events: seq<Event>, sent: seq<Log>, last: int, count: nat)
  {
    && used <= |rounds| && InProgress(h, rounds, used, tail)
    && StandsAt(h, rounds, used, tail, events, sent, last, count)
  }

  lemma GoingStart(h: seq<Moment>, rounds: seq<Round>, tail: bool)
    ensures Going(h, rounds, 0, tail, [], [], -1, 0)
  {
  }

  /** What a stream ends with, and why. */
  ghost predicate Outcome(h: seq<Moment>, rounds: seq<Round>, tail: bool, events: seq<Event>, end: StreamEnd,
                          used: nat) {
    match end
    case Closed =>
      && used > 0 && InProgress(h, rounds, used - 1, tail) && Closes(h, rounds, used, tail)
      && Ended(h, rounds, used, tail, StartOf(h, rounds, tail), events)
      && (Delivered(h, rounds, used, StartOf(h, rounds, tail), events) <==>
            !Lost(h, rounds, used) || Reach(h, rounds, used, tail) == |Seen(h, rounds, used)|)
    case StillOpen => used == |rounds| && Sending(h, rounds, tail, events, used)
    case Deleted => used < |rounds| && Gone(h, rounds, used) && Sending(h, rounds, tail, events, used)
  }

  ghost predicate Sending(h: seq<Moment>, rounds: seq<Round>, tail: bool, events: seq<Event>, used: nat) {
    && InProgress(h, rounds, used, tail)
    && if used == 0 then events == [] else Underway(h, rounds, used, tail, StartOf(h, rounds, tail), events)
  }

  /** Where a round leaves the stream: closed for good, or further on its way. */
  ghost predicate RoundEnds(h: seq<Moment>, rounds: seq<Round>, used: nat, tail: bool, closed: bool,
                            events: seq<Event>, sent: seq<Log>, last: int, count: nat)
  {
    && (closed <==> Closes(h, rounds, used, tail))
    && (if closed then Outcome(h, rounds, tail, events, Closed, used)
        else Going(h, rounds, used, tail, events, sent, last, count))
    && Announces(h, rounds, used, tail, events)
  }

  /** One round against the writer's history. */
  method PollRound(h: seq<Moment>, rounds: seq<Round>, used: nat, tail: bool,
                   events: seq<Event>, last: int, count: nat, ghost sent: seq<Log>)
    returns (closed: bool, next: int, total: nat, out: seq<Event>, ghost carried: seq<Log>)
    requires History(h) && Schedule(h, rounds) && used < |rounds| && !Gone(h, rounds, used)
    requires Going(h, rounds, used, tail, events, sent, last, count) && Announces(h, rounds, used, tail, events)
    ensures RoundEnds(h, rounds, used + 1, tail, closed, out, carried, next, total)
  {
    var status := At(h, rounds[used].statusAt).value.status;
    var log := if At(h, rounds[used].pageAt).Some? then At(h, rounds[used].pageAt).value.log else [];
    ghost var page := PageOf(h, rounds, used + 1, tail, last);
    PageMet(h, rounds, used, tail, last, log);
    closed, next, total, out :=
      Poll(status, log, used == 0 && tail, last, count, events, sent);
    carried := sent + page;
    RoundDone(h, rounds, used, tail, events, sent, last, count, page, closed, out);
  }

  lemma PageMet(h: seq<Moment>, rounds: seq<Round>, used: nat, tail: bool, last: int, log: seq<Log>)
    requires used < |rounds| && !Gone(h, rounds, used)
    requires log == if At(h, rounds[used].pageAt).Some? then At(h, rounds[used].pageAt).value.log else []
    ensures NextPage(log, used == 0 && tail, last) == PageOf(h, rounds, used + 1, tail, last)
  {
  }

  lemma RoundDone(h: seq<Moment>, rounds: seq<Round>, used: nat, tail: bool, events: seq<Event>, sent: seq<Log>,
                  last: int, count: nat, page: seq<Log>, closed: bool, out: seq<Event>)
    requires History(h) && Schedule(h, rounds) && used < |rounds| && !Gone(h, rounds, used)
    requires Going(h, rounds, used, tail, events, sent, last, count) && Announces(h, rounds, used, tail, events)
    requires page == PageOf(h, rounds, used + 1, tail, last)
    requires closed <==> Terminal(StatusSeen(h, rounds, used + 1)) && |page| != PAGE
    requires Polled(StatusSeen(h, rounds, used + 1), page, sent, closed, events, out)
    ensures RoundEnds(h, rounds, used + 1, tail, closed, out, sent + page, LastOf(page, last), |sent + page|)
  {
    RoundReads(h, rounds, used, tail, events, sent, last, count);
    if closed {
      TerminalIsComplete(h, rounds, used);
    }
    RoundLeaves(h, rounds, used, tail, events, page, sent + page, LastOf(page, last), closed, out);
  }

  lemma RoundLeaves(h: seq<Moment>, rounds: seq<Round>, used: nat, tail: bool, events: seq<Event>, page: seq<Log>,
                    sent: seq<Log>, last: int, closed: bool, out: seq<Event>)
    requires used < |rounds| && InProgress(h, rounds, used, tail) && !Gone(h, rounds, used)
    requires Announces(h, rounds, used, tail, events)
    requires PageRead(h, rounds, used + 1, tail, page, sent, last)
    requires closed <==> Terminal(StatusSeen(h, rounds, used + 1)) && |page| != PAGE
    requires closed ==> Complete(h, rounds, used + 1) && EndsWith(out, StatusSeen(h, rounds, used + 1), sent)
    requires !closed ==> Carries(out, sent)
    requires AddsStatus(events, out, page, StatusEvent(StatusSeen(h, rounds, used + 1), |sent|))
    ensures RoundEnds(h, rounds, used + 1, tail, closed, out, sent, last, |sent|)
  {
    RoundAnnounces(h, rounds, used, tail, events, out, page, sent);
    if closed {
      ClosedOutcome(h, rounds, tail, out, used + 1, sent);
    } else {
      RoundContinues(h, rounds, used, tail, out, sent, last, |sent|);
    }
  }

  lemma TerminalIsComplete(h: seq<Moment>, rounds: seq<Round>, used: nat)
    requires History(h) && Schedule(h, rounds) && used < |rounds| && !Gone(h, rounds, used)
    requires Terminal(StatusSeen(h, rounds, used + 1))
    ensures Complete(h, rounds, used + 1)
  {
    NextRound(h, rounds, used);
  }

  lemma RoundContinues(h: seq<Moment>, rounds: seq<Round>, used: nat, tail: bool,
                       events: seq<Event>, sent: seq<Log>, last: int, count: nat)
    requires used < |rounds| && InProgress(h, rounds, used, tail) && !Gone(h, rounds, used)
    requires !Closes(h, rounds, used + 1, tail) && Carries(events, sent) && count == |sent|
    requires var log, start, n := Seen(h, rounds, used + 1), StartOf(h, rounds, tail), Reach(h, rounds, used + 1, tail);
      Stretch(log, start, n, sent) && (!Lost(h, rounds, used + 1) ==> Reading(log, start, n, sent, last))
    ensures Going(h, rounds, used + 1, tail, events, sent, last, count)
  {
  }

  /**
   Whatever the writer does between the reads, the stream carries the rows from its start to where
   its pages reach, each once and in order. The first round with a terminal status and a page that
   is not full closes it; every row has then been sent exactly unless the build was deleted between
   the check and the page query of that round with rows left to send. The stream ends in an error
   exactly when the status read or the check of a round finds the build deleted. The statuses sent
   are those of the rounds whose page is not full, each with the number of rows sent by then.
   */
  method Stream(h: seq<Moment>, rounds: seq<Round>, tail: bool) returns (events: seq<Event>, end: StreamEnd, used: nat)
    requires History(h) && Schedule(h, rounds)
    ensures used <= |rounds| && Outcome(h, rounds, tail, events, end, used)
    ensures Announces(h, rounds, used, tail, events)
  {
    var last, count := -1, 0;
    ghost var sent: seq<Log> := [];
    events, end, used := [], StillOpen, 0;
    GoingStart(h, rounds, tail);
    while used < |rounds|
      invariant end == StillOpen && used <= |rounds|
      invariant Going(h, rounds, used, tail, events, sent, last, count)
      invariant Announces(h, rounds, used, tail, events)
    {
      if Gone(h, rounds, used) {
        end := Deleted;
        break;
      }
      var closed;
      closed, last, count, events, sent := PollRound(h, rounds, used, tail, events, last, count, sent);
      used := used + 1;
      if closed {
        return events, Closed, used;
      }
    }
    OpenOutcome(h, rounds, tail, events, end, used, sent, last, count);
  }

  lemma ClosedOutcome(h: seq<Moment>, rounds: seq<Round>, tail: bool, events: seq<Event>, used: nat, sent: seq<Log>)
    requires 0 < used <= |rounds| && InProgress(h, rounds, used - 1, tail) && Closes(h, rounds, used, tail)
    requires Stretch(Seen(h, rounds, used), StartOf(h, rounds, tail), Reach(h, rounds, used, tail), sent)
    requires EndsWith(events, StatusSeen(h, rounds, used), sent) && Complete(h, rounds, used)
    ensures Outcome(h, rounds, tail, events, Closed, used)
  {
    DeliveredUnlessLost(h, rounds, used, tail, StartOf(h, rounds, tail), events);
  }

  lemma OpenOutcome(h: seq<Moment>, rounds: seq<Round>, tail: bool, events: seq<Event>, end: StreamEnd, used: nat,
                    sent: seq<Log>, last: int, count: nat)
    requires Going(h, rounds, used, tail, events, sent, last, count)
    requires end == StillOpen ==> used == |rounds|
    requires end == Deleted ==> used < |rounds| && Gone(h, rounds, used)
    requires end != Closed
    ensures Outcome(h, rounds, tail, events, end, used)
  {
  }

  lemma {:induction false} PresentAt(h: seq<Moment>, rounds: seq<Round>, used: nat, k: nat)
    requires Present(h, rounds, used) && k < used
    ensures !Gone(h, rounds, k) && !Lost(h, rounds, k + 1)
  {
    if k < used - 1 {
      PresentAt(h, rounds, used - 1, k);
    }
  }

  /** A build that stays and ends: with more terminal rounds than its log has full pages, the stream closes. */
  method StreamToTheEnd(h: seq<Moment>, rounds: seq<Round>, tail: bool) returns (events: seq<Event>, used: nat)
    requires History(h) && Schedule(h, rounds) && Present(h, rounds, |rounds|)
    requires PAGE * TerminalRounds(h, rounds, |rounds|) > |Seen(h, rounds, |rounds|)|
    ensures 0 < used <= |rounds| && Delivered(h, rounds, used, StartOf(h, rounds, tail), events)
  {
    var end;
    events, end, used := Stream(h, rounds, tail);
    if end == StillOpen {
      FullPagesOnly(h, rounds, used, tail);
    } else if end == Deleted {
      PresentAt(h, rounds, |rounds|, used);
    } else {
      PresentAt(h, rounds, |rounds|, used - 1);
    }
  }

  /**
   The exception is real, with and without tail mode: any finished build with rows that is deleted
   between the check and the page query of the first round has its stream closed with none sent.
   */
  method StreamLosesRows(log: seq<Log>, status: BuildStatus, tail: bool)
      returns (h: seq<Moment>, rounds: seq<Round>, events: seq<Event>)
    requires Ordered(log) && log != [] && Terminal(status)
    ensures h == [Some(Build(log, status)), None] && History(h) && Schedule(h, rounds)
    ensures EndsWith(events, status, []) && !Delivered(h, rounds, 1, StartOf(h, rounds, tail), events)
  {
    h, rounds := [Some(Build(log, status)), None], [Round(0, 0, 1)];
    assert RoundOk(h, rounds, 0);
    var end, used;
    events, end, used := Stream(h, rounds, tail);
    assert Lost(h, rounds, 1) && Closes(h, rounds, 1, tail);
    assert InProgress(h, rounds, 0, tail) && !InProgress(h, rounds, 1, tail);
    assert used == 1 && end == Closed;
    var start := StartOf(h, rounds, tail);
    assert log[start..start] == [];
  }

  /** How many of the first rounds read a terminal status. */
  function TerminalRounds(h: seq<Moment>, rounds: seq<Round>, used: nat): nat
  {
    if used == 0 then 0
    else TerminalRounds(h, rounds, used - 1) + if Terminal(StatusSeen(h, rounds, used)) then 1 else 0
  }

  lemma ReachStep(h: seq<Moment>, rounds: seq<Round>, used: nat, tail: bool)
    requires History(h) && Schedule(h, rounds) && used < |rounds| && !Gone(h, rounds, used)
    requires Reach(h, rounds, used, tail) <= |Seen(h, rounds, used)| && !Closes(h, rounds, used + 1, tail)
    ensures Reach(h, rounds, used + 1, tail) <= |Seen(h, rounds, used + 1)|
    ensures Reach(h, rounds, used + 1, tail) >=
              Reach(h, rounds, used, tail) + if Terminal(StatusSeen(h, rounds, used + 1)) then PAGE else 0
  {
    NextRound(h, rounds, used);
  }

  /** A stream outlives a terminal status only by full pages. */
  lemma {:induction false} FullPagesOnly(h: seq<Moment>, rounds: seq<Round>, used: nat, tail: bool)
    requires History(h) && Schedule(h, rounds) && used <= |rounds| && InProgress(h, rounds, used, tail)
    ensures PAGE * TerminalRounds(h, rounds, used) <= Reach(h, rounds, used, tail) <= |Seen(h, rounds, used)|
    decreases used
  {
    if used > 0 {
      FullPagesOnly(h, rounds, used - 1, tail);
      ReachStep(h, rounds, used - 1, tail);
    }
  }

  /** Closed by a terminal status, still open, or ended with an error because the build is gone. */
  datatype StreamEnd = Closed | StillOpen | Deleted

  /** From the round's status read on, the log is the one last seen. */
  ghost predicate Complete(h: seq<Moment>, rounds: seq<Round>, used: nat)
  {
    0 < used <= |rounds| &&
    forall j: nat :: rounds[used - 1].statusAt <= j < |h| && h[j].Some? ==> h[j].value.log == Seen(h, rounds, used)
  }
}
