/** The monitor loop (event_checker.py, run_loop): each cycle fetches the page,
    extracts the events, picks those whose link has not been notified yet,
    hands them to the notifier, and records their links in the in-memory
    working set and in the durable store; a page that shows no events at all
    clears both.

    What the outside world supplies to one cycle is a Poll: the fetched markup
    (empty when the fetch failed), whether the cycle body raises before it
    reaches extraction (the exception of line 330, caught at line 365), and the
    clock reading the store stamps new rows with. */
module MonitorLoop {
  import opened Extraction
  import Persistence

  datatype Poll = Poll(markup: Markup, raised: bool, now: int)

  /** What one cycle does towards the outside: the batch handed to the event
      notifier (a notification is sent when it is non-empty), whether the
      dedup state was reset, whether a heartbeat was sent, and whether the
      cycle-level alert was sent. */
  datatype CycleReport = CycleReport(batch: seq<Event>, cleared: bool, heartbeat: bool, alert: bool)

  /** The links of a list of events. */
  function LinksOf(events: seq<Event>): set<string>
  {
    set e | e in events :: e.link
  }

  /** The links of a list of events, in order: the same links as the set of links. */
  function LinkSeq(events: seq<Event>): (r: seq<string>)
    ensures Persistence.Elements(r) == LinksOf(events)
  {
    var r := seq(|events|, i requires 0 <= i < |events| => events[i].link);
    assert forall e :: e in events ==> e.link in r by {
      forall e | e in events ensures e.link in r {
        var i :| 0 <= i < |events| && events[i] == e;
        assert r[i] == e.link;
      }
    }
    r
  }

  /** new_events: the found events whose link is not yet notified, in their order. */
  function NewEvents(found: seq<Event>, notified: set<string>): (r: seq<Event>)
    ensures |r| <= |found|
    ensures forall e :: e in r ==> e in found && e.link !in notified
  {
    if found == [] then []
    else if found[0].link in notified then NewEvents(found[1..], notified)
    else [found[0]] + NewEvents(found[1..], notified)
  }

  /** Every found event whose link is not notified yet is among the new events. */
  lemma {:induction false} NewEventsComplete(found: seq<Event>, notified: set<string>, e: Event)
    requires e in found && e.link !in notified
    ensures e in NewEvents(found, notified)
  {
    if found[0] != e {
      assert e in found[1..];
      NewEventsComplete(found[1..], notified, e);
    }
  }

  /** Selecting new events keeps the found order: it distributes over concatenation. */
  lemma {:induction false} NewEventsAppend(a: seq<Event>, b: seq<Event>, notified: set<string>)
    ensures NewEvents(a + b, notified) == NewEvents(a, notified) + NewEvents(b, notified)
  {
    if a != [] {
      assert (a + b)[1..] == a[1..] + b;
      NewEventsAppend(a[1..], b, notified);
    } else {
      assert a + b == b;
    }
  }

  /** With nothing notified, every found event is new. */
  lemma {:induction false} NewEventsOfNothing(found: seq<Event>)
    ensures NewEvents(found, {}) == found
  {
    if found != [] {
      NewEventsOfNothing(found[1..]);
    }
  }

  /** There is nothing new exactly when every found link is already notified. */
  lemma NewEventsEmptyIff(found: seq<Event>, notified: set<string>)
    ensures NewEvents(found, notified) == [] <==> LinksOf(found) <= notified
  {
  }

  /** Once the new links are recorded, the same found events hold nothing new. */
  lemma NewEventsAbsorbed(found: seq<Event>, notified: set<string>)
    ensures NewEvents(found, notified + LinksOf(NewEvents(found, notified))) == []
  {
    var after := notified + LinksOf(NewEvents(found, notified));
    forall l | l in LinksOf(found) ensures l in after {
      var e :| e in found && e.link == l;
      if l !in notified {
        NewEventsComplete(found, notified, e);
      }
    }
    NewEventsEmptyIff(found, after);
  }

  /** A cycle that got markup and did not raise goes on to extraction and diffing. */
  predicate Fetched(p: Poll)
  {
    !p.raised && |p.markup.html| > 0
  }

  /** A cycle whose page was fetched and shows no events: the reset signal. */
  predicate ShowsNoEvents(p: Poll)
  {
    Fetched(p) && Extracted(p.markup) == []
  }

  /** The working set after one cycle. */
  function NextNotified(notified: set<string>, p: Poll): (r: set<string>)
    ensures !Fetched(p) ==> r == notified
    ensures ShowsNoEvents(p) ==> r == {}
    ensures !ShowsNoEvents(p) ==> notified <= r
    ensures r <= notified + LinksOf(Extracted(p.markup))
    ensures Fetched(p) && !ShowsNoEvents(p) ==> r == notified + LinksOf(NewEvents(Extracted(p.markup), notified))
  {
    if !Fetched(p) then notified
    else
      var found := Extracted(p.markup);
      var batch := NewEvents(found, notified);
      if batch != [] then notified + LinksOf(batch)
      else if found != [] then notified
      else {}
  }

  /** What one cycle reports, from the working set it starts with. */
  function CycleResult(notified: set<string>, p: Poll): (r: CycleReport)
    ensures r.heartbeat <==> !p.raised
    ensures r.alert <==> p.raised
    ensures r.batch != [] ==> Fetched(p)
    ensures Fetched(p) ==> r.batch == NewEvents(Extracted(p.markup), notified)
    ensures forall e :: e in r.batch ==> e in Extracted(p.markup) && e.link !in notified
    ensures r.cleared <==> ShowsNoEvents(p) && notified != {}
  {
    if p.raised then CycleReport([], false, false, true)
    else if |p.markup.html| == 0 then CycleReport([], false, true, false)
    else
      var found := Extracted(p.markup);
      var batch := NewEvents(found, notified);
      CycleReport(batch, batch == [] && found == [] && notified != {}, true, false)
  }

  /** The store's rows after one cycle, from the rows and working set it starts with. */
  function StoredRows(rows: map<string, int>, notified: set<string>, p: Poll): (r: map<string, int>)
    ensures !Fetched(p) ==> r == rows
    ensures ShowsNoEvents(p) && notified != {} ==> r == map[]
    ensures forall k :: k in rows && k in r ==> r[k] == rows[k]
    ensures r.Keys <= rows.Keys + LinksOf(Extracted(p.markup))
    ensures Fetched(p) && !ShowsNoEvents(p) ==>
              r.Keys == rows.Keys + LinksOf(NewEvents(Extracted(p.markup), notified)) &&
              forall k :: k in r && k !in rows ==> r[k] == p.now
  {
    if !Fetched(p) then rows
    else
      var found := Extracted(p.markup);
      var batch := NewEvents(found, notified);
      if batch != [] then
        Persistence.InsertAllOrIgnoreRows(rows, LinkSeq(batch), p.now);
        Persistence.InsertAllOrIgnore(rows, LinkSeq(batch), p.now)
      else if found == [] && notified != {} then map[]
      else rows
  }

  /** The store follows the working set: if they agree before a cycle, they agree
      after it, and a row that survives the cycle keeps its first timestamp. */
  lemma StoreFollowsWorkingSet(rows: map<string, int>, notified: set<string>, p: Poll)
    requires rows.Keys == notified
    ensures StoredRows(rows, notified, p).Keys == NextNotified(notified, p)
    ensures forall k :: k in rows && k in StoredRows(rows, notified, p) ==>
              StoredRows(rows, notified, p)[k] == rows[k]
  {
  }

  /** Every link handed to the notifier is remembered after the cycle. */
  lemma BatchIsRemembered(notified: set<string>, p: Poll)
    ensures LinksOf(CycleResult(notified, p).batch) <= NextNotified(notified, p)
  {
  }

  /** Outside a reset, a cycle adds exactly the links it hands to the notifier,
      none of which was in the working set before. */
  lemma CycleAddsBatch(notified: set<string>, p: Poll)
    requires !ShowsNoEvents(p)
    ensures NextNotified(notified, p) == notified + LinksOf(CycleResult(notified, p).batch)
    ensures LinksOf(CycleResult(notified, p).batch) !! notified
  {
    var batch := CycleResult(notified, p).batch;
    assert forall e :: e in batch ==> e.link !in notified;
  }

  /** Running a second cycle on the same page finds nothing new. */
  lemma SecondCycleFindsNothingNew(notified: set<string>, p: Poll)
    ensures CycleResult(NextNotified(notified, p), p).batch == []
  {
    if Fetched(p) {
      var found := Extracted(p.markup);
      if NewEvents(found, notified) != [] {
        NewEventsAbsorbed(found, notified);
      } else if found == [] {
        assert NewEvents(found, {}) == [];
      }
    }
  }

  /** A failed fetch notifies nothing, reports no reset and still sends the heartbeat. */
  lemma FetchFailureReport(notified: set<string>, p: Poll)
    requires !p.raised && |p.markup.html| == 0
    ensures CycleResult(notified, p) == CycleReport([], false, true, false)
  {
  }

  /** A cycle that raises notifies nothing, skips the heartbeat and sends an alert. */
  lemma RaisedCycleSkipsHeartbeat(notified: set<string>, p: Poll)
    requires p.raised
    ensures CycleResult(notified, p) == CycleReport([], false, false, true)
  {
  }

  /** A fetched page with no events empties the working set and the store, and
      reports a reset exactly when there was something to forget. */
  lemma EmptyPageResets(notified: set<string>, rows: map<string, int>, p: Poll)
    requires ShowsNoEvents(p)
    requires rows.Keys == notified
    ensures NextNotified(notified, p) == {}
    ensures StoredRows(rows, notified, p) == map[]
    ensures CycleResult(notified, p).batch == []
    ensures CycleResult(notified, p).cleared <==> notified != {}
  {
  }

  /** Two cycles: the first finds X and Y, both new; the second finds X, Y and Z
      and notifies only Z. */
  lemma TwoCycleScenario(notified: set<string>, p1: Poll, p2: Poll, x: Event, y: Event, z: Event)
    requires Fetched(p1) && Extracted(p1.markup) == [x, y]
    requires Fetched(p2) && Extracted(p2.markup) == [x, y, z]
    requires x.link !in notified && y.link !in notified && z.link !in notified
    requires z.link != x.link && z.link != y.link
    ensures CycleResult(notified, p1).batch == [x, y]
    ensures CycleResult(NextNotified(notified, p1), p2).batch == [z]
  {
    var s1 := NextNotified(notified, p1);
    assert NewEvents([y], notified) == [y];
    assert s1 == notified + {x.link, y.link};
    assert NewEvents([z], s1) == [z];
    assert NewEvents([y, z], s1) == [z];
  }

  /** Three cycles: after a page with events and then an empty page, the same
      page again notifies every one of its events, even those notified before. */
  lemma ResetThenRenotify(notified: set<string>, p0: Poll, p1: Poll)
    requires Fetched(p0)
    requires ShowsNoEvents(p1)
    ensures CycleResult(NextNotified(NextNotified(notified, p0), p1), p0).batch == Extracted(p0.markup)
  {
    NewEventsOfNothing(Extracted(p0.markup));
  }

  /** The working set after a sequence of cycles. */
  function Run(notified: set<string>, polls: seq<Poll>): (r: set<string>)
    ensures (forall i :: 0 <= i < |polls| ==> !Fetched(polls[i])) ==> r == notified
    ensures polls != [] && ShowsNoEvents(polls[|polls| - 1]) ==> r == {}
    decreases |polls|
  {
    if polls == [] then notified
    else NextNotified(Run(notified, polls[..|polls| - 1]), polls[|polls| - 1])
  }

  /** The first n cycles of a run are its first n - 1 cycles followed by cycle n - 1. */
  lemma RunPrefixStep(notified: set<string>, polls: seq<Poll>, n: nat)
    requires 0 < n <= |polls|
    ensures Run(notified, polls[..n]) == NextNotified(Run(notified, polls[..n - 1]), polls[n - 1])
  {
    assert polls[..n][..n - 1] == polls[..n - 1];
  }

  /** The reports of a sequence of cycles: cycle i reports from the working set
      the cycles before it left. */
  function Reports(notified: set<string>, polls: seq<Poll>): (r: seq<CycleReport>)
    ensures |r| == |polls|
  {
    seq(|polls|, i requires 0 <= i < |polls| => CycleResult(Run(notified, polls[..i]), polls[i]))
  }

  /** In a run, each cycle sends the heartbeat exactly when it did not raise, and
      hands over a batch only when its fetch succeeded. */
  lemma ReportsHeartbeat(notified: set<string>, polls: seq<Poll>, i: nat)
    requires i < |polls|
    ensures Reports(notified, polls)[i].heartbeat <==> !polls[i].raised
    ensures Reports(notified, polls)[i].batch != [] ==> Fetched(polls[i])
  {
  }

  /** The reports of the first n cycles are the first n reports. */
  lemma ReportsPrefix(notified: set<string>, polls: seq<Poll>, n: nat)
    requires n <= |polls|
    ensures Reports(notified, polls)[..n] == Reports(notified, polls[..n])
  {
    forall j | 0 <= j < n
      ensures Reports(notified, polls)[j] == Reports(notified, polls[..n])[j]
    {
      assert polls[..n][..j] == polls[..j];
    }
  }

  /** The reports of the first n cycles are those of the first n - 1 cycles
      followed by the report of cycle n - 1. */
  lemma ReportsPrefixStep(notified: set<string>, polls: seq<Poll>, n: nat)
    requires 0 < n <= |polls|
    ensures Reports(notified, polls[..n]) ==
              Reports(notified, polls[..n - 1]) + [CycleResult(Run(notified, polls[..n - 1]), polls[n - 1])]
  {
    var q := polls[..n];
    var front := Reports(notified, polls[..n - 1]);
    var step := front + [CycleResult(Run(notified, polls[..n - 1]), polls[n - 1])];
    forall j | 0 <= j < n
      ensures Reports(notified, q)[j] == step[j]
    {
      assert Reports(notified, q)[j] == CycleResult(Run(notified, q[..j]), q[j]);
      if j < n - 1 {
        assert q[..j] == polls[..n - 1][..j] && q[j] == polls[..n - 1][j];
        assert front[j] == CycleResult(Run(notified, polls[..n - 1][..j]), polls[..n - 1][j]);
        assert step[j] == front[j];
      } else {
        assert q[..j] == polls[..n - 1] && q[j] == polls[n - 1];
      }
    }
  }

  /** The links notified by a run are those of all cycles but the last, plus
      the last cycle's batch. */
  lemma ReportsSnoc(notified: set<string>, polls: seq<Poll>)
    requires polls != []
    ensures NotifiedLinks(Reports(notified, polls)) ==
              NotifiedLinks(Reports(notified, polls[..|polls| - 1])) +
              LinksOf(CycleResult(Run(notified, polls[..|polls| - 1]), polls[|polls| - 1]).batch)
  {
    var k := |polls| - 1;
    var r := Reports(notified, polls);
    ReportsPrefix(notified, polls, k);
    assert r[..k] == Reports(notified, polls[..k]);
    assert r[k] == CycleResult(Run(notified, polls[..k]), polls[k]);
  }

  /** The store's rows after a sequence of cycles. */
  function RunRows(rows: map<string, int>, notified: set<string>, polls: seq<Poll>): (r: map<string, int>)
    ensures (forall i :: 0 <= i < |polls| ==> !Fetched(polls[i])) ==> r == rows
    decreases |polls|
  {
    if polls == [] then rows
    else
      var k := |polls| - 1;
      StoredRows(RunRows(rows, notified, polls[..k]), Run(notified, polls[..k]), polls[k])
  }

  /** Over a sequence of cycles the store keeps following the working set. */
  lemma {:induction false} RunRowsFollowRun(rows: map<string, int>, notified: set<string>, polls: seq<Poll>)
    requires rows.Keys == notified
    ensures RunRows(rows, notified, polls).Keys == Run(notified, polls)
    decreases |polls|
  {
    if polls != [] {
      var k := |polls| - 1;
      var pre := polls[..k];
      RunRowsFollowRun(rows, notified, pre);
      StoreFollowsWorkingSet(RunRows(rows, notified, pre), Run(notified, pre), polls[k]);
    }
  }

  /** Without a reset, every row present at the start of a sequence of cycles
      is still there at its end, with its first timestamp. */
  lemma {:induction false} RunRowsKeepTimestamps(rows: map<string, int>, notified: set<string>, polls: seq<Poll>)
    requires rows.Keys == notified
    requires NoReset(polls)
    ensures forall k :: k in rows ==> k in RunRows(rows, notified, polls) && RunRows(rows, notified, polls)[k] == rows[k]
    decreases |polls|
  {
    if polls != [] {
      var k := |polls| - 1;
      var pre := polls[..k];
      NoResetPrefix(polls, k);
      RunRowsKeepTimestamps(rows, notified, pre);
      RunRowsFollowRun(rows, notified, pre);
      var before := RunRows(rows, notified, pre);
      var s := Run(notified, pre);
      StoreFollowsWorkingSet(before, s, polls[k]);
      assert !ShowsNoEvents(polls[k]);
      var after := RunRows(rows, notified, polls);
      assert after == StoredRows(before, s, polls[k]);
      assert s <= NextNotified(s, polls[k]);
      forall key | key in rows ensures key in after && after[key] == rows[key] {
        assert key in before && before[key] == rows[key];
        assert key in s;
      }
    }
  }

  /** The links handed to the notifier over a sequence of reports. */
  function NotifiedLinks(reports: seq<CycleReport>): set<string>
    decreases |reports|
  {
    if reports == [] then {}
    else NotifiedLinks(reports[..|reports| - 1]) + LinksOf(reports[|reports| - 1].batch)
  }

  /** Every report's batch links are among the run's notified links. */
  lemma NotifiedLinksCover(reports: seq<CycleReport>, i: nat)
    requires i < |reports|
    ensures LinksOf(reports[i].batch) <= NotifiedLinks(reports)
    decreases |reports|
  {
  }

  /** The links notified by the first n reports are among those notified by all of them. */
  lemma {:induction false} NotifiedLinksPrefix(reports: seq<CycleReport>, n: nat)
    requires n <= |reports|
    ensures NotifiedLinks(reports[..n]) <= NotifiedLinks(reports)
    decreases |reports|
  {
    if n < |reports| {
      var k := |reports| - 1;
      NotifiedLinksPrefix(reports[..k], n);
      assert reports[..k][..n] == reports[..n];
    } else {
      assert reports[..n] == reports;
    }
  }

  /** No cycle in the sequence is a reset. */
  predicate NoReset(polls: seq<Poll>)
  {
    forall i :: 0 <= i < |polls| ==> !ShowsNoEvents(polls[i])
  }

  /** A prefix of a sequence without a reset has no reset. */
  lemma NoResetPrefix(polls: seq<Poll>, n: nat)
    requires NoReset(polls) && n <= |polls|
    ensures NoReset(polls[..n])
  {
    forall i | 0 <= i < n ensures !ShowsNoEvents(polls[..n][i]) {
      assert polls[..n][i] == polls[i];
    }
  }

  /** Without a reset, the working set only grows: it ends as the starting set
      plus every link that was notified, and no notified link was in the
      starting set. */
  lemma {:induction false} RunWithoutReset(notified: set<string>, polls: seq<Poll>)
    requires NoReset(polls)
    ensures Run(notified, polls) == notified + NotifiedLinks(Reports(notified, polls))
    ensures NotifiedLinks(Reports(notified, polls)) !! notified
    decreases |polls|
  {
    if polls != [] {
      var k := |polls| - 1;
      var pre := polls[..k];
      NoResetPrefix(polls, k);
      RunWithoutReset(notified, pre);
      ReportsSnoc(notified, polls);
      CycleAddsBatch(Run(notified, pre), polls[k]);
    }
  }

  /** Set inclusion is transitive; a separate step keeps the solver from unfolding the sets. */
  lemma SubsetTransitive(a: set<string>, b: set<string>, c: set<string>)
    requires a <= b && b <= c
    ensures a <= c
  {
  }

  /** A cycle that is not a reset keeps every link of the working set. */
  lemma RunStepGrows(notified: set<string>, polls: seq<Poll>, n: nat)
    requires 0 < n <= |polls| && !ShowsNoEvents(polls[n - 1])
    ensures Run(notified, polls[..n - 1]) <= Run(notified, polls[..n])
  {
    RunPrefixStep(notified, polls, n);
  }

  /** Without a reset the working set never loses a link from one cycle to a later one. */
  lemma {:induction false} RunGrows(notified: set<string>, polls: seq<Poll>, m: nat, n: nat)
    requires NoReset(polls)
    requires m <= n <= |polls|
    ensures Run(notified, polls[..m]) <= Run(notified, polls[..n])
    decreases n - m
  {
    if m < n {
      RunGrows(notified, polls, m, n - 1);
      assert !ShowsNoEvents(polls[n - 1]);
      RunStepGrows(notified, polls, n);
      SubsetTransitive(Run(notified, polls[..m]), Run(notified, polls[..n - 1]), Run(notified, polls[..n]));
    }
  }

  /** At most one notification per link between resets: in a sequence of cycles
      without a reset, two different cycles never notify the same link. */
  lemma NotifiedAtMostOnce(notified: set<string>, polls: seq<Poll>, i: nat, j: nat)
    requires NoReset(polls)
    requires i < j < |polls|
    ensures LinksOf(Reports(notified, polls)[i].batch) !! LinksOf(Reports(notified, polls)[j].batch)
  {
    var si := Run(notified, polls[..i]);
    var sj := Run(notified, polls[..j]);
    var bi := CycleResult(si, polls[i]).batch;
    var bj := CycleResult(sj, polls[j]).batch;
    BatchIsRemembered(si, polls[i]);
    RunPrefixStep(notified, polls, i + 1);
    RunGrows(notified, polls, i + 1, j);
    assert LinksOf(bi) <= sj;
    assert forall e :: e in bj ==> e.link !in sj;
  }

  /** The working set never holds a link that was neither there at the start
      nor notified by some cycle of the run, resets or not. */
  lemma {:induction false} RunWithinNotified(notified: set<string>, polls: seq<Poll>)
    ensures Run(notified, polls) <= notified + NotifiedLinks(Reports(notified, polls))
    decreases |polls|
  {
    if polls != [] {
      RunWithinNotified(notified, polls[..|polls| - 1]);
      ReportsSnoc(notified, polls);
    }
  }

  /** At least one notification per found link: every link found on a fetched
      page in some cycle of a run was in the starting set or was notified by
      that cycle or an earlier one. */
  lemma NotifiedAtLeastOnce(notified: set<string>, polls: seq<Poll>, i: nat)
    requires i < |polls| && Fetched(polls[i])
    ensures LinksOf(Extracted(polls[i].markup)) <= notified + NotifiedLinks(Reports(notified, polls))
  {
    var s := Run(notified, polls[..i]);
    var found := Extracted(polls[i].markup);
    var batch := Reports(notified, polls)[i].batch;
    assert batch == NewEvents(found, s);
    RunWithinNotified(notified, polls[..i]);
    ReportsPrefix(notified, polls, i);
    NotifiedLinksPrefix(Reports(notified, polls), i);
    NotifiedLinksCover(Reports(notified, polls), i);
    forall l | l in LinksOf(found) ensures l in s + LinksOf(batch) {
      var e :| e in found && e.link == l;
      if l !in s {
        NewEventsComplete(found, s, e);
        assert e in batch;
      }
    }
  }

  /** The table after the first n cycles is the table after the first n - 1
      cycles, updated by cycle n - 1. */
  lemma RunRowsPrefixStep(rows: map<string, int>, notified: set<string>, polls: seq<Poll>, n: nat)
    requires 0 < n <= |polls|
    ensures RunRows(rows, notified, polls[..n]) ==
              StoredRows(RunRows(rows, notified, polls[..n - 1]), Run(notified, polls[..n - 1]), polls[n - 1])
  {
    var q := polls[..n];
    assert |q| - 1 == n - 1 && q[n - 1] == polls[n - 1];
    assert q[..n - 1] == polls[..n - 1];
  }

  /** The state one cycle of run_loop works on: the working set and the store. */
  class Monitor {
    var notified: set<string>
    const store: Persistence.NotifiedStore

    /** The working set agrees with the store. */
    ghost predicate Valid()
      reads this, store
    {
      notified == store.Links()
    }

    /** The start of run_loop: the working set is loaded from the store. */
    constructor Start(store: Persistence.NotifiedStore)
      ensures this.store == store
      ensures notified == store.Links()
      ensures Valid()
    {
      var links := store.Load();
      this.store := store;
      notified := links;
    }

    /** One iteration of the body of run_loop's `while True`. */
    method Cycle(p: Poll) returns (report: CycleReport)
      requires Valid()
      modifies this, store
      ensures Valid()
      ensures notified == NextNotified(old(notified), p)
      ensures store.rows == StoredRows(old(store.rows), old(notified), p)
      ensures report == CycleResult(old(notified), p)
    {
      if p.raised {
        // Caught at the top of the cycle: alert, and the heartbeat is skipped.
        return CycleReport([], false, false, true);
      }
      var found := ExtractEventDetails(p.markup);
      var batch: seq<Event> := [];
      var cleared := false;
      if |p.markup.html| > 0 {
        batch := NewEvents(found, notified);
        if batch != [] {
          // The batch goes to the notifier first; its links are recorded
          // whatever the notifier's outcome.
          Record(batch, p.now);
        } else if found == [] && notified != {} {
          notified := {};
          store.Clear();
          cleared := true;
        }
      }
      report := CycleReport(batch, cleared, true, false);
    }

    /** Lines 349-351: each new link goes into the working set and the store. */
    method Record(batch: seq<Event>, now: int)
      requires Valid()
      modifies this, store
      ensures Valid()
      ensures notified == old(notified) + LinksOf(batch)
      ensures store.rows == Persistence.InsertAllOrIgnore(old(store.rows), LinkSeq(batch), now)
    {
      ghost var startSet := notified;
      ghost var startRows := store.rows;
      ghost var links := LinkSeq(batch);
      var i := 0;
      while i < |batch|
        invariant 0 <= i <= |batch|
        invariant store.rows == Persistence.InsertAllOrIgnore(startRows, links[..i], now)
        invariant Valid()
      {
        assert links[..i + 1][..i] == links[..i];
        assert links[i] == batch[i].link;
        notified := notified + {batch[i].link};
        store.Save(batch[i].link, now);
        i := i + 1;
      }
      assert links[..i] == links;
      Persistence.InsertAllOrIgnoreRows(startRows, links, now);
    }

    /** A finite stretch of run_loop: the cycles run one after another. */
    method RunCycles(polls: seq<Poll>) returns (reports: seq<CycleReport>)
      requires Valid()
      modifies this, store
      ensures Valid()
      ensures notified == Run(old(notified), polls)
      ensures store.rows == RunRows(old(store.rows), old(notified), polls)
      ensures reports == Reports(old(notified), polls)
    {
      ghost var start := notified;
      ghost var startRows := store.rows;
      reports := [];
      var i := 0;
      while i < |polls|
        invariant 0 <= i <= |polls|
        invariant Valid()
        invariant notified == Run(start, polls[..i])
        invariant store.rows == RunRows(startRows, start, polls[..i])
        invariant reports == Reports(start, polls[..i])
      {
        RunPrefixStep(start, polls, i + 1);
        RunRowsPrefixStep(startRows, start, polls, i + 1);
        ReportsPrefixStep(start, polls, i + 1);
        var report := Cycle(polls[i]);
        reports := reports + [report];
        i := i + 1;
      }
      assert polls[..i] == polls;
    }
  }
}
