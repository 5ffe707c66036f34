/** The change watcher: after reading the file once, every file-system
    notification of type `change` re-reads the file, and the new text is
    reported only when it differs from the last text kept. */
module Watcher {

  /** A notification with the text the re-read returned, or the end of the
      watch because the event source or the re-read threw. */
  datatype WatchEvent = Notified(eventType: string, content: string) | Broken

  /** The texts reported, the last text kept, and whether the watch ended in an error. */
  datatype Scan = Scan(reports: seq<string>, last: string, failed: bool)

  /** The reports of a watch in which `last` is the text kept so far. */
  function Fold(last: string, events: seq<WatchEvent>): Scan
    decreases |events|
  {
    if events == [] then Scan([], last, false)
    else match events[0]
      case Broken => Scan([], last, true)
      case Notified(t, c) =>
        if t == "change" && c != last then
          var rest := Fold(c, events[1..]);
          rest.(reports := [c] + rest.reports)
        else
          Fold(last, events[1..])
  }

  /** `watchChanges`: the loop over the notifications, starting from the
      text read when the watch began. */
  method Watch(initial: string, events: seq<WatchEvent>) returns (reports: seq<string>, last: string, failed: bool)
    ensures Scan(reports, last, failed) == Fold(initial, events)
  {
    reports, last, failed := [], initial, false;
    var i := 0;
    while i < |events|
      invariant 0 <= i <= |events|
      invariant Fold(initial, events) == Fold(last, events[i..]).(reports := reports + Fold(last, events[i..]).reports)
    {
      assert events[i..][1..] == events[i + 1..];
      match events[i]
      case Broken =>
        failed := true;
        assert reports + [] == reports;
        return;
      case Notified(t, c) =>
        if t == "change" && c != last {
          assert reports + ([c] + Fold(c, events[i + 1..]).reports) == (reports + [c]) + Fold(c, events[i + 1..]).reports;
          reports := reports + [c];
          last := c;
        }
      i := i + 1;
    }
    assert reports + [] == reports;
  }

  /** No two consecutive reports are equal, and the first differs from the
      text the watch started from. */
  predicate ChainFrom(start: string, r: seq<string>) {
    (r != [] ==> r[0] != start) && forall k :: 0 < k < |r| ==> r[k] != r[k - 1]
  }

  lemma {:induction false} FoldNoRepeats(last: string, events: seq<WatchEvent>)
    ensures ChainFrom(last, Fold(last, events).reports)
    decreases |events|
  {
    if events != [] {
      match events[0]
      case Broken =>
      case Notified(t, c) =>
        if t == "change" && c != last {
          FoldNoRepeats(c, events[1..]);
          var r := Fold(last, events).reports;
          var r' := Fold(c, events[1..]).reports;
          assert r == [c] + r';
          forall k | 0 < k < |r| ensures r[k] != r[k - 1] {
            assert r[k] == r'[k - 1];
            if k > 1 {
              assert r[k - 1] == r'[k - 2];
            }
          }
        } else {
          FoldNoRepeats(last, events[1..]);
        }
    }
  }

  /** The text kept at the end is the last report, or the initial text when
      nothing was reported: the kept text moves only when a report is made. */
  lemma {:induction false} FoldKeepsLastReport(last: string, events: seq<WatchEvent>)
    ensures Fold(last, events).last ==
      (if Fold(last, events).reports == [] then last else Fold(last, events).reports[|Fold(last, events).reports| - 1])
    decreases |events|
  {
    if events != [] {
      match events[0]
      case Broken =>
      case Notified(t, c) =>
        FoldKeepsLastReport(if t == "change" && c != last then c else last, events[1..]);
    }
  }

  /** `e` is a `change` notification that re-read the text `c`. */
  predicate ChangeTo(e: WatchEvent, c: string) {
    e.Notified? && e.eventType == "change" && e.content == c
  }

  /** Some `change` notification among `events` re-read the text `c`. */
  predicate SomeChangeTo(events: seq<WatchEvent>, c: string) {
    exists j :: 0 <= j < |events| && ChangeTo(events[j], c)
  }

  /** Every report is the text of some `change` notification; other event
      types are never reported. */
  lemma {:induction false} FoldReportsChanges(last: string, events: seq<WatchEvent>)
    ensures forall k :: 0 <= k < |Fold(last, events).reports| ==> SomeChangeTo(events, Fold(last, events).reports[k])
    decreases |events|
  {
    if events != [] {
      match events[0]
      case Broken =>
      case Notified(t, c) =>
        var next := if t == "change" && c != last then c else last;
        FoldReportsChanges(next, events[1..]);
        var r := Fold(last, events).reports;
        var r' := Fold(next, events[1..]).reports;
        assert r == if t == "change" && c != last then [c] + r' else r';
        forall k | 0 <= k < |r| ensures SomeChangeTo(events, r[k]) {
          if t == "change" && c != last && k == 0 {
            assert ChangeTo(events[0], r[k]);
          } else {
            var k' := if t == "change" && c != last then k - 1 else k;
            assert r[k] == r'[k'];
            assert SomeChangeTo(events[1..], r'[k']);
            var j :| 0 <= j < |events[1..]| && ChangeTo(events[1..][j], r'[k']);
            assert ChangeTo(events[j + 1], r[k]);
          }
        }
    }
  }

  /** An event source that fails ends the watch: nothing after it matters. */
  lemma {:induction false} FoldStopsAtBroken(last: string, before: seq<WatchEvent>, after: seq<WatchEvent>)
    ensures Fold(last, before + [Broken] + after) == Fold(last, before + [Broken])
    decreases |before|
  {
    if before == [] {
      assert (before + [Broken] + after)[0] == Broken;
    } else {
      assert (before + [Broken] + after)[1..] == before[1..] + [Broken] + after;
      assert (before + [Broken])[1..] == before[1..] + [Broken];
      match before[0]
      case Broken =>
      case Notified(t, c) =>
        FoldStopsAtBroken(if t == "change" && c != last then c else last, before[1..], after);
    }
  }

  /** One external edit to text `c`, however many `change` (or other)
      notifications it raises, is reported exactly once. */
  lemma {:induction false} OneEditOneReport(last: string, events: seq<WatchEvent>, c: string)
    requires c != last
    requires forall j :: 0 <= j < |events| ==> events[j].Notified?
    requires forall j :: 0 <= j < |events| && events[j].eventType == "change" ==> events[j].content == c
    requires exists j :: 0 <= j < |events| && events[j].eventType == "change"
    ensures Fold(last, events).reports == [c]
    decreases |events|
  {
    var e := events[0];
    if e.eventType == "change" {
      NoFurtherReport(c, events[1..]);
    } else {
      var j :| 0 <= j < |events| && events[j].eventType == "change";
      assert j != 0;
      assert events[1..][j - 1].eventType == "change";
      OneEditOneReport(last, events[1..], c);
    }
  }

  /** Notifications that re-read the text already kept report nothing. */
  lemma {:induction false} NoFurtherReport(c: string, events: seq<WatchEvent>)
    requires forall j :: 0 <= j < |events| ==> events[j].Notified?
    requires forall j :: 0 <= j < |events| && events[j].eventType == "change" ==> events[j].content == c
    ensures Fold(c, events).reports == []
    decreases |events|
  {
    if events != [] {
      NoFurtherReport(c, events[1..]);
    }
  }
}
