/** The bounded search for a terminal event at the end of an operation's event stream. */
module Lookback {
  import opened Wrappers
  import opened Domain

  /** Who appended an entry. Provenance only: no modelled code reads it. */
  datatype Writer = ByWatcher | ByAdmission | ByDriver | ByOther

  /** The decoded "event_type" member. JSON arrays and objects decode to unhashable values. */
  datatype TypeField = Name(name: string) | NotAName | Unhashable

  /** One stream entry as the lookback sees it after decoding its payload. */
  datatype Entry =
    | Unreadable
    | Event(eventType: TypeField, submissionId: Option<string>, code: string, writer: Writer)

  datatype MatchVerdict = Accepted | Refused | MatcherRaised

  type Matcher = (Entry, ActiveSubmission) -> MatchVerdict

  /** Everything ever appended, of which trimming has dropped a prefix. */
  datatype StreamRaw = Stream(history: seq<Entry>, dropped: nat)

  type Stream = s: StreamRaw | s.dropped <= |s.history| witness Stream([], 0)

  const TERMINAL_LOOKBACK: nat := 16

  predicate IsTerminalName(name: string) {
    name == "COMPLETED" || name == "FAILED" || name == "CANCELLED"
  }

  /** What a scan makes of one entry: the three terminal types count for the submission they name, and for
      another only if the matcher accepts them; a type that is not hashable and a raising matcher make the
      scan raise; everything else, the other events of the provider and the driver among it, decides
      nothing. */
  lemma OnlyTerminalTypesDecide(m: Matcher, e: Entry, x: ActiveSubmission)
    ensures e.Unreadable? ==> !Decisive(m, e, x)
    ensures e.Event? ==>
              var terminal := e.eventType in {Name("COMPLETED"), Name("FAILED"), Name("CANCELLED")};
              var own := e.submissionId == Some(x.SubmissionId());
              && (Matches(m, e, x) <==> terminal && (own || m(e, x) == Accepted))
              && (Raises(m, e, x) <==> e.eventType == Unhashable || (terminal && !own && m(e, x) == MatcherRaised))
    ensures e.Event? && e.eventType in {Name("ACCEPTED"), Name("PHASE"), Name("LOG"), Name("METRICS"), Name("PROGRESS")}
            ==> !Decisive(m, e, x)
  {
    assert "COMPLETED" != "FAILED" && "COMPLETED" != "CANCELLED";
  }

  predicate IsTerminal(e: Entry) {
    e.Event? && e.eventType.Name? && IsTerminalName(e.eventType.name)
  }

  /** The entry makes the scan return True for this submission. */
  predicate Matches(m: Matcher, e: Entry, x: ActiveSubmission) {
    IsTerminal(e) && (e.submissionId == Some(x.SubmissionId()) || m(e, x) == Accepted)
  }

  /** The entry makes the scan raise: an unhashable type, or a matcher that raises on it. */
  predicate Raises(m: Matcher, e: Entry, x: ActiveSubmission) {
    || (e.Event? && e.eventType.Unhashable?)
    || (IsTerminal(e) && e.submissionId != Some(x.SubmissionId()) && m(e, x) == MatcherRaised)
  }

  predicate Decisive(m: Matcher, e: Entry, x: ActiveSubmission) {
    Matches(m, e, x) || Raises(m, e, x)
  }

  datatype Scan = Found | NotFound | ScanRaised

  /** Position of the first decisive entry, or the length when there is none. */
  function FirstDecisive(m: Matcher, entries: seq<Entry>, x: ActiveSubmission): (k: nat)
    ensures k <= |entries|
    ensures forall j :: 0 <= j < k ==> !Decisive(m, entries[j], x)
    ensures k < |entries| ==> Decisive(m, entries[k], x)
  {
    if entries == [] then 0
    else if Decisive(m, entries[0], x) then 0
    else 1 + FirstDecisive(m, entries[1..], x)
  }

  function ScanEntries(m: Matcher, entries: seq<Entry>, x: ActiveSubmission): Scan {
    var k := FirstDecisive(m, entries, x);
    if k == |entries| then NotFound
    else if Matches(m, entries[k], x) then Found
    else ScanRaised
  }

  /** The scanning loop, with its early return and its two ways of skipping an entry. */
  method ScanLoop(m: Matcher, entries: seq<Entry>, x: ActiveSubmission) returns (r: Scan)
    ensures r == ScanEntries(m, entries, x)
    ensures r.Found? <==>
            exists k :: 0 <= k < |entries| && Matches(m, entries[k], x)
                        && forall j :: 0 <= j < k ==> !Raises(m, entries[j], x)
  {
    ghost var k := FirstDecisive(m, entries, x);
    for i := 0 to |entries|
      invariant i <= k
    {
      var e := entries[i];
      if e.Unreadable? {
        continue;
      }
      if e.eventType.Unhashable? {
        return ScanRaised;
      }
      if !e.eventType.Name? || !IsTerminalName(e.eventType.name) {
        continue;
      }
      if e.submissionId == Some(x.SubmissionId()) {
        return Found;
      }
      var verdict := m(e, x);
      if verdict == MatcherRaised {
        return ScanRaised;
      }
      if verdict == Accepted {
        return Found;
      }
    }
    return NotFound;
  }

  function Min(a: nat, b: nat): nat {
    if a <= b then a else b
  }

  function Retained(s: Stream): nat {
    |s.history| - s.dropped
  }

  /** XREVRANGE with a count: the newest retained entries, newest first. */
  function Newest(s: Stream, count: nat): (r: seq<Entry>)
    ensures |r| == Min(count, Retained(s))
    ensures forall i :: 0 <= i < |r| ==> r[i] == s.history[|s.history| - 1 - i]
  {
    seq(Min(count, Retained(s)), i requires 0 <= i < Min(count, Retained(s)) => s.history[|s.history| - 1 - i])
  }

  function BoundedScan(m: Matcher, s: Stream, x: ActiveSubmission): Scan {
    ScanEntries(m, Newest(s, TERMINAL_LOOKBACK), x)
  }

  /** The same scan over every entry ever appended, ignoring the bound and trimming. */
  function FullScan(m: Matcher, s: Stream, x: ActiveSubmission): Scan {
    ScanEntries(m, Newest(Stream(s.history, 0), |s.history|), x)
  }

  /** How many events follow the newest entry that decides the unbounded scan. */
  function EventsAfterDecision(m: Matcher, s: Stream, x: ActiveSubmission): nat {
    FirstDecisive(m, Newest(Stream(s.history, 0), |s.history|), x)
  }

  /** A matching terminal event that was appended at some point, visible or not. */
  ghost predicate EverPublished(m: Matcher, history: seq<Entry>, x: ActiveSubmission) {
    exists i :: 0 <= i < |history| && Matches(m, history[i], x)
  }

  /** The scan finds an event only if one was really appended. */
  lemma BoundedScanIsSound(m: Matcher, s: Stream, x: ActiveSubmission)
    requires BoundedScan(m, s, x).Found?
    ensures EverPublished(m, s.history, x)
    ensures exists i :: && s.dropped <= i < |s.history| && |s.history| - 16 <= i
                        && Matches(m, s.history[i], x)
  {
    var k := FirstDecisive(m, Newest(s, TERMINAL_LOOKBACK), x);
    var i := |s.history| - 1 - k;
    assert Matches(m, s.history[i], x);
  }

  /** A matching event that nothing follows is found. */
  lemma NewestMatchIsFound(m: Matcher, s: Stream, x: ActiveSubmission)
    requires Retained(s) > 0 && Matches(m, s.history[|s.history| - 1], x)
    ensures BoundedScan(m, s, x).Found?
  {
    assert Newest(s, TERMINAL_LOOKBACK)[0] == s.history[|s.history| - 1];
  }

  lemma FirstDecisiveOfPrefix(m: Matcher, short: seq<Entry>, long: seq<Entry>, x: ActiveSubmission)
    requires short <= long
    ensures FirstDecisive(m, short, x) == Min(FirstDecisive(m, long, x), |short|)
  {
    var k, l := FirstDecisive(m, short, x), FirstDecisive(m, long, x);
    if k < |short| {
      assert Decisive(m, long[k], x);
    }
    if l < |short| {
      assert Decisive(m, short[l], x);
    }
  }

  /** Exactly when the bounded scan agrees with the unbounded one: the deciding entry lies inside
      the window of the newest retained entries, or nothing decides. Outside the window the bounded
      scan reports that nothing was found. */
  lemma BoundedScanRefinesFullScan(m: Matcher, s: Stream, x: ActiveSubmission)
    ensures var window := Min(16, |s.history| - s.dropped);
            var after := EventsAfterDecision(m, s, x);
            && BoundedScan(m, s, x) == (if after < window then FullScan(m, s, x) else NotFound)
            && (BoundedScan(m, s, x) == FullScan(m, s, x) <==> after < window || after == |s.history|)
  {
    var all := Newest(Stream(s.history, 0), |s.history|);
    var visible := Newest(s, TERMINAL_LOOKBACK);
    assert visible <= all;
    FirstDecisiveOfPrefix(m, visible, all, x);
  }

  /** Without raising entries, the full scan answers precisely whether an event was ever published. */
  lemma FullScanDecidesPublication(m: Matcher, s: Stream, x: ActiveSubmission)
    requires forall i :: 0 <= i < |s.history| ==> !Raises(m, s.history[i], x)
    ensures FullScan(m, s, x).Found? <==> EverPublished(m, s.history, x)
    ensures FullScan(m, s, x).NotFound? <==> !EverPublished(m, s.history, x)
  {
    var all := Newest(Stream(s.history, 0), |s.history|);
    var k := FirstDecisive(m, all, x);
    if k < |all| {
      assert Matches(m, s.history[|s.history| - 1 - k], x);
    } else {
      forall i | 0 <= i < |s.history| ensures !Matches(m, s.history[i], x) {
        assert !Decisive(m, all[|s.history| - 1 - i], x);
      }
    }
  }

  /** A terminal event written by the watcher for one submission. */
  predicate IsFallback(e: Entry, submissionId: string) {
    IsTerminal(e) && e.writer == ByWatcher && e.submissionId == Some(submissionId)
  }

  function FallbackCount(history: seq<Entry>, submissionId: string): nat {
    if history == [] then 0
    else FallbackCount(history[..|history| - 1], submissionId)
         + if IsFallback(history[|history| - 1], submissionId) then 1 else 0
  }

  /** How many events follow the newest fallback for the submission, if there is one. */
  function EventsAfterFallback(history: seq<Entry>, submissionId: string): (r: Option<nat>)
    ensures r.None? <==> FallbackCount(history, submissionId) == 0
    ensures r.Some? ==> r.value < |history| && IsFallback(history[|history| - 1 - r.value], submissionId)
  {
    if history == [] then None
    else if IsFallback(history[|history| - 1], submissionId) then Some(0)
    else match EventsAfterFallback(history[..|history| - 1], submissionId)
      case None => None
      case Some(n) => Some(n + 1)
  }

  /** A fallback that fewer than sixteen retained events follow can never be missed. */
  lemma VisibleFallbackIsNotMissed(m: Matcher, s: Stream, x: ActiveSubmission)
    requires var after := EventsAfterFallback(s.history, x.SubmissionId());
             after.Some? && after.value < 16 && after.value < |s.history| - s.dropped
    ensures !BoundedScan(m, s, x).NotFound?
  {
    var n := EventsAfterFallback(s.history, x.SubmissionId()).value;
    assert Decisive(m, Newest(s, TERMINAL_LOOKBACK)[n], x);
  }

  /** Appending entries of other writers changes no fallback count. */
  lemma {:induction false} FallbackCountOfExtension(before: seq<Entry>, after: seq<Entry>, submissionId: string)
    requires before <= after
    requires forall i :: |before| <= i < |after| ==> !IsFallback(after[i], submissionId)
    ensures FallbackCount(after, submissionId) == FallbackCount(before, submissionId)
  {
    if |before| == |after| {
      assert before == after;
    } else {
      FallbackCountOfExtension(before, after[..|after| - 1], submissionId);
    }
  }
}
