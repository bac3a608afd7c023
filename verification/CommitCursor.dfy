/** JoesBrowsableEventStore: a resumable cursor over commits, re-reading the last one each time and skipping it. */
module CommitCursor {
  import opened Common

  datatype Commit = Commit(sequentialId: int, events: seq<Id>)

  /** IPersistStreamsWithAbsoluteOrdering.Fetch: from the given id, inclusively, in id order, at most `maxCount`. */
  function CommitsFrom(log: seq<Commit>, id: int): seq<Commit> {
    if log == [] then []
    else CommitsFrom(log[..|log| - 1], id) + if log[|log| - 1].sequentialId >= id then [log[|log| - 1]] else []
  }

  function Take(commits: seq<Commit>, maxCount: int): seq<Commit> {
    if maxCount <= 0 then [] else if maxCount < |commits| then commits[..maxCount] else commits
  }

  /** The store's two fields, and the history of what it yielded. */
  datatype Reader = Reader(last: int, firstCommitFetched: bool, delivered: seq<Id>)

  function NewReader(): Reader {
    Reader(0, false, [])
  }

  /** The body of the loop over commits. */
  function Deliver(r: Reader, commit: Commit): Reader {
    if r.firstCommitFetched && r.last == commit.sequentialId then r
    else Reader(commit.sequentialId, true, r.delivered + commit.events)
  }

  function DeliverAll(r: Reader, commits: seq<Commit>): Reader {
    if commits == [] then r else Deliver(DeliverAll(r, commits[..|commits| - 1]), commits[|commits| - 1])
  }

  /** The cursor starts at the pipeline's last processed commit, 0 when there is none. */
  function Resume(r: Reader, marked: int): Reader {
    if r.last == 0 then r.(last := marked) else r
  }

  /** One fully enumerated Fetch. */
  function FetchStep(r: Reader, log: seq<Commit>, marked: int, maxCount: int): Reader {
    var resumed := Resume(r, marked);
    DeliverAll(resumed, Take(CommitsFrom(log, resumed.last), maxCount))
  }

  // ----- The store as the class it is -----

  class JoesBrowsableEventStore {
    var lastCommitSequentialId: int
    var firstCommitFetched: bool
    ghost var delivered: seq<Id>

    ghost function View(): Reader
      reads this
    {
      Reader(lastCommitSequentialId, firstCommitFetched, delivered)
    }

    constructor ()
      ensures View() == NewReader()
    {
      lastCommitSequentialId, firstCommitFetched, delivered := 0, false, [];
    }

    method Fetch(log: seq<Commit>, marked: int, maxCount: int) returns (elements: seq<Id>)
      modifies this
      ensures View() == FetchStep(old(View()), log, marked, maxCount)
      ensures delivered == old(delivered) + elements
    {
      if lastCommitSequentialId == 0 {
        lastCommitSequentialId := marked;
      }
      ghost var resumed := View();
      var commits := Take(CommitsFrom(log, lastCommitSequentialId), maxCount);
      elements := [];
      var i := 0;
      while i < |commits|
        invariant 0 <= i <= |commits|
        invariant View() == DeliverAll(resumed, commits[..i]) && delivered == old(delivered) + elements
      {
        assert commits[..i + 1][..i] == commits[..i];
        var commit := commits[i];
        if !(firstCommitFetched && lastCommitSequentialId == commit.sequentialId) {
          lastCommitSequentialId := commit.sequentialId;
          elements := elements + commit.events;
          delivered := delivered + commit.events;
          firstCommitFetched := true;
        }
        i := i + 1;
      }
      assert commits[..i] == commits;
    }
  }

  // ----- What a series of fetches delivers -----

  function EventsOf(commits: seq<Commit>): seq<Id> {
    if commits == [] then [] else EventsOf(commits[..|commits| - 1]) + commits[|commits| - 1].events
  }

  /** Ids are handed out from 1 up, in commit order. */
  ghost predicate InOrder(log: seq<Commit>) {
    && (forall i | 0 <= i < |log| :: log[i].sequentialId >= 1)
    && forall i, j | 0 <= i < j < |log| :: log[i].sequentialId < log[j].sequentialId
  }

  /** `start` is where the marked commit is, or 0 when nothing was marked. */
  ghost predicate StartsAt(log: seq<Commit>, marked: int, start: nat) {
    if marked == 0 then start == 0 else start < |log| && log[start].sequentialId == marked
  }

  lemma {:induction false} CommitsFromIsSuffix(log: seq<Commit>, id: int, p: nat)
    requires p <= |log| && (forall i | 0 <= i < p :: log[i].sequentialId < id)
    requires forall i | p <= i < |log| :: log[i].sequentialId >= id
    ensures CommitsFrom(log, id) == log[p..]
  {
    if log != [] {
      var front, last := log[..|log| - 1], log[|log| - 1];
      assert CommitsFrom(log, id) == CommitsFrom(front, id) + if last.sequentialId >= id then [last] else [];
      if p < |log| {
        CommitsFromIsSuffix(front, id, p);
        assert log[p..] == front[p..] + [last];
      } else {
        CommitsFromIsSuffix(front, id, p - 1);
        assert front[p - 1..] == [] && log[p..] == [];
      }
    }
  }

  /** Everything from `start` up to `n` was delivered, in order and once each, and the cursor stands on the last. */
  ghost predicate DeliveredUpTo(r: Reader, log: seq<Commit>, marked: int, start: nat, n: nat) {
    && start <= n <= |log| && InOrder(log) && StartsAt(log, marked, start)
    && r.delivered == EventsOf(log[start..n])
    && (n == start ==> !r.firstCommitFetched && (r.last == 0 || r.last == marked))
    && (n > start ==> r.firstCommitFetched && r.last == log[n - 1].sequentialId)
  }

  /** New commits further along, none of them the one the cursor stands on, are all delivered. */
  lemma {:induction false} DeliverFresh(r: Reader, log: seq<Commit>, marked: int, start: nat, n: nat, m: nat)
    requires DeliveredUpTo(r, log, marked, start, n) && n <= m <= |log|
    ensures DeliveredUpTo(DeliverAll(r, log[n..m]), log, marked, start, m)
  {
    if n == m {
      assert log[n..m] == [];
    } else {
      DeliverFresh(r, log, marked, start, n, m - 1);
      assert log[n..m][..m - n - 1] == log[n..m - 1];
      assert log[start..m][..m - start - 1] == log[start..m - 1];
    }
  }

  /** How far one fetch gets. */
  function NextPosition(log: seq<Commit>, start: nat, n: nat, maxCount: int): int {
    var most := if n == start then n + maxCount else n - 1 + maxCount;
    if maxCount <= 0 || most <= n then n else if most < |log| then most else |log|
  }

  lemma FetchDelivers(r: Reader, log: seq<Commit>, marked: int, start: nat, n: nat, maxCount: int)
    requires DeliveredUpTo(r, log, marked, start, n)
    ensures n <= NextPosition(log, start, n, maxCount) <= |log|
    ensures DeliveredUpTo(FetchStep(r, log, marked, maxCount), log, marked, start,
                          NextPosition(log, start, n, maxCount))
  {
    var resumed, m := Resume(r, marked), NextPosition(log, start, n, maxCount);
    ResumeKeeps(r, log, marked, start, n);
    if n == start {
      FirstFetch(resumed, log, marked, start, maxCount);
    } else {
      LaterFetch(resumed, log, marked, start, n, maxCount);
    }
    DeliverFresh(resumed, log, marked, start, n, m);
  }

  lemma ResumeKeeps(r: Reader, log: seq<Commit>, marked: int, start: nat, n: nat)
    requires DeliveredUpTo(r, log, marked, start, n)
    ensures DeliveredUpTo(Resume(r, marked), log, marked, start, n)
    ensures n == start ==> Resume(r, marked).last == marked
  {
  }

  lemma FirstFetch(r: Reader, log: seq<Commit>, marked: int, start: nat, maxCount: int)
    requires InOrder(log) && StartsAt(log, marked, start) && start <= |log| && r.last == marked
    ensures Take(CommitsFrom(log, r.last), maxCount) == log[start..NextPosition(log, start, start, maxCount)]
  {
    MarkedSplits(log, marked, start);
    CommitsFromIsSuffix(log, marked, start);
    TakeOfSuffix(log, start, maxCount);
  }

  lemma MarkedSplits(log: seq<Commit>, marked: int, start: nat)
    requires InOrder(log) && StartsAt(log, marked, start)
    ensures start <= |log| && (forall i | 0 <= i < start :: log[i].sequentialId < marked)
    ensures forall i | start <= i < |log| :: log[i].sequentialId >= marked
  {
  }

  lemma TakeOfSuffix(log: seq<Commit>, start: nat, maxCount: int)
    requires start <= |log|
    ensures Take(log[start..], maxCount) == log[start..NextPosition(log, start, start, maxCount)]
  {
    if 0 < maxCount < |log| - start {
      assert log[start..][..maxCount] == log[start..start + maxCount];
    }
  }

  lemma LaterFetch(r: Reader, log: seq<Commit>, marked: int, start: nat, n: nat, maxCount: int)
    requires DeliveredUpTo(r, log, marked, start, n) && start < n
    ensures DeliverAll(r, Take(CommitsFrom(log, r.last), maxCount)) ==
            DeliverAll(r, log[n..NextPosition(log, start, n, maxCount)])
  {
    CommitsFromIsSuffix(log, r.last, n - 1);
    SkipLast(r, log, n, maxCount, NextPosition(log, start, n, maxCount));
  }

  /** Re-reading the last commit changes nothing. */
  lemma SkipLast(r: Reader, log: seq<Commit>, n: nat, maxCount: int, m: nat)
    requires 1 <= n <= |log| && r.firstCommitFetched && r.last == log[n - 1].sequentialId
    requires m == if maxCount <= 1 then n else if n - 1 + maxCount < |log| then n - 1 + maxCount else |log|
    ensures DeliverAll(r, Take(log[n - 1..], maxCount)) == DeliverAll(r, log[n..m])
  {
    if maxCount <= 0 {
      assert log[n..m] == [];
    } else {
      assert Take(log[n - 1..], maxCount) == [log[n - 1]] + log[n..m];
      DeliverAfterSkip(r, log[n - 1], log[n..m]);
    }
  }

  lemma {:induction false} DeliverAfterSkip(r: Reader, commit: Commit, rest: seq<Commit>)
    requires Deliver(r, commit) == r
    ensures DeliverAll(r, [commit] + rest) == DeliverAll(r, rest)
  {
    var all := [commit] + rest;
    if rest == [] {
      assert all[..|all| - 1] == [] && all[|all| - 1] == commit;
      assert DeliverAll(r, []) == r;
    } else {
      assert all[..|all| - 1] == [commit] + rest[..|rest| - 1];
      DeliverAfterSkip(r, commit, rest[..|rest| - 1]);
    }
  }

  datatype Step = Append(commit: Commit) | Fetch(maxCount: int)

  datatype State = State(log: seq<Commit>, reader: Reader, position: nat)

  /** The log grows at its end; a fetch is enumerated to the end. `position` is the history: how far it got. */
  function Next(s: State, marked: int, start: nat, step: Step): State {
    match step
    case Append(commit) =>
      if 1 <= commit.sequentialId && (s.log == [] || s.log[|s.log| - 1].sequentialId < commit.sequentialId) then
        s.(log := s.log + [commit])
      else s
    case Fetch(maxCount) =>
      var position := NextPosition(s.log, start, s.position, maxCount);
      s.(reader := FetchStep(s.reader, s.log, marked, maxCount), position := if position < 0 then 0 else position)
  }

  function Run(log: seq<Commit>, marked: int, start: nat, steps: seq<Step>): State {
    if steps == [] then State(log, NewReader(), start)
    else Next(Run(log, marked, start, steps[..|steps| - 1]), marked, start, steps[|steps| - 1])
  }

  lemma AppendKeeps(r: Reader, log: seq<Commit>, marked: int, start: nat, n: nat, commit: Commit)
    requires DeliveredUpTo(r, log, marked, start, n) && 1 <= commit.sequentialId
    requires log == [] || log[|log| - 1].sequentialId < commit.sequentialId
    ensures DeliveredUpTo(r, log + [commit], marked, start, n)
  {
    assert (log + [commit])[start..n] == log[start..n];
  }

  /** Whatever the fetch sizes and however the log grows in between: what was delivered is, in order and once each,
      the events of all commits from the last marked one, inclusively, up to where the cursor got. */
  lemma {:induction false} DeliversEveryCommitOnce(log: seq<Commit>, marked: int, start: nat, steps: seq<Step>)
    requires InOrder(log) && StartsAt(log, marked, start)
    ensures var s := Run(log, marked, start, steps);
      log <= s.log && DeliveredUpTo(s.reader, s.log, marked, start, s.position)
  {
    if steps == [] {
      assert log[start..start] == [];
    } else {
      DeliversEveryCommitOnce(log, marked, start, steps[..|steps| - 1]);
      NextDelivers(Run(log, marked, start, steps[..|steps| - 1]), marked, start, steps[|steps| - 1]);
    }
  }

  lemma NextDelivers(s: State, marked: int, start: nat, step: Step)
    requires DeliveredUpTo(s.reader, s.log, marked, start, s.position)
    ensures var s' := Next(s, marked, start, step);
      s.log <= s'.log && DeliveredUpTo(s'.reader, s'.log, marked, start, s'.position)
  {
    match step
    case Append(commit) =>
      if 1 <= commit.sequentialId && (s.log == [] || s.log[|s.log| - 1].sequentialId < commit.sequentialId) {
        AppendKeeps(s.reader, s.log, marked, start, s.position, commit);
      }
    case Fetch(maxCount) => FetchDelivers(s.reader, s.log, marked, start, s.position, maxCount);
  }

  /** A fetch that gets further than `n`: it delivers at least the next commit. */
  ghost predicate GetsPast(s: State, marked: int, start: nat, maxCount: int, n: nat) {
    exists m: nat :: n < m && DeliveredUpTo(FetchStep(s.reader, s.log, marked, maxCount), s.log, marked, start, m)
  }

  /** While newer commits exist every fetch delivers some, at every point of every run, exactly for sizes of two and
      more: a fetch of one only re-reads the commit the cursor stands on. */
  lemma ProgressExactlyFromTwo(maxCount: int)
    ensures maxCount >= 2 <==>
      forall log, marked, start: nat, steps | InOrder(log) && StartsAt(log, marked, start) ::
        var s := Run(log, marked, start, steps);
        s.position < |s.log| ==> GetsPast(s, marked, start, maxCount, s.position)
  {
    if maxCount >= 2 {
      forall log, marked, start: nat, steps | InOrder(log) && StartsAt(log, marked, start)
        ensures var s := Run(log, marked, start, steps);
          s.position < |s.log| ==> GetsPast(s, marked, start, maxCount, s.position)
      {
        var s := Run(log, marked, start, steps);
        DeliversEveryCommitOnce(log, marked, start, steps);
        FetchDelivers(s.reader, s.log, marked, start, s.position, maxCount);
      }
    } else {
      StuckOnLast(maxCount);
    }
  }

  lemma StuckOnLast(maxCount: int)
    requires maxCount < 2
    ensures exists log, marked, start: nat, steps ::
      && InOrder(log) && StartsAt(log, marked, start)
      && Run(log, marked, start, steps).position < |Run(log, marked, start, steps).log|
      && !GetsPast(Run(log, marked, start, steps), marked, start, maxCount, Run(log, marked, start, steps).position)
  {
    var log: seq<Commit> := [Commit(1, []), Commit(2, [])];
    var steps: seq<Step> := [Fetch(1)];
    assert steps[..|steps| - 1] == [] && Run(log, 0, 0, []) == State(log, NewReader(), 0);
    var s := Run(log, 0, 0, steps);
    assert InOrder(log) && StartsAt(log, 0, 0) && s.log == log && s.position == 1;
    DeliversEveryCommitOnce(log, 0, 0, steps);
    FetchDelivers(s.reader, log, 0, 0, 1, maxCount);
    assert FetchStep(s.reader, log, 0, maxCount).last == 1;
    assert !GetsPast(s, 0, 0, maxCount, s.position);
  }
}
