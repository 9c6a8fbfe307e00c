/** What a whole stream of diffs does to the bridge. The outcome of a run is read off the
    stream's own update ids and the venue's books: which diff is dropped as old, which one
    bridges the snapshot, and which one, if any, ends the run. */
module DepthStream {
  import opened Common
  import opened DepthBridge
  import opened DepthVenue

  type Stream = seq<(Delta, u64)>

  /** The greatest final update id that has arrived. */
  function Newest(deltas: Stream): nat {
    if deltas == [] then 0
    else
      var front, last := Newest(deltas[..|deltas| - 1]), deltas[|deltas| - 1].0.finalId;
      if last > front then last else front
  }

  ghost predicate Parses(delta: Delta) {
    && (forall i :: 0 <= i < |delta.bids| ==> ValidLevel(delta.bids[i]))
    && (forall i :: 0 <= i < |delta.asks| ==> ValidLevel(delta.asks[i]))
  }

  ghost predicate Quoted(log: seq<VenueUpdate>, side: BookSide, k: nat, p: real)
    requires k <= |log|
  {
    ValueAt(log, side, k, p) != 0.0
  }

  /** The venue's own book after update `k` is two-sided and uncrossed. */
  ghost predicate VenueUncrossed(log: seq<VenueUpdate>, k: nat)
    requires k <= |log|
  {
    && (exists p :: Quoted(log, Bids, k, p))
    && (exists p :: Quoted(log, Asks, k, p))
    && forall b, a :: Quoted(log, Bids, k, b) && Quoted(log, Asks, k, a) ==> b < a
  }

  /** What is wrong with diff `i` of a stream that meets a snapshot at `last`. A diff older
      than the snapshot, or not newer than one that arrived since, is never wrong. The first
      other one has to straddle the snapshot, and each later one to continue its newest
      predecessor; both have to parse and to leave the venue's book uncrossed. */
  ghost function Fault(log: seq<VenueUpdate>, last: u64, deltas: Stream, i: nat): Option<DepthError>
    requires i < |deltas| && deltas[i].0.finalId <= |log|
  {
    var d, newest := deltas[i].0, Newest(deltas[..i]);
    if d.finalId < last || last <= d.finalId <= newest then None
    else if (if newest < last then d.firstId > last else d.pu != newest) then Some(SequenceGap)
    else if !Parses(d) then Some(InvalidLevel)
    else if !VenueUncrossed(log, d.finalId) then Some(InvalidBook)
    else None
  }

  ghost predicate FaithfulStream(log: seq<VenueUpdate>, symbol: string, deltas: Stream) {
    AllWellFormed(symbol, deltas) && forall i :: 0 <= i < |deltas| ==> FaithfulDelta(log, deltas[i].0)
  }

  ghost predicate NoFaultBefore(log: seq<VenueUpdate>, symbol: string, last: u64, deltas: Stream, k: nat)
    requires FaithfulStream(log, symbol, deltas) && k <= |deltas|
  {
    forall i :: 0 <= i < k ==> Fault(log, last, deltas, i).None?
  }

  // ---------------------------------------------------------------- where the bridge stands

  /** The bridge after the first `k` diffs: bridged exactly when one of them has reached the
      snapshot, and then at the newest of them. */
  ghost predicate Standing(log: seq<VenueUpdate>, last: u64, deltas: Stream, k: nat, s: State)
    requires k <= |deltas|
  {
    var newest := Newest(deltas[..k]);
    && s.buffered == [] && Synced(log, s)
    && (s.bridged <==> newest >= last)
    && s.last == Some(if newest >= last then newest else last)
  }

  /** The book carries the venue's levels at its sequence, and the times of the first diff
      that brought the stream there. */
  ghost predicate BookFrom(log: seq<VenueUpdate>, symbol: string, deltas: Stream, j: nat, book: L2Book)
    requires j < |deltas|
  {
    && book.asset == symbol && IsVenueBook(book, log)
    && book.sequence == deltas[j].0.finalId > Newest(deltas[..j])
    && book.tsEventNs == deltas[j].0.eventTimeMs * 1_000_000 && book.tsRecvNs == deltas[j].1
  }

  /** The last published book after the first `k` diffs: none before one reaches the snapshot,
      and from then on the one of the newest diff. */
  ghost predicate Shown(log: seq<VenueUpdate>, symbol: string, last: u64, deltas: Stream, k: nat, latest: Option<L2Book>)
    requires k <= |deltas|
  {
    if Newest(deltas[..k]) < last then latest.None?
    else latest.Some? && latest.value.sequence == Newest(deltas[..k])
         && exists j :: 0 <= j < k && BookFrom(log, symbol, deltas, j, latest.value)
  }

  lemma NewestOfOneMore(deltas: Stream, k: nat)
    requires k < |deltas|
    ensures Newest(deltas[..k + 1])
         == if deltas[k].0.finalId > Newest(deltas[..k]) then deltas[k].0.finalId else Newest(deltas[..k])
  {
    assert deltas[..k + 1][..k] == deltas[..k];
  }

  lemma ParsesIff(delta: Delta)
    ensures Parses(delta) <==> ParseUpdates(delta.bids).Ok? && ParseUpdates(delta.asks).Ok?
    ensures ParseUpdates(delta.bids).Err? ==> ParseUpdates(delta.bids).error == InvalidLevel
    ensures ParseUpdates(delta.asks).Err? ==> ParseUpdates(delta.asks).error == InvalidLevel
  {
    ParsedUpdatesAreValid(delta.bids);
    ParsedUpdatesAreValid(delta.asks);
  }

  lemma SomePrice(levels: Levels) returns (p: real)
    requires levels != map[]
    ensures p in levels
  {
    if forall q :: q !in levels {
      NoPrice(levels);
      assert false;
    }
    p :| p in levels;
  }

  lemma NoPrice(levels: Levels)
    requires forall q :: q !in levels
    ensures levels == map[]
  {
    var none: Levels := map[];
    assert forall q :: q in levels <==> q in none;
  }

  /** A book that is the venue's is uncrossed exactly when the venue's is. */
  lemma UncrossedIff(bids: Levels, asks: Levels, log: seq<VenueUpdate>, k: nat)
    requires k <= |log| && IsBookAt(bids, log, Bids, k) && IsBookAt(asks, log, Asks, k)
    ensures Uncrossed(bids, asks) <==> VenueUncrossed(log, k)
  {
    assert forall p :: p in bids <==> Quoted(log, Bids, k, p);
    assert forall p :: p in asks <==> Quoted(log, Asks, k, p);
    if Uncrossed(bids, asks) {
      var b := SomePrice(bids);
      var a := SomePrice(asks);
      assert Quoted(log, Bids, k, b) && Quoted(log, Asks, k, a);
    }
    if VenueUncrossed(log, k) {
      var b :| Quoted(log, Bids, k, b);
      var a :| Quoted(log, Asks, k, a);
      assert b in bids && a in asks;
    }
  }

  /** A diff of another symbol, without ids, clocks or order between its ids, or with an event time
      that does not fit in 64 bits of nanoseconds is refused; a full buffer refuses the rest. */
  lemma RefusedEvents(symbol: string, s: State, delta: Delta, receivedNs: u64)
    ensures Push(symbol, s, delta, receivedNs).1 == Err(InvalidEvent)
       <==> || delta.symbol != symbol || delta.firstId == 0 || delta.finalId < delta.firstId
            || delta.eventTimeMs == 0 || delta.eventTimeMs > 18_446_744_073_709 || receivedNs == 0
    ensures Push(symbol, s, delta, receivedNs).1 == Err(BufferFull)
       <==> WellFormed(symbol, delta, receivedNs) && s.last.None? && 2048 <= |s.buffered|
  {
    ParsedUpdatesAreValid(delta.bids);
    ParsedUpdatesAreValid(delta.asks);
  }

  /** A diff that is not newer than the bridge, or older than an unbridged snapshot, is dropped
      without a trace. */
  lemma OldDiffsAreDropped(symbol: string, s: State, delta: Delta, receivedNs: u64)
    requires s.last.Some? && WellFormed(symbol, delta, receivedNs)
    requires delta.finalId < s.last.value || (s.bridged && delta.finalId == s.last.value)
    ensures Push(symbol, s, delta, receivedNs) == (s, Ok(None))
  {
  }

  // ---------------------------------------------------------------- one diff of the stream

  /** A diff without fault is dropped or applied, and the bridge stands where the stream does. */
  lemma GoodDiff(log: seq<VenueUpdate>, symbol: string, last: u64, deltas: Stream, k: nat, s: State)
    requires FaithfulStream(log, symbol, deltas) && k < |deltas| && 0 < last
    requires Standing(log, last, deltas, k, s) && Fault(log, last, deltas, k).None?
    ensures var (s', r) := Apply(symbol, s, deltas[k].0, deltas[k].1);
            && r.Ok? && Standing(log, last, deltas, k + 1, s')
            && (r.value.Some? <==> deltas[k].0.finalId >= last && deltas[k].0.finalId > Newest(deltas[..k]))
            && (r.value.None? ==> s' == s)
            && (r.value.Some? ==> BookFrom(log, symbol, deltas, k, r.value.value))
  {
    var d, receivedNs := deltas[k].0, deltas[k].1;
    var newest := Newest(deltas[..k]);
    NewestOfOneMore(deltas, k);
    assert FaithfulDelta(log, d);
    if d.finalId >= last && d.finalId > newest {
      ParsesIff(d);
      AppliesFaithfully(log, symbol, s, d, receivedNs);
      ApplyTracksVenue(log, symbol, s, d, receivedNs);
    }
  }

  /** A diff in sequence that parses is applied exactly when the venue's book stays uncrossed. */
  lemma AppliesFaithfully(log: seq<VenueUpdate>, symbol: string, s: State, d: Delta, receivedNs: u64)
    requires Synced(log, s) && s.last.Some? && FaithfulDelta(log, d)
    requires if s.bridged then d.pu == s.last.value else d.firstId <= s.last.value <= d.finalId
    requires ParseUpdates(d.bids).Ok? && ParseUpdates(d.asks).Ok?
    ensures var (s', r) := Apply(symbol, s, d, receivedNs);
            if VenueUncrossed(log, d.finalId) then
              && s'.last == Some(d.finalId) && s'.bridged && s'.buffered == s.buffered
              && r.Ok? && r.value.Some?
              && r.value.value.asset == symbol && r.value.value.tsEventNs == d.eventTimeMs * 1_000_000
              && r.value.value.tsRecvNs == receivedNs
            else r == Err(InvalidBook)
  {
    var bids, asks := SetLevels(s.bids, ParseUpdates(d.bids).value), SetLevels(s.asks, ParseUpdates(d.asks).value);
    assert Carries(log, Bids, d.pu, d.finalId, RawSide(d, Bids));
    assert Carries(log, Asks, d.pu, d.finalId, RawSide(d, Asks));
    DeltaAdvancesSide(s.bids, log, Bids, d.pu, s.last.value, d.finalId, d.bids);
    DeltaAdvancesSide(s.asks, log, Asks, d.pu, s.last.value, d.finalId, d.asks);
    UncrossedIff(bids, asks, log, d.finalId);
  }

  /** A faulty diff is answered with its fault. */
  lemma BadDiff(log: seq<VenueUpdate>, symbol: string, last: u64, deltas: Stream, k: nat, s: State)
    requires FaithfulStream(log, symbol, deltas) && k < |deltas| && 0 < last
    requires Standing(log, last, deltas, k, s) && Fault(log, last, deltas, k).Some?
    ensures Apply(symbol, s, deltas[k].0, deltas[k].1).1 == Err(Fault(log, last, deltas, k).value)
  {
    var d, receivedNs := deltas[k].0, deltas[k].1;
    assert FaithfulDelta(log, d);
    ParsesIff(d);
    if Fault(log, last, deltas, k).value.InvalidBook? {
      AppliesFaithfully(log, symbol, s, d, receivedNs);
    }
  }

  // ---------------------------------------------------------------- the whole run

  /** The run ends with the first faulty diff's fault, or at the end of the stream. */
  ghost predicate EndsAs(log: seq<VenueUpdate>, symbol: string, last: u64, deltas: Stream, outcome: Outcome)
    requires FaithfulStream(log, symbol, deltas)
  {
    match outcome
    case Failed(error) =>
      exists i :: 0 <= i < |deltas| && NoFaultBefore(log, symbol, last, deltas, i)
                  && Fault(log, last, deltas, i) == Some(error)
    case Done(s, latest) =>
      && NoFaultBefore(log, symbol, last, deltas, |deltas|)
      && Standing(log, last, deltas, |deltas|, s)
      && Shown(log, symbol, last, deltas, |deltas|, latest)
  }

  lemma NextShown(log: seq<VenueUpdate>, symbol: string, last: u64, deltas: Stream, k: nat,
                  latest: Option<L2Book>, book: Option<L2Book>)
    requires k < |deltas| && 0 < last && Shown(log, symbol, last, deltas, k, latest)
    requires book.Some? <==> deltas[k].0.finalId >= last && deltas[k].0.finalId > Newest(deltas[..k])
    requires book.Some? ==> BookFrom(log, symbol, deltas, k, book.value)
    ensures Shown(log, symbol, last, deltas, k + 1, if book.Some? then book else latest)
  {
    NewestOfOneMore(deltas, k);
  }

  /** A diff without fault carries the bridge and the last book along with the stream. */
  lemma NextFollows(log: seq<VenueUpdate>, symbol: string, last: u64, deltas: Stream, k: nat, s: State,
                    latest: Option<L2Book>)
    requires FaithfulStream(log, symbol, deltas) && k < |deltas| && 0 < last
    requires Standing(log, last, deltas, k, s) && Shown(log, symbol, last, deltas, k, latest)
    requires Fault(log, last, deltas, k).None?
    ensures var (s', r) := Apply(symbol, s, deltas[k].0, deltas[k].1);
            && r.Ok? && Standing(log, last, deltas, k + 1, s')
            && Shown(log, symbol, last, deltas, k + 1, if r.value.Some? then r.value else latest)
  {
    GoodDiff(log, symbol, last, deltas, k, s);
    NextShown(log, symbol, last, deltas, k, latest, Apply(symbol, s, deltas[k].0, deltas[k].1).1.value);
  }

  type Invariant = (nat, State, Option<L2Book>) -> bool

  /** From a state that satisfies the invariant at `j`, input `j` either fails as foretold or
      leads to the invariant at `j + 1`. */
  ghost predicate StepsAsTold(step: Stepper, inputs: seq<Input>, inv: Invariant, fault: nat -> Option<DepthError>) {
    forall j: nat, s, latest {:trigger inv(j, s, latest)} :: j < |inputs| && inv(j, s, latest) ==>
      var (s', r) := step(s, inputs[j]);
      if fault(j).Some? then r == Err(fault(j).value)
      else r.Ok? && inv(j + 1, s', if r.value.Some? then r.value else latest)
  }

  /** A run ends with the first foretold failure, or with the invariant at its end. */
  ghost predicate EndsAsTold(n: nat, inv: Invariant, fault: nat -> Option<DepthError>, outcome: Outcome) {
    match outcome
    case Failed(error) =>
      exists i: nat :: i < n && fault(i) == Some(error) && forall j: nat :: j < i ==> fault(j).None?
    case Done(s, latest) => inv(n, s, latest) && forall j: nat :: j < n ==> fault(j).None?
  }

  lemma {:induction false} PlayedAsTold(step: Stepper, inputs: seq<Input>, inv: Invariant, fault: nat -> Option<DepthError>,
                                        k: nat, s: State, latest: Option<L2Book>)
    requires StepsAsTold(step, inputs, inv, fault) && k <= |inputs|
    requires inv(k, s, latest) && forall j: nat :: j < k ==> fault(j).None?
    ensures EndsAsTold(|inputs|, inv, fault, PlayBy(step, s, inputs[k..], latest))
    decreases |inputs| - k
  {
    if k < |inputs| {
      assert inputs[k..][0] == inputs[k] && inputs[k..][1..] == inputs[k + 1..];
      if fault(k).None? {
        var (s', r) := step(s, inputs[k]);
        PlayedAsTold(step, inputs, inv, fault, k + 1, s', if r.value.Some? then r.value else latest);
      }
    }
  }

  lemma {:induction false} PushesAt(deltas: Stream, i: nat)
    requires i < |deltas|
    ensures |Pushes(deltas)| == |deltas| && Pushes(deltas)[i] == PushIn(deltas[i].0, deltas[i].1)
  {
    if |deltas| > 1 {
      PushesAt(deltas[1..], if i == 0 then 0 else i - 1);
    }
  }

  ghost function Follows(log: seq<VenueUpdate>, symbol: string, last: u64, deltas: Stream): Invariant {
    (k: nat, s: State, latest: Option<L2Book>) =>
      k <= |deltas| && Standing(log, last, deltas, k, s) && Shown(log, symbol, last, deltas, k, latest)
  }

  ghost function Faults(log: seq<VenueUpdate>, symbol: string, last: u64, deltas: Stream): nat -> Option<DepthError>
    requires FaithfulStream(log, symbol, deltas)
  {
    (i: nat) => if i < |deltas| then Fault(log, last, deltas, i) else None
  }

  lemma PushAsTold(log: seq<VenueUpdate>, symbol: string, last: u64, deltas: Stream, k: nat, s: State,
                   latest: Option<L2Book>)
    requires FaithfulStream(log, symbol, deltas) && 0 < last && k < |Pushes(deltas)|
    requires Follows(log, symbol, last, deltas)(k, s, latest)
    ensures var (s', r) := Steps(symbol)(s, Pushes(deltas)[k]);
            var fault := Faults(log, symbol, last, deltas)(k);
            if fault.Some? then r == Err(fault.value)
            else r.Ok? && Follows(log, symbol, last, deltas)(k + 1, s', if r.value.Some? then r.value else latest)
  {
    if deltas != [] { PushesAt(deltas, 0); }
    PushesAt(deltas, k);
    assert WellFormed(symbol, deltas[k].0, deltas[k].1);
    if Fault(log, last, deltas, k).None? {
      NextFollows(log, symbol, last, deltas, k, s, latest);
    } else {
      BadDiff(log, symbol, last, deltas, k, s);
    }
  }

  /** Played onto the installed snapshot, the diffs end as the stream says. */
  lemma StreamIsFollowed(log: seq<VenueUpdate>, symbol: string, last: u64, deltas: Stream, s: State)
    requires FaithfulStream(log, symbol, deltas) && 0 < last && Standing(log, last, deltas, 0, s)
    ensures EndsAs(log, symbol, last, deltas, Play(symbol, s, Pushes(deltas), None))
  {
    var inputs, step := Pushes(deltas), Steps(symbol);
    var inv, fault := Follows(log, symbol, last, deltas), Faults(log, symbol, last, deltas);
    forall j: nat, t: State, latest: Option<L2Book> {:trigger inv(j, t, latest)} | j < |inputs| && inv(j, t, latest)
      ensures var (t', r) := step(t, inputs[j]);
              if fault(j).Some? then r == Err(fault(j).value)
              else r.Ok? && inv(j + 1, t', if r.value.Some? then r.value else latest)
    {
      PushAsTold(log, symbol, last, deltas, j, t, latest);
    }
    if deltas != [] { PushesAt(deltas, 0); }
    assert deltas[..0] == [] && inputs[0..] == inputs;
    PlayedAsTold(step, inputs, inv, fault, 0, s, None);
    AsTheStreamSays(log, symbol, last, deltas, Play(symbol, s, inputs, None));
  }

  lemma AsTheStreamSays(log: seq<VenueUpdate>, symbol: string, last: u64, deltas: Stream, outcome: Outcome)
    requires FaithfulStream(log, symbol, deltas)
    requires EndsAsTold(|deltas|, Follows(log, symbol, last, deltas), Faults(log, symbol, last, deltas), outcome)
    ensures EndsAs(log, symbol, last, deltas, outcome)
  {
    var fault := Faults(log, symbol, last, deltas);
    assert forall j: nat :: j < |deltas| ==> fault(j) == Fault(log, last, deltas, j);
    if outcome.Failed? {
      var i: nat :| i < |deltas| && fault(i) == Some(outcome.error) && forall j: nat :: j < i ==> fault(j).None?;
      assert Fault(log, last, deltas, i) == Some(outcome.error);
    }
  }

  /** A snapshot of the venue that can be installed. */
  ghost predicate Installable(log: seq<VenueUpdate>, snapshot: Snapshot) {
    && 0 < snapshot.lastUpdateId && FaithfulSnapshot(log, snapshot)
    && (forall i :: 0 <= i < |snapshot.bids| ==> ValidLevel(snapshot.bids[i]))
    && (forall i :: 0 <= i < |snapshot.asks| ==> ValidLevel(snapshot.asks[i]))
    && VenueUncrossed(log, snapshot.lastUpdateId)
  }

  lemma InstallsEmpty(log: seq<VenueUpdate>, symbol: string, snapshot: Snapshot)
    requires Installable(log, snapshot)
    ensures var (s, r) := Install(symbol, EMPTY, snapshot);
            && r == Ok(None) && Synced(log, s)
            && s.last == Some(snapshot.lastUpdateId) && !s.bridged && s.buffered == []
  {
    ParsedUpdatesAreValid(snapshot.bids);
    ParsedUpdatesAreValid(snapshot.asks);
    SnapshotIsBook(log, snapshot);
    UncrossedIff(ParseLevels(snapshot.bids).value, ParseLevels(snapshot.asks).value, log, snapshot.lastUpdateId);
  }

  /** Main result: a snapshot of the venue and a stream of well-formed, faithful diffs, with the
      snapshot arriving after any `at` of them, at most 2048. The run fails exactly when some
      diff is at fault, with the fault of the first such diff; otherwise it ends bridged at the
      newest diff with the venue's book there last published, or, if no diff has reached the
      snapshot, unbridged at the snapshot with nothing published. */
  lemma RunFollowsTheStream(log: seq<VenueUpdate>, symbol: string, deltas: Stream, snapshot: Snapshot, at: nat)
    requires FaithfulStream(log, symbol, deltas) && Installable(log, snapshot)
    requires at <= |deltas| && at <= MAX_BUFFER
    ensures EndsAs(log, symbol, snapshot.lastUpdateId, deltas,
                   Play(symbol, EMPTY, WithSnapshotAt(deltas, snapshot, at), None))
  {
    SnapshotTimingIsInvisible(symbol, deltas, snapshot, at);
    InstallsEmpty(log, symbol, snapshot);
    assert deltas[..0] == [];
    StreamIsFollowed(log, symbol, snapshot.lastUpdateId, deltas, Install(symbol, EMPTY, snapshot).0);
  }

  /** Any other snapshot leaves a fresh bridge, whatever was buffered, and says why. */
  lemma OtherSnapshotsAreRefused(log: seq<VenueUpdate>, symbol: string, s: State, snapshot: Snapshot)
    requires FaithfulSnapshot(log, snapshot) && !Installable(log, snapshot)
    ensures var valid := (forall i :: 0 <= i < |snapshot.bids| ==> ValidLevel(snapshot.bids[i]))
                         && (forall i :: 0 <= i < |snapshot.asks| ==> ValidLevel(snapshot.asks[i]));
            Install(symbol, s, snapshot) ==
            (EMPTY, Err(if snapshot.lastUpdateId == 0 then InvalidEvent else if !valid then InvalidLevel else InvalidBook))
  {
    ParsedUpdatesAreValid(snapshot.bids);
    ParsedUpdatesAreValid(snapshot.asks);
    SnapshotIsBook(log, snapshot);
    if ParseUpdates(snapshot.bids).Ok? && ParseUpdates(snapshot.asks).Ok? {
      UncrossedIff(ParseLevels(snapshot.bids).value, ParseLevels(snapshot.asks).value, log, snapshot.lastUpdateId);
    }
  }

  // ---------------------------------------------------------------- streams as the venue sends them

  /** Every diff continues the newest one before it or is delivered again. */
  ghost predicate Chained(deltas: Stream) {
    forall i :: 0 < i < |deltas| ==>
      deltas[i].0.pu == Newest(deltas[..i]) || deltas[i].0.finalId <= Newest(deltas[..i])
  }

  lemma {:induction false} NewestGrows(deltas: Stream, i: nat, k: nat)
    requires i < k <= |deltas|
    ensures Newest(deltas[..i]) <= Newest(deltas[..k]) && deltas[i].0.finalId <= Newest(deltas[..k])
    decreases k
  {
    NewestOfOneMore(deltas, k - 1);
    if i < k - 1 {
      NewestGrows(deltas, i, k - 1);
    }
  }

  lemma ChainedHasNoFault(log: seq<VenueUpdate>, symbol: string, last: u64, deltas: Stream, b: nat)
    requires FaithfulStream(log, symbol, deltas) && 0 < last
    requires Chained(deltas) && b < |deltas| && (b > 0 ==> deltas[b].0.pu == Newest(deltas[..b]))
    requires deltas[b].0.firstId <= last <= deltas[b].0.finalId
    requires forall i :: b <= i < |deltas| ==> Parses(deltas[i].0) && VenueUncrossed(log, deltas[i].0.finalId)
    ensures NoFaultBefore(log, symbol, last, deltas, |deltas|)
  {
    forall i | 0 <= i < |deltas|
      ensures Fault(log, last, deltas, i).None?
    {
      assert FaithfulDelta(log, deltas[b].0);
      if i < b {
        NewestGrows(deltas, i, b);
      } else if i > b {
        NewestGrows(deltas, b, i);
      }
    }
  }

  /** Liveness: a chained stream one of whose new diffs straddles the snapshot, over venue books
      that are uncrossed from there on, is followed to its end. Older diffs, wherever they
      are, and diffs delivered again do no harm. */
  lemma ChainedStreamIsFollowed(log: seq<VenueUpdate>, symbol: string, deltas: Stream, snapshot: Snapshot, at: nat, b: nat)
    requires FaithfulStream(log, symbol, deltas) && Installable(log, snapshot)
    requires at <= |deltas| && at <= MAX_BUFFER
    requires Chained(deltas) && b < |deltas| && (b > 0 ==> deltas[b].0.pu == Newest(deltas[..b]))
    requires deltas[b].0.firstId <= snapshot.lastUpdateId <= deltas[b].0.finalId
    requires forall i :: b <= i < |deltas| ==> Parses(deltas[i].0) && VenueUncrossed(log, deltas[i].0.finalId)
    ensures var run := Play(symbol, EMPTY, WithSnapshotAt(deltas, snapshot, at), None);
            && run.Done? && run.state.bridged && run.state.last == Some(Newest(deltas)) && Synced(log, run.state)
            && run.latest.Some? && run.latest.value.sequence == Newest(deltas) && IsVenueBook(run.latest.value, log)
  {
    ChainedHasNoFault(log, symbol, snapshot.lastUpdateId, deltas, b);
    RunFollowsTheStream(log, symbol, deltas, snapshot, at);
    NewestGrows(deltas, b, |deltas|);
    assert deltas[..|deltas|] == deltas;
    NoFaultIsDone(log, symbol, snapshot.lastUpdateId, deltas,
                  Play(symbol, EMPTY, WithSnapshotAt(deltas, snapshot, at), None));
  }

  lemma NoFaultIsDone(log: seq<VenueUpdate>, symbol: string, last: u64, deltas: Stream, outcome: Outcome)
    requires FaithfulStream(log, symbol, deltas) && EndsAs(log, symbol, last, deltas, outcome)
    requires NoFaultBefore(log, symbol, last, deltas, |deltas|) && last <= Newest(deltas)
    ensures && outcome.Done? && outcome.state.bridged && outcome.state.last == Some(Newest(deltas))
            && Synced(log, outcome.state)
            && outcome.latest.Some? && outcome.latest.value.sequence == Newest(deltas)
            && IsVenueBook(outcome.latest.value, log)
  {
    assert deltas[..|deltas|] == deltas;
  }
}
