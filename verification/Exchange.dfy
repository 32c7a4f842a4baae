/** The RFC 7252 retransmission schedule of one confirmable request. Times are
    in milliseconds. */
module Retransmission {
  import opened Wire

  const ACK_TIMEOUT := 2000
  const ACK_RANDOM_WINDOW := 1000
  const MAX_RETRANSMIT := 2
  const EXCHANGE_TIMEOUT := 12000

  datatype Schedule = Schedule(timeout: nat, retransmissions: nat)

  /** `randomized`, from one random draw. */
  function Randomized(draw: nat): Schedule {
    Schedule(ACK_TIMEOUT + draw % (ACK_RANDOM_WINDOW + 1), 0)
  }

  function Timeout(s: Schedule): Option<nat> {
    if s.retransmissions < MAX_RETRANSMIT then Some(s.timeout) else None
  }

  function Retransmitted(s: Schedule): Schedule {
    Schedule(2 * s.timeout, s.retransmissions + 1)
  }

  /** The first timeout of a schedule reached by retransmissions. */
  ghost predicate StartedAt(s: Schedule, initial: nat) {
    && ACK_TIMEOUT <= initial <= ACK_TIMEOUT + ACK_RANDOM_WINDOW
    && match s.retransmissions
       case 0 => s.timeout == initial
       case 1 => s.timeout == 2 * initial
       case 2 => s.timeout == 4 * initial
       case _ => false
  }

  /** No send comes before its timer: the gaps are at least the first timeout
      and its double. */
  ghost predicate Spaced(times: seq<nat>, initial: nat) {
    && (|times| >= 2 ==> times[1] >= times[0] + initial)
    && (|times| >= 3 ==> times[2] >= times[1] + 2 * initial)
  }

  /** Every timer ran when it was due. */
  ghost predicate OnTime(times: seq<nat>, initial: nat) {
    && (|times| >= 2 ==> times[1] == times[0] + initial)
    && (|times| >= 3 ==> times[2] == times[1] + 2 * initial)
  }

  /** The times a request was sent at, given where its schedule stands. */
  ghost predicate Follows(s: Schedule, times: seq<nat>, initial: nat) {
    StartedAt(s, initial) && |times| == s.retransmissions + 1 && Spaced(times, initial)
  }

  lemma FirstSend(draw: nat, now: nat)
    ensures Follows(Randomized(draw), [now], Randomized(draw).timeout)
  {
  }

  /** A retry that is due keeps the schedule. */
  lemma NextSend(s: Schedule, times: seq<nat>, initial: nat, now: nat)
    requires Follows(s, times, initial) && Timeout(s).Some? && now >= times[|times| - 1] + s.timeout
    ensures Follows(Retransmitted(s), times + [now], initial)
  {
  }

  /** However late the timers run, a request is sent at most three times; run
      on time, all sends fall within 9 s of the first, and the retry after them
      would be due at least 14 s after it, past the 12 s deadline. */
  lemma SendsBounded(s: Schedule, times: seq<nat>, initial: nat)
    requires Follows(s, times, initial)
    ensures |times| <= 3
    ensures forall k :: 0 <= k < |times| && OnTime(times, initial) ==> times[k] <= times[0] + 9000
    ensures |times| == 3 ==> Timeout(s).None? && times[2] + s.timeout >= times[0] + 14000 > times[0] + EXCHANGE_TIMEOUT
  {
  }
}

/** Sequences of exchanges. */
module Exchanges {
  import opened Wire
  import opened Retransmission

  datatype Kind = Caller(id: nat) | Petition | KeepAlive | Resign

  /** Who waits for an exchange; the serial number stands for the identity of
      the reply channel, which is moved and never copied. */
  datatype Completion = Completion(kind: Kind, serial: nat)

  datatype Outbound = Outbound(confirmable: bool, proxied: bool, expectResponse: bool)

  datatype Pending = Pending(
    messageId: u16, token: bytes, proxied: bool, retransmit: Option<Schedule>, retryAt: Option<nat>,
    deadline: nat, completion: Completion)

  datatype Queued = Queued(request: Outbound, completion: Completion)

  function Applications(inFlight: seq<Pending>): nat {
    if inFlight == [] then 0 else
    Applications(inFlight[..|inFlight| - 1]) + if inFlight[|inFlight| - 1].completion.kind.Caller? then 1 else 0
  }

  function Serials(inFlight: seq<Pending>): seq<nat> {
    seq(|inFlight|, i requires 0 <= i < |inFlight| => inFlight[i].completion.serial)
  }

  function QueuedSerials(queued: seq<Queued>): seq<nat> {
    seq(|queued|, i requires 0 <= i < |queued| => queued[i].completion.serial)
  }

  function Without<T>(s: seq<T>, i: nat): seq<T>
    requires i < |s|
  {
    s[..i] + s[i + 1..]
  }

  lemma SplitMultiset<T>(s: seq<T>, i: nat)
    requires i < |s|
    ensures multiset(s) == multiset(Without(s, i)) + multiset{s[i]}
  {
    assert s == s[..i] + [s[i]] + s[i + 1..];
  }

  lemma SerialsWithout(s: seq<Pending>, i: nat)
    requires i < |s|
    ensures Serials(Without(s, i)) == Without(Serials(s), i)
  {
  }

  lemma QueuedWithout(s: seq<Queued>, i: nat)
    requires i < |s|
    ensures QueuedSerials(Without(s, i)) == Without(QueuedSerials(s), i)
  {
  }

  lemma {:induction false} ApplicationsSplit(a: seq<Pending>, b: seq<Pending>)
    ensures Applications(a + b) == Applications(a) + Applications(b)
    decreases |b|
  {
    if b == [] {
      assert a + b == a;
    } else {
      assert (a + b)[..|a + b| - 1] == a + b[..|b| - 1];
      ApplicationsSplit(a, b[..|b| - 1]);
    }
  }

  lemma ApplicationsWithout(s: seq<Pending>, i: nat)
    requires i < |s|
    ensures Applications(s) == Applications(Without(s, i)) + if s[i].completion.kind.Caller? then 1 else 0
  {
    hide Applications;
    assert s == s[..i] + [s[i]] + s[i + 1..];
    ApplicationsSplit(s[..i] + [s[i]], s[i + 1..]);
    ApplicationsSplit(s[..i], [s[i]]);
    ApplicationsSplit(s[..i], s[i + 1..]);
    OneApplication(s[i]);
  }

  lemma OneApplication(p: Pending)
    ensures Applications([p]) == if p.completion.kind.Caller? then 1 else 0
  {
    assert [p][..0] == [];
  }

  ghost predicate TokensDistinct(inFlight: seq<Pending>) {
    forall i, j :: 0 <= i < j < |inFlight| ==> inFlight[i].token != inFlight[j].token
  }

  predicate Uses(inFlight: seq<Pending>, token: bytes) {
    exists i :: 0 <= i < |inFlight| && inFlight[i].token == token
  }

  ghost predicate Increasing(s: seq<nat>) {
    forall i, j :: 0 <= i < j < |s| ==> s[i] < s[j]
  }

  /** There is always an unused token. */
  lemma {:induction false} UnusedTokenExists(inFlight: seq<Pending>) returns (token: bytes)
    ensures !Uses(inFlight, token)
    ensures forall i :: 0 <= i < |inFlight| ==> |inFlight[i].token| < |token|
    decreases |inFlight|
  {
    if inFlight == [] {
      token := [0];
    } else {
      var last := inFlight[|inFlight| - 1].token;
      var shorter := UnusedTokenExists(inFlight[..|inFlight| - 1]);
      token := last + shorter + [0];
      assert forall i :: 0 <= i < |inFlight| - 1 ==> inFlight[i] == inFlight[..|inFlight| - 1][i];
    }
  }

  // ---- Where completions are ----

  ghost function Everywhere(inFlight: seq<Pending>, queued: seq<Queued>, consumed: seq<nat>): multiset<nat> {
    multiset(Serials(inFlight)) + multiset(QueuedSerials(queued)) + multiset(consumed)
  }

  /** Each of 0, ..., n-1 once. */
  ghost function UpTo(n: nat): multiset<nat> {
    if n == 0 then multiset{} else UpTo(n - 1) + multiset{n - 1}
  }

  lemma {:induction false} UpToOnce(n: nat, k: nat)
    ensures UpTo(n)[k] == if k < n then 1 else 0
    decreases n
  {
    if n > 0 {
      UpToOnce(n - 1, k);
    }
  }

  // ---- When requests were sent ----

  /** An exchange in flight and the times its request was sent at. */
  ghost predicate Tracked(p: Pending, sends: map<nat, seq<nat>>) {
    && p.completion.serial in sends
    && var times := sends[p.completion.serial];
    && |times| >= 1 && p.deadline == times[0] + EXCHANGE_TIMEOUT
    && match p.retransmit
       case None => |times| == 1 && p.retryAt.None?
       case Some(s) =>
         && (exists initial :: Follows(s, times, initial))
         && (p.retryAt.Some? ==> Timeout(s).Some? && p.retryAt.value == times[|times| - 1] + s.timeout)
  }

  /** At most three sends, all within the exchange's deadline. */
  ghost predicate FewSends(times: seq<nat>) {
    && 1 <= |times| <= 3
    && forall k :: 0 <= k < |times| ==> times[0] <= times[k] < times[0] + EXCHANGE_TIMEOUT
  }

  ghost predicate AllTracked(inFlight: seq<Pending>, sends: map<nat, seq<nat>>) {
    forall i :: 0 <= i < |inFlight| ==> Tracked(inFlight[i], sends)
  }

  ghost predicate AllFew(sends: map<nat, seq<nat>>) {
    forall k :: k in sends ==> FewSends(sends[k])
  }

  /** Neither the deadline nor a retry is due. */
  predicate Rests(p: Pending, now: nat) {
    p.deadline > now && (p.retryAt.Some? ==> p.retryAt.value > now)
  }

  ghost predicate AllRest(inFlight: seq<Pending>, from: nat, now: nat) {
    forall i :: from <= i < |inFlight| ==> Rests(inFlight[i], now)
  }
}
