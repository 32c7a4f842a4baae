/** Confirmable messages already answered, so that a retransmission gets the
    same reply again (section 4.5 of RFC 7252). Times are in milliseconds. */
module Duplicates {
  import opened Wire
  import Coap

  const EXCHANGE_LIFETIME := 247_000
  const MAX_REMEMBERED := 64

  datatype Origin = BorderAgent | Mesh(address: bytes, port: u16)

  datatype Answered = Answered(origin: Origin, messageId: u16, reply: Coap.CoapMessage, at: nat)

  predicate Expired(a: Answered, now: nat) {
    now >= a.at + EXCHANGE_LIFETIME
  }

  predicate Answers(a: Answered, origin: Origin, messageId: u16) {
    a.origin == origin && a.messageId == messageId
  }

  /** `forget_expired`: drops expired entries off the front. */
  function Kept(entries: seq<Answered>, now: nat): (r: seq<Answered>)
    ensures |r| <= |entries| && r == entries[|entries| - |r|..]
  {
    if entries != [] && Expired(entries[0], now) then Kept(entries[1..], now) else entries
  }

  /** The first reply to a message, oldest entry first. */
  function Found(entries: seq<Answered>, origin: Origin, messageId: u16): Option<Coap.CoapMessage> {
    if entries == [] then None
    else if Answers(entries[0], origin, messageId) then Some(entries[0].reply)
    else Found(entries[1..], origin, messageId)
  }

  function Remembered(entries: seq<Answered>, a: Answered): seq<Answered> {
    var kept := Kept(entries, a.at);
    (if |kept| == MAX_REMEMBERED then kept[1..] else kept) + [a]
  }

  /** `retain`: everything but the border agent's messages. */
  function MeshOnly(entries: seq<Answered>): (r: seq<Answered>)
    ensures |r| <= |entries|
  {
    if entries == [] then [] else
    (if entries[0].origin == BorderAgent then [] else [entries[0]]) + MeshOnly(entries[1..])
  }

  /** The record the driver keeps, with the log of all replies since the last
      reopening and the time of the last use. */
  class AnsweredMessages {
    var entries: seq<Answered>
    ghost var log: seq<Answered>
    ghost var since: nat

    ghost predicate Valid()
      reads this
    {
      StandsFor(entries, log, since) && AtMostOnce(entries)
    }

    constructor ()
      ensures entries == [] && log == [] && since == 0 && Valid()
    {
      entries, log, since := [], [], 0;
    }

    method ForgetExpired(now: nat)
      modifies this`entries
      ensures entries == Kept(old(entries), now)
    {
      while entries != [] && Expired(entries[0], now)
        invariant Kept(entries, now) == Kept(old(entries), now)
        decreases |entries|
      {
        entries := entries[1..];
      }
    }

    /** The reply a message already got: the one among the newest 64 unexpired
        replies of the log. */
    method ReplyTo(origin: Origin, messageId: u16, now: nat) returns (reply: Option<Coap.CoapMessage>)
      requires Valid() && since <= now
      modifies this
      ensures Valid() && since == now && log == old(log) && entries == Kept(old(entries), now)
      ensures reply == Found(entries, origin, messageId)
      ensures reply == Found(Newest(Unexpired(log, now)), origin, messageId)
      ensures AtMostOnce(Newest(Unexpired(log, now)))
    {
      hide StandsFor, Kept, Unexpired, Newest, AtMostOnce;
      LookupRefinesLog(entries, log, since, now, origin, messageId);
      ForgettingKeeps(entries, log, since, now);
      KeptOnce(entries, now);
      ForgetExpired(now);
      since := now;
      reply := Find(origin, messageId);
    }

    method Find(origin: Origin, messageId: u16) returns (reply: Option<Coap.CoapMessage>)
      ensures reply == Found(entries, origin, messageId)
    {
      assert entries[0..] == entries;
      for i := 0 to |entries|
        invariant Found(entries, origin, messageId) == Found(entries[i..], origin, messageId)
      {
        if Answers(entries[i], origin, messageId) {
          return Some(entries[i].reply);
        }
        assert entries[i..][1..] == entries[i + 1..];
      }
      reply := None;
    }

    /** Records a reply; a message the record holds no reply to stays in it at
        most once. */
    method Remember(origin: Origin, messageId: u16, reply: Coap.CoapMessage, now: nat)
      requires StandsFor(entries, log, since) && since <= now
      modifies this
      ensures entries == Remembered(old(entries), Answered(origin, messageId, reply, now))
      ensures log == old(log) + [Answered(origin, messageId, reply, now)] && since == now
      ensures StandsFor(entries, log, since)
      ensures old(Valid()) && Found(old(entries), origin, messageId).None? ==> Valid()
    {
      hide StandsFor, Kept, AtMostOnce, Found;
      ghost var a := Answered(origin, messageId, reply, now);
      RememberExtendsLog(entries, log, since, a);
      if AtMostOnce(entries) && Found(entries, origin, messageId).None? {
        RememberedOnce(entries, a);
      }
      ForgetExpired(now);
      if |entries| == MAX_REMEMBERED {
        entries := entries[1..];
      }
      entries := entries + [Answered(origin, messageId, reply, now)];
      log, since := log + [a], now;
    }

    /** A reopened session may reuse the border agent's message IDs. */
    method ForgetBorderAgent()
      requires Valid()
      modifies this
      ensures Valid() && entries == MeshOnly(old(entries)) && log == entries && since == old(since)
    {
      hide MeshOnly, StandsFor, AtMostOnce;
      var all, kept: seq<Answered> := entries, [];
      assert all[0..] == all && [] + MeshOnly(all) == MeshOnly(all);
      for i := 0 to |all|
        invariant MeshOnly(all) == kept + MeshOnly(all[i..])
        invariant entries == all && log == old(log) && since == old(since)
      {
        MeshOnlyStep(kept, all, i);
        if all[i].origin != BorderAgent {
          kept := kept + [all[i]];
        }
      }
      MeshOnlyNothing(kept, all[|all|..]);
      ReopenStartsOver(all, log, since);
      entries, log := kept, kept;
    }
  }

  lemma MeshOnlyStep(kept: seq<Answered>, entries: seq<Answered>, i: nat)
    requires i < |entries|
    ensures kept + MeshOnly(entries[i..])
            == (if entries[i].origin != BorderAgent then kept + [entries[i]] else kept) + MeshOnly(entries[i + 1..])
  {
    assert entries[i..][0] == entries[i] && entries[i..][1..] == entries[i + 1..];
    if entries[i].origin != BorderAgent {
      assert kept + ([entries[i]] + MeshOnly(entries[i + 1..])) == kept + [entries[i]] + MeshOnly(entries[i + 1..]);
    } else {
      assert [] + MeshOnly(entries[i + 1..]) == MeshOnly(entries[i + 1..]);
    }
  }

  lemma MeshOnlyNothing(kept: seq<Answered>, none: seq<Answered>)
    requires none == []
    ensures kept + MeshOnly(none) == kept
  {
  }

  // ---- The unbounded log ----

  ghost predicate InOrder(entries: seq<Answered>, i: int, j: int) {
    0 <= i < j < |entries| ==> entries[i].at <= entries[j].at
  }

  ghost predicate TimeOrdered(entries: seq<Answered>) {
    forall i, j :: InOrder(entries, i, j)
  }

  ghost predicate Apart(entries: seq<Answered>, i: int, j: int) {
    0 <= i < j < |entries| ==>
      entries[i].origin != entries[j].origin || entries[i].messageId != entries[j].messageId
  }

  /** Each message is answered at most once. */
  ghost predicate AtMostOnce(entries: seq<Answered>) {
    forall i, j :: Apart(entries, i, j)
  }

  /** Both properties pass to sublists. */
  lemma SuffixKeeps(entries: seq<Answered>, d: nat)
    requires d <= |entries|
    ensures TimeOrdered(entries) ==> TimeOrdered(entries[d..])
    ensures AtMostOnce(entries) ==> AtMostOnce(entries[d..])
  {
    if TimeOrdered(entries) {
      forall i, j ensures InOrder(entries[d..], i, j) {
        assert InOrder(entries, d + i, d + j);
      }
    }
    if AtMostOnce(entries) {
      forall i, j ensures Apart(entries[d..], i, j) {
        assert Apart(entries, d + i, d + j);
      }
    }
  }

  /** The entries of a log that have not expired. */
  ghost function Unexpired(log: seq<Answered>, now: nat): seq<Answered> {
    if log == [] then [] else
    (if Expired(log[0], now) then [] else [log[0]]) + Unexpired(log[1..], now)
  }

  ghost function Newest(entries: seq<Answered>): seq<Answered> {
    if |entries| <= MAX_REMEMBERED then entries else entries[|entries| - MAX_REMEMBERED..]
  }

  /** The record answers for the log: whenever it is consulted, it holds the
      newest 64 unexpired replies. */
  ghost predicate StandsFor(entries: seq<Answered>, log: seq<Answered>, since: nat) {
    && TimeOrdered(log) && |entries| <= MAX_REMEMBERED && |entries| <= |log|
    && entries == log[|log| - |entries|..]
    && (forall i :: 0 <= i < |log| ==> log[i].at <= since)
    && (|entries| < MAX_REMEMBERED && |entries| < |log| ==> Expired(log[|log| - |entries| - 1], since))
  }

  lemma SliceOfSlice<T>(s: seq<T>, i: nat, j: nat)
    requires i + j <= |s|
    ensures s[i..][j..] == s[i + j..]
  {
  }

  /** Where the expired entries end. */
  ghost predicate CutAt(entries: seq<Answered>, now: nat, k: nat) {
    && k <= |entries| && (forall i :: 0 <= i < k ==> Expired(entries[i], now))
    && (k < |entries| ==> !Expired(entries[k], now))
  }

  lemma {:induction false} Cut(entries: seq<Answered>, now: nat) returns (k: nat)
    ensures CutAt(entries, now, k)
    decreases |entries|
  {
    if entries != [] && Expired(entries[0], now) {
      k := Cut(entries[1..], now);
      k := k + 1;
      assert forall i :: 1 <= i < |entries| ==> entries[i] == entries[1..][i - 1];
    } else {
      k := 0;
    }
  }

  lemma {:induction false} KeptFromCut(entries: seq<Answered>, now: nat, k: nat)
    requires CutAt(entries, now, k)
    ensures Kept(entries, now) == entries[k..]
    decreases k
  {
    hide CutAt;
    CutBound(entries, now, k);
    if k > 0 {
      KeptFromCut(entries[1..], now, k - 1);
      SliceOfSlice(entries, 1, k - 1);
    } else {
      assert entries[0..] == entries;
    }
  }

  lemma CutBound(entries: seq<Answered>, now: nat, k: nat)
    requires CutAt(entries, now, k)
    ensures k <= |entries| && (k > 0 ==> Expired(entries[0], now) && CutAt(entries[1..], now, k - 1))
    ensures k == 0 && entries != [] ==> !Expired(entries[0], now)
  {
  }

  /** On a time-ordered list the unexpired entries are a suffix. */
  lemma {:induction false} UnexpiredFromCut(log: seq<Answered>, now: nat, k: nat)
    requires TimeOrdered(log) && CutAt(log, now, k)
    ensures Unexpired(log, now) == log[k..]
    decreases |log|
  {
    hide CutAt, TimeOrdered;
    CutShifts(log, now, k);
    if log != [] {
      var rest := log[1..];
      SuffixKeeps(log, 1);
      UnexpiredFromCut(rest, now, if k > 0 then k - 1 else 0);
      if k > 0 {
        SliceOfSlice(log, 1, k - 1);
        assert [] + Unexpired(rest, now) == log[k..];
      } else {
        assert rest[0..] == rest && [log[0]] + rest == log && log[0..] == log;
      }
    }
  }

  lemma CutShifts(log: seq<Answered>, now: nat, k: nat)
    requires TimeOrdered(log) && CutAt(log, now, k)
    ensures log == [] ==> k == 0
    ensures log != [] ==> && k <= |log| && CutAt(log[1..], now, if k > 0 then k - 1 else 0)
                          && (Expired(log[0], now) <==> k > 0)
  {
    assert InOrder(log, 0, 1);
  }

  /** The cut of a suffix of a list. */
  lemma CutOfSuffix(log: seq<Answered>, now: nat, k: nat, d: nat)
    requires TimeOrdered(log) && CutAt(log, now, k) && d <= |log|
    ensures CutAt(log[d..], now, if k <= d then 0 else k - d)
  {
    if k <= d && d < |log| {
      assert InOrder(log, k, d);
    }
  }

  /** What is left of the record when it is consulted. */
  lemma KeptInLog(entries: seq<Answered>, log: seq<Answered>, since: nat, now: nat, k: nat)
    requires StandsFor(entries, log, since) && since <= now && CutAt(log, now, k)
    ensures |entries| <= |log| && k <= |log|
    ensures var d := |log| - |entries|; Kept(entries, now) == log[if k <= d then d else k..]
  {
    hide CutAt, Kept, TimeOrdered;
    var d := |log| - |entries|;
    CutBound(log, now, k);
    CutOfSuffix(log, now, k, d);
    KeptFromCut(log[d..], now, if k <= d then 0 else k - d);
    SliceOfSlice(log, d, if k <= d then 0 else k - d);
  }

  /** Consulting the record is searching the newest 64 unexpired replies. */
  lemma LookupRefinesLog(entries: seq<Answered>, log: seq<Answered>, since: nat, now: nat, origin: Origin,
                         messageId: u16)
    requires StandsFor(entries, log, since) && since <= now
    ensures Kept(entries, now) == Newest(Unexpired(log, now))
    ensures Found(Kept(entries, now), origin, messageId) == Found(Newest(Unexpired(log, now)), origin, messageId)
  {
    hide Kept, Unexpired, Found, StandsFor, Newest;
    var k := Cut(log, now);
    UnexpiredInLog(entries, log, since, now, k);
    KeptInLog(entries, log, since, now, k);
    NewestFrom(log, k);
  }

  lemma UnexpiredInLog(entries: seq<Answered>, log: seq<Answered>, since: nat, now: nat, k: nat)
    requires StandsFor(entries, log, since) && since <= now && CutAt(log, now, k)
    ensures |entries| <= MAX_REMEMBERED && |entries| <= |log| && Unexpired(log, now) == log[k..]
    ensures |entries| < MAX_REMEMBERED ==> |log| - |entries| <= k
  {
    hide Unexpired;
    UnexpiredFromCut(log, now, k);
    var d := |log| - |entries|;
    assert InOrder(log, k, d - 1);
  }

  lemma NewestFrom(log: seq<Answered>, k: nat)
    requires k <= |log|
    ensures Newest(log[k..]) == if |log| - k <= MAX_REMEMBERED then log[k..] else log[|log| - MAX_REMEMBERED..]
  {
    if |log| - k > MAX_REMEMBERED {
      SliceOfSlice(log, k, |log| - MAX_REMEMBERED - k);
    }
  }

  /** Forgetting expired entries loses nothing. */
  lemma ForgettingKeeps(entries: seq<Answered>, log: seq<Answered>, since: nat, now: nat)
    requires StandsFor(entries, log, since) && since <= now
    ensures StandsFor(Kept(entries, now), log, now)
  {
    hide Kept;
    var k := Cut(log, now);
    KeptInLog(entries, log, since, now, k);
  }

  /** Remembering a reply extends the log by it. */
  lemma RememberExtendsLog(entries: seq<Answered>, log: seq<Answered>, since: nat, a: Answered)
    requires StandsFor(entries, log, since) && since <= a.at
    ensures StandsFor(Remembered(entries, a), log + [a], a.at)
  {
    hide Kept;
    ForgettingKeeps(entries, log, since, a.at);
    Extended(Kept(entries, a.at), log, a);
  }

  lemma Extended(kept: seq<Answered>, log: seq<Answered>, a: Answered)
    requires StandsFor(kept, log, a.at)
    ensures StandsFor((if |kept| == MAX_REMEMBERED then kept[1..] else kept) + [a], log + [a], a.at)
  {
    var d := |log| - |kept|;
    var all := log + [a];
    forall i, j ensures InOrder(all, i, j) {
      assert InOrder(log, i, j);
    }
    if |kept| == MAX_REMEMBERED {
      SliceOfSlice(log, d, 1);
      assert all[d + 1..] == log[d + 1..] + [a];
    } else {
      assert all[d..] == log[d..] + [a];
    }
  }

  lemma {:induction false} NotFound(entries: seq<Answered>, origin: Origin, messageId: u16)
    ensures Found(entries, origin, messageId).None? <==>
            forall i :: 0 <= i < |entries| ==> !Answers(entries[i], origin, messageId)
    decreases |entries|
  {
    if entries != [] {
      NotFound(entries[1..], origin, messageId);
      assert forall i :: 1 <= i < |entries| ==> entries[i] == entries[1..][i - 1];
    }
  }

  lemma {:induction false} UnexpiredJoined(a: seq<Answered>, b: seq<Answered>, now: nat)
    ensures Unexpired(a + b, now) == Unexpired(a, now) + Unexpired(b, now) && |Unexpired(b, now)| <= |b|
    decreases |a| + |b|
  {
    if a != [] {
      assert (a + b)[1..] == a[1..] + b;
      UnexpiredJoined(a[1..], b, now);
    } else {
      assert a + b == b;
      if b != [] {
        UnexpiredJoined([], b[1..], now);
        assert [] + b[1..] == b[1..];
      }
    }
  }

  /** An unexpired reply is among the newest 64 as long as fewer than 64 were
      given after it. */
  lemma StillNewest(log: seq<Answered>, k: nat, now: nat)
    requires k < |log| <= k + MAX_REMEMBERED && !Expired(log[k], now)
    ensures log[k] in Newest(Unexpired(log, now))
  {
    var a, b, c := log[..k], [log[k]], log[k + 1..];
    assert log == a + (b + c);
    UnexpiredJoined(a, b + c, now);
    UnexpiredJoined(b, c, now);
    assert b[1..] == [];
    assert Unexpired(b, now) == b;
    var all := Unexpired(log, now);
    assert all == Unexpired(a, now) + b + Unexpired(c, now);
    assert all[|Unexpired(a, now)|] == log[k];
    var d := if |all| <= MAX_REMEMBERED then 0 else |all| - MAX_REMEMBERED;
    assert Newest(all) == all[d..];
    assert Newest(all)[|Unexpired(a, now)| - d] == log[k];
  }

  /** Where every message is answered at most once, the reply found is its own. */
  lemma {:induction false} FoundIsOwn(entries: seq<Answered>, a: Answered)
    requires AtMostOnce(entries) && a in entries
    ensures Found(entries, a.origin, a.messageId) == Some(a.reply)
    decreases |entries|
  {
    hide AtMostOnce;
    SuffixKeeps(entries, 1);
    if Answers(entries[0], a.origin, a.messageId) {
      FirstIsOwn(entries, a);
    } else {
      assert entries == [entries[0]] + entries[1..];
      FoundIsOwn(entries[1..], a);
    }
  }

  lemma FirstIsOwn(entries: seq<Answered>, a: Answered)
    requires AtMostOnce(entries) && a in entries && Answers(entries[0], a.origin, a.messageId)
    ensures entries[0] == a
  {
    var i :| 0 <= i < |entries| && entries[i] == a;
    assert Apart(entries, 0, i);
  }

  /** A reply remembered for a message the record did not hold keeps every
      message at most once in it. */
  lemma RememberedOnce(entries: seq<Answered>, a: Answered)
    requires AtMostOnce(entries) && Found(entries, a.origin, a.messageId).None?
    ensures AtMostOnce(Remembered(entries, a))
  {
    hide Found, AtMostOnce;
    NotFound(entries, a.origin, a.messageId);
    var kept := Kept(entries, a.at);
    var d := |entries| - |kept|;
    var short := if |kept| == MAX_REMEMBERED then kept[1..] else kept;
    var e := |entries| - |short|;
    SliceOfSlice(entries, d, e - d);
    SuffixKeeps(entries, e);
    AppendedOnce(entries[e..], a);
  }

  lemma KeptOnce(entries: seq<Answered>, now: nat)
    requires AtMostOnce(entries)
    ensures AtMostOnce(Kept(entries, now))
  {
    hide AtMostOnce;
    SuffixKeeps(entries, |entries| - |Kept(entries, now)|);
  }

  lemma AppendedOnce(short: seq<Answered>, a: Answered)
    requires AtMostOnce(short) && forall i :: 0 <= i < |short| ==> !Answers(short[i], a.origin, a.messageId)
    ensures AtMostOnce(short + [a])
  {
    forall i, j ensures Apart(short + [a], i, j) {
      assert Apart(short, i, j);
    }
  }

  lemma {:induction false} MeshOnlyMembers(entries: seq<Answered>)
    ensures forall a :: a in MeshOnly(entries) <==> a in entries && a.origin != BorderAgent
    decreases |entries|
  {
    if entries != [] {
      MeshOnlyMembers(entries[1..]);
      assert entries == [entries[0]] + entries[1..];
    }
  }

  lemma {:induction false} MeshOnlyKeeps(entries: seq<Answered>)
    requires TimeOrdered(entries) && AtMostOnce(entries)
    ensures TimeOrdered(MeshOnly(entries)) && AtMostOnce(MeshOnly(entries))
    decreases |entries|
  {
    if entries != [] {
      var first, tail := entries[0], entries[1..];
      SuffixKeeps(entries, 1);
      MeshOnlyKeeps(tail);
      MeshOnlyMembers(tail);
      var rest := MeshOnly(tail);
      forall i | 0 <= i < |rest|
        ensures first.at <= rest[i].at && (first.origin != rest[i].origin || first.messageId != rest[i].messageId)
      {
        assert rest[i] in tail;
        var j :| 0 <= j < |tail| && tail[j] == rest[i];
        assert InOrder(entries, 0, j + 1) && Apart(entries, 0, j + 1);
      }
      Prefixed(first, rest);
    }
  }

  lemma Prefixed(first: Answered, rest: seq<Answered>)
    requires TimeOrdered(rest) && AtMostOnce(rest)
    requires forall i :: 0 <= i < |rest| ==>
               first.at <= rest[i].at && (first.origin != rest[i].origin || first.messageId != rest[i].messageId)
    ensures TimeOrdered([first] + rest) && AtMostOnce([first] + rest) && [] + rest == rest
  {
    var all := [first] + rest;
    forall i, j ensures InOrder(all, i, j) && Apart(all, i, j) {
      assert InOrder(rest, i - 1, j - 1) && Apart(rest, i - 1, j - 1);
    }
  }

  /** A reopened session starts a new log with what is left. */
  lemma ReopenStartsOver(entries: seq<Answered>, log: seq<Answered>, since: nat)
    requires StandsFor(entries, log, since) && AtMostOnce(entries)
    ensures StandsFor(MeshOnly(entries), MeshOnly(entries), since) && AtMostOnce(MeshOnly(entries))
    ensures forall a :: a in MeshOnly(entries) <==> a in entries && a.origin != BorderAgent
  {
    hide MeshOnly;
    SuffixKeeps(log, |log| - |entries|);
    MeshOnlyKeeps(entries);
    MeshOnlyMembers(entries);
    var left := MeshOnly(entries);
    forall i | 0 <= i < |left| ensures left[i].at <= since {
      assert left[i] in entries;
    }
    assert left[0..] == left;
  }
}
