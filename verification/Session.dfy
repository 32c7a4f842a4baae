/** One DTLS association's epoch-1 state: the outgoing sequence counter that
    runs through Finished retransmissions into application data, the replay
    window, and the queue of records received but not yet opened. */
module Session {
  import opened Wire
  import opened Records
  import opened Protection
  import opened Replay

  datatype Role = Client | Server

  datatype Session = Session(
    cipher: Cipher, keys: Keys, role: Role, nextSequence: u64, window: Window, unread: seq<Record>)
  {
    function WriteKey(): bytes {
      if role == Client then keys.clientKey else keys.serverKey
    }

    function WriteIv(): FixedIv {
      if role == Client then keys.clientIv else keys.serverIv
    }

    function ReadKey(): bytes {
      if role == Client then keys.serverKey else keys.clientKey
    }

    function ReadIv(): FixedIv {
      if role == Client then keys.serverIv else keys.clientIv
    }
  }

  /** `during_handshake`: nothing sent or received yet in epoch 1. */
  function DuringHandshake(cipher: Cipher, keys: Keys, role: Role): Session {
    Session(cipher, keys, role, 0, Fresh, [])
  }

  function Protected(s: Session, contentType: ContentType, plaintext: bytes): Result<Record> {
    Protect(s.cipher, contentType, 1, s.nextSequence, s.WriteKey(), s.WriteIv(), plaintext)
  }

  /** `protect_record`: the counter moves only when a record was produced. */
  function AfterProtect(s: Session, contentType: ContentType, plaintext: bytes): Session {
    if Protected(s, contentType, plaintext).Ok?
    then s.(nextSequence := WrappingIncrement(s.nextSequence))
    else s
  }

  /** `open_protected_record`: `Ok(None)` for a replay, `Err` for a record that
      fails authentication; only an authenticated record moves the window. */
  function Opened(s: Session, record: Record): Result<Option<bytes>> {
    if HasSeen(s.window, record.header.sequence) then Ok(None) else
    var plaintext :- Open(s.cipher, record, s.ReadKey(), s.ReadIv());
    Ok(Some(plaintext))
  }

  function AfterOpen(s: Session, record: Record): Session {
    match Opened(s, record)
    case Ok(Some(_)) => s.(window := MarkSeen(s.window, record.header.sequence))
    case _ => s
  }

  /** What reading one record hands to the caller. */
  datatype Delivery = Data(plaintext: bytes) | PeerClosed | OtherAlert

  predicate Usable(record: Record) {
    record.header.epoch == 1 && record.header.contentType in {ApplicationData, Alert}
  }

  function DeliveryOf(record: Record, plaintext: bytes): Delivery {
    if record.header.contentType == ApplicationData then Data(plaintext)
    else if |plaintext| >= 2 && plaintext[1] == 0 then PeerClosed
    else OtherAlert
  }

  /** `open_next_record`: skips what is unusable, replayed or forged, and stops
      after the first record it can deliver. */
  function OpenNext(s: Session): (Session, Option<Delivery>)
    decreases |s.unread|
  {
    if s.unread == [] then (s, None) else
    var record, rest := s.unread[0], s.(unread := s.unread[1..]);
    if !Usable(record) then OpenNext(rest) else
    match Opened(rest, record)
    case Ok(Some(plaintext)) => (AfterOpen(rest, record), Some(DeliveryOf(record, plaintext)))
    case _ => OpenNext(rest)
  }

  /** The sequence number of the record that a read delivers. */
  function NextOpened(s: Session): Option<u64>
    decreases |s.unread|
  {
    if s.unread == [] then None else
    var record, rest := s.unread[0], s.(unread := s.unread[1..]);
    if Usable(record) && Opened(rest, record).Ok? && Opened(rest, record).value.Some?
    then Some(record.header.sequence)
    else NextOpened(rest)
  }

  class SessionState {
    const cipher: Cipher
    const keys: Keys
    const role: Role
    var nextSequence: u64
    var window: Window
    var unread: seq<Record>

    ghost function Value(): Session
      reads this
    {
      Session(cipher, keys, role, nextSequence, window, unread)
    }

    constructor (cipher: Cipher, keys: Keys, role: Role)
      ensures Value() == DuringHandshake(cipher, keys, role)
    {
      this.cipher, this.keys, this.role := cipher, keys, role;
      nextSequence, window, unread := 0, Fresh, [];
    }

    method ProtectRecord(contentType: ContentType, plaintext: bytes) returns (r: Result<Record>)
      modifies this
      ensures r == Protected(old(Value()), contentType, plaintext)
      ensures Value() == AfterProtect(old(Value()), contentType, plaintext)
    {
      var key, iv := keys.clientKey, keys.clientIv;
      if role == Server {
        key, iv := keys.serverKey, keys.serverIv;
      }
      r := Protect(cipher, contentType, 1, nextSequence, key, iv, plaintext);
      if r.Ok? {
        nextSequence := WrappingIncrement(nextSequence);
      }
    }

    method OpenProtectedRecord(record: Record) returns (r: Result<Option<bytes>>)
      modifies this
      ensures r == Opened(old(Value()), record)
      ensures Value() == AfterOpen(old(Value()), record)
    {
      if HasSeen(window, record.header.sequence) {
        return Ok(None);
      }
      var key, iv := keys.serverKey, keys.serverIv;
      if role == Server {
        key, iv := keys.clientKey, keys.clientIv;
      }
      var plaintext := Open(cipher, record, key, iv);
      if plaintext.Err? {
        return Err;
      }
      window := MarkSeen(window, record.header.sequence);
      r := Ok(Some(plaintext.value));
    }

    method ReceiveDatagram(records: seq<Record>)
      modifies this
      ensures Value() == old(Value()).(unread := old(unread) + records)
    {
      unread := unread + records;
    }

    method OpenNextRecord() returns (r: Option<Delivery>)
      modifies this
      ensures (Value(), r) == OpenNext(old(Value()))
    {
      while unread != []
        invariant OpenNext(old(Value())) == OpenNext(Value())
        decreases |unread|
      {
        var record := unread[0];
        unread := unread[1..];
        if Usable(record) {
          var result := OpenProtectedRecord(record);
          if result.Ok? && result.value.Some? {
            return Some(DeliveryOf(record, result.value.value));
          }
        }
      }
      r := None;
    }
  }

  // ---- Runs ----

  datatype Op =
    | DoProtect(contentType: ContentType, plaintext: bytes)
    | DoOpen(record: Record)
    | DoReceive(records: seq<Record>)
    | DoRead

  /** A session with everything it has emitted, the numbers of the records it
      has opened and everything it has delivered so far. */
  datatype History = History(state: Session, emitted: seq<Record>, numbers: seq<u64>, delivered: seq<Delivery>)

  function Listed<T>(item: Option<T>): seq<T> {
    if item.Some? then [item.value] else []
  }

  function OpenedNumber(s: Session, record: Record): Option<u64> {
    match Opened(s, record)
    case Ok(Some(_)) => Some(record.header.sequence)
    case _ => None
  }

  function Step(h: History, op: Op): History {
    match op
    case DoProtect(contentType, plaintext) =>
      var r := Protected(h.state, contentType, plaintext);
      History(AfterProtect(h.state, contentType, plaintext),
              h.emitted + (if r.Ok? then [r.value] else []), h.numbers, h.delivered)
    case DoOpen(record) =>
      h.(state := AfterOpen(h.state, record), numbers := h.numbers + Listed(OpenedNumber(h.state, record)))
    case DoReceive(records) => h.(state := h.state.(unread := h.state.unread + records))
    case DoRead =>
      var (state, delivery) := OpenNext(h.state);
      History(state, h.emitted, h.numbers + Listed(NextOpened(h.state)), h.delivered + Listed(delivery))
  }

  function Run(s: Session, ops: seq<Op>): History {
    if ops == [] then History(s, [], [], [])
    else Step(Run(s, ops[..|ops| - 1]), ops[|ops| - 1])
  }

  lemma {:induction false} OpenNextFrame(s: Session)
    ensures var after := OpenNext(s).0;
            after.nextSequence == s.nextSequence && after.keys == s.keys && after.role == s.role
            && after.cipher == s.cipher
    decreases |s.unread|
  {
    if s.unread != [] {
      OpenNextFrame(s.(unread := s.unread[1..]));
    }
  }

  /** The nonce a record emitted by `s` was sealed under. */
  ghost function NonceOf(s: Session, record: Record): Result<bytes> {
    Nonce(s.WriteIv(), record.header.epoch, record.header.sequence)
  }

  ghost predicate Consecutive(s: Session, h: History) {
    && h.state.keys == s.keys && h.state.role == s.role && h.state.cipher == s.cipher
    && h.state.nextSequence == s.nextSequence + |h.emitted| <= SEQUENCE_LIMIT
    && forall i :: 0 <= i < |h.emitted| ==>
         h.emitted[i].header.epoch == 1 && h.emitted[i].header.sequence == s.nextSequence + i < SEQUENCE_LIMIT
  }

  lemma StepConsecutive(s: Session, h: History, op: Op)
    requires Consecutive(s, h)
    ensures Consecutive(s, Step(h, op))
  {
    match op
    case DoProtect(_, _) =>
    case DoOpen(_) =>
    case DoReceive(_) =>
    case DoRead =>
      OpenNextFrame(h.state);
  }

  /** Every record a session emits, across resent Finished messages and
      application data, carries the next consecutive sequence number, and the
      counter never passes the 48-bit limit. */
  lemma {:induction false} ConsecutiveSequences(s: Session, ops: seq<Op>)
    requires s.nextSequence <= SEQUENCE_LIMIT
    ensures Consecutive(s, Run(s, ops))
  {
    if ops != [] {
      ConsecutiveSequences(s, ops[..|ops| - 1]);
      StepConsecutive(s, Run(s, ops[..|ops| - 1]), ops[|ops| - 1]);
    }
  }

  /** No two records emitted in one run share a nonce under the write key. */
  lemma NoncesNeverRepeat(s: Session, ops: seq<Op>, i: nat, j: nat)
    requires s.nextSequence <= SEQUENCE_LIMIT
    requires i < j < |Run(s, ops).emitted|
    ensures var h := Run(s, ops);
            && NonceOf(h.state, h.emitted[i]).Ok? && NonceOf(h.state, h.emitted[j]).Ok?
            && NonceOf(h.state, h.emitted[i]) != NonceOf(h.state, h.emitted[j])
  {
    ConsecutiveSequences(s, ops);
    var h := Run(s, ops);
    if NonceOf(h.state, h.emitted[i]) == NonceOf(h.state, h.emitted[j]) {
      NonceInjective(h.state.WriteIv(), 1, h.emitted[i].header.sequence, h.emitted[j].header.sequence);
    }
  }

  /** At the limit the session emits nothing ever again instead of wrapping. */
  lemma {:induction false} ExhaustedForever(s: Session, ops: seq<Op>)
    requires s.nextSequence == SEQUENCE_LIMIT
    ensures Run(s, ops).emitted == [] && Run(s, ops).state.nextSequence == SEQUENCE_LIMIT
  {
    ConsecutiveSequences(s, ops);
  }

  // ---- No number is opened twice ----

  ghost predicate AllDistinct(numbers: seq<u64>) {
    forall i, j :: 0 <= i < j < |numbers| ==> numbers[i] != numbers[j]
  }

  /** The numbers opened so far, with those marked before, are what the window
      stands for. */
  ghost predicate Remembers(marked: set<u64>, h: History) {
    && AllDistinct(h.numbers) && Marked(h.numbers) !! marked
    && Represents(h.state.window, marked + Marked(h.numbers))
  }

  lemma {:induction false} OpenNextMarks(s: Session)
    ensures var n := NextOpened(s);
            && (n.Some? <==> OpenNext(s).1.Some?)
            && (n.Some? ==> !HasSeen(s.window, n.value))
            && OpenNext(s).0.window == if n.Some? then MarkSeen(s.window, n.value) else s.window
    decreases |s.unread|
  {
    if s.unread != [] {
      OpenNextMarks(s.(unread := s.unread[1..]));
    }
  }

  lemma OneMoreOpened(marked: set<u64>, h: History, number: u64, g: History)
    requires Remembers(marked, h) && !HasSeen(h.state.window, number)
    requires g.numbers == h.numbers + [number] && g.state.window == MarkSeen(h.state.window, number)
    ensures Remembers(marked, g)
  {
    hide Represents, HasSeen, MarkSeen;
    RepresentedAnswer(h.state.window, marked + Marked(h.numbers), number);
    MarkRepresents(h.state.window, marked + Marked(h.numbers), number);
    assert Marked(g.numbers) == Marked(h.numbers) + {number};
    assert marked + Marked(g.numbers) == marked + Marked(h.numbers) + {number};
  }

  lemma StepRemembers(marked: set<u64>, h: History, op: Op)
    requires Remembers(marked, h)
    ensures Remembers(marked, Step(h, op))
  {
    hide Remembers, OpenNext, NextOpened;
    var g := Step(h, op);
    if op.DoOpen? && OpenedNumber(h.state, op.record).Some? {
      OneMoreOpened(marked, h, op.record.header.sequence, g);
    } else if op.DoRead? && NextOpened(h.state).Some? {
      OpenNextMarks(h.state);
      OneMoreOpened(marked, h, NextOpened(h.state).value, g);
    } else {
      OpenNextMarks(h.state);
      assert h.numbers + [] == h.numbers;
      SameMemory(marked, h, g);
    }
  }

  lemma SameMemory(marked: set<u64>, h: History, g: History)
    requires Remembers(marked, h) && g.numbers == h.numbers && g.state.window == h.state.window
    ensures Remembers(marked, g)
  {
  }

  /** Over every run, the handshake's direct opens included, no sequence number
      is opened twice and none that was marked at the start is opened, and the
      window stands for exactly the numbers marked at the start and those opened
      since: forged and replayed records leave no trace in it. */
  lemma {:induction false} OpenedOnce(s: Session, marked: set<u64>, ops: seq<Op>)
    requires Represents(s.window, marked)
    ensures var h := Run(s, ops);
            && AllDistinct(h.numbers) && Marked(h.numbers) !! marked
            && Represents(h.state.window, marked + Marked(h.numbers))
    decreases |ops|
  {
    hide Represents;
    if ops == [] {
      assert marked + Marked([]) == marked;
    } else {
      OpenedOnce(s, marked, ops[..|ops| - 1]);
      StepRemembers(marked, Run(s, ops[..|ops| - 1]), ops[|ops| - 1]);
    }
  }

  // ---- Reading follows the record stream ----

  /** Reads and receives of an established session; the handshake's direct
      opens are over by then. */
  ghost predicate Established(ops: seq<Op>) {
    forall i :: 0 <= i < |ops| ==> !ops[i].DoOpen?
  }

  /** All records received, whatever datagrams they came in. */
  function Stream(ops: seq<Op>): seq<Record> {
    if ops == [] then []
    else
      var last := ops[|ops| - 1];
      Stream(ops[..|ops| - 1]) + (if last.DoReceive? then last.records else [])
  }

  /** Whether a record that follows the marked numbers is delivered. */
  ghost function Admitted(s: Session, marked: set<u64>, record: Record): Option<bytes> {
    if !Usable(record) || SeenIn(marked, record.header.sequence) then None else
    match Open(s.cipher, record, s.ReadKey(), s.ReadIv())
    case Ok(plaintext) => Some(plaintext)
    case Err => None
  }

  /** The numbers marked after a stream, starting from `marked`. */
  ghost function MarkedBy(s: Session, marked: set<u64>, stream: seq<Record>): set<u64> {
    if stream == [] then marked
    else
      var before, last := MarkedBy(s, marked, stream[..|stream| - 1]), stream[|stream| - 1];
      if Admitted(s, before, last).Some? then before + {last.header.sequence} else before
  }

  /** The one filter-map: what a stream of records delivers, with an unbounded
      memory of what was delivered before. */
  ghost function Delivered(s: Session, marked: set<u64>, stream: seq<Record>): seq<(u64, Delivery)> {
    if stream == [] then []
    else
      var front, last := stream[..|stream| - 1], stream[|stream| - 1];
      match Admitted(s, MarkedBy(s, marked, front), last)
      case Some(plaintext) => Delivered(s, marked, front) + [(last.header.sequence, DeliveryOf(last, plaintext))]
      case None => Delivered(s, marked, front)
  }

  ghost function Deliveries(items: seq<(u64, Delivery)>): (r: seq<Delivery>)
    ensures |r| == |items|
    ensures forall i :: 0 <= i < |items| ==> r[i] == items[i].1
  {
    seq(|items|, i requires 0 <= i < |items| => items[i].1)
  }

  ghost function NumbersOf(items: seq<(u64, Delivery)>): (r: seq<u64>)
    ensures |r| == |items|
    ensures forall i :: 0 <= i < |items| ==> r[i] == items[i].0
  {
    seq(|items|, i requires 0 <= i < |items| => items[i].0)
  }

  /** The session has consumed exactly the first `n` records of the stream. */
  ghost predicate At(s: Session, marked: set<u64>, stream: seq<Record>, n: nat, h: History) {
    && n <= |stream|
    && h.state.keys == s.keys && h.state.role == s.role && h.state.cipher == s.cipher
    && h.state.unread == stream[n..]
    && Represents(h.state.window, MarkedBy(s, marked, stream[..n]))
    && h.delivered == Deliveries(Delivered(s, marked, stream[..n]))
    && h.numbers == NumbersOf(Delivered(s, marked, stream[..n]))
  }

  lemma ConsumeOne(s: Session, marked: set<u64>, stream: seq<Record>, n: nat, h: History)
    requires At(s, marked, stream, n, h) && n < |stream|
    ensures var record, rest := stream[n], h.state.(unread := h.state.unread[1..]);
            var before := MarkedBy(s, marked, stream[..n]);
            var plaintext := Admitted(s, before, record);
            && (plaintext.Some? <==> Usable(record) && Opened(rest, record).Ok? && Opened(rest, record).value.Some?)
            && (plaintext.Some? ==> Opened(rest, record) == Ok(plaintext))
            && At(s, marked, stream, n + 1,
                  if plaintext.Some?
                  then History(AfterOpen(rest, record), h.emitted, h.numbers + [record.header.sequence],
                               h.delivered + [DeliveryOf(record, plaintext.value)])
                  else h.(state := rest))
  {
    var record, rest := stream[n], h.state.(unread := h.state.unread[1..]);
    var before := MarkedBy(s, marked, stream[..n]);
    assert stream[..n + 1][..n] == stream[..n] && stream[..n + 1][n] == record;
    assert stream[n..][1..] == stream[n + 1..];
    RepresentedAnswer(h.state.window, before, record.header.sequence);
    MarkRepresents(h.state.window, before, record.header.sequence);
    var plaintext := Admitted(s, before, record);
    if plaintext.Some? {
      var old_ := Delivered(s, marked, stream[..n]);
      var item := (record.header.sequence, DeliveryOf(record, plaintext.value));
      assert Delivered(s, marked, stream[..n + 1]) == old_ + [item];
      assert Deliveries(old_ + [item]) == Deliveries(old_) + [item.1];
      assert NumbersOf(old_ + [item]) == NumbersOf(old_) + [item.0];
    }
  }

  lemma {:induction false} ReadAdvances(s: Session, marked: set<u64>, stream: seq<Record>, n: nat, h: History)
      returns (n': nat)
    requires At(s, marked, stream, n, h)
    ensures n <= n' && At(s, marked, stream, n', Step(h, DoRead))
    ensures OpenNext(h.state).1.None? ==> n' == |stream|
    decreases |stream| - n
  {
    if n == |stream| {
      n' := n;
      assert h.delivered + [] == h.delivered && h.numbers + [] == h.numbers;
    } else {
      ConsumeOne(s, marked, stream, n, h);
      var record, rest := stream[n], h.state.(unread := h.state.unread[1..]);
      if Admitted(s, MarkedBy(s, marked, stream[..n]), record).Some? {
        n' := n + 1;
      } else {
        assert OpenNext(h.state) == OpenNext(rest) && NextOpened(h.state) == NextOpened(rest);
        n' := ReadAdvances(s, marked, stream, n + 1, h.(state := rest));
      }
    }
  }

  lemma Extend(s: Session, marked: set<u64>, stream: seq<Record>, n: nat, h: History, records: seq<Record>)
    requires At(s, marked, stream, n, h)
    ensures At(s, marked, stream + records, n, Step(h, DoReceive(records)))
  {
    assert (stream + records)[..n] == stream[..n];
    assert (stream + records)[n..] == stream[n..] + records;
  }

  lemma {:induction false} RunAt(s: Session, marked: set<u64>, ops: seq<Op>) returns (n: nat)
    requires Represents(s.window, marked) && s.unread == [] && Established(ops)
    ensures At(s, marked, Stream(ops), n, Run(s, ops))
  {
    if ops == [] {
      n := 0;
      assert Run(s, ops).delivered == Deliveries([]) && Run(s, ops).numbers == NumbersOf([]);
    } else {
      var front, last := ops[..|ops| - 1], ops[|ops| - 1];
      var stream, h := Stream(front), Run(s, front);
      n := RunAt(s, marked, front);
      match last {
        case DoProtect(_, _) =>
          assert Stream(ops) == stream;
        case DoReceive(records) =>
          Extend(s, marked, stream, n, h, records);
        case DoRead =>
          assert Stream(ops) == stream;
          n := ReadAdvances(s, marked, stream, n, h);
      }
    }
  }

  lemma {:induction false} DeliveredGrows(s: Session, marked: set<u64>, stream: seq<Record>, n: nat)
    requires n <= |stream|
    ensures Delivered(s, marked, stream[..n]) <= Delivered(s, marked, stream)
  {
    if n == |stream| {
      assert stream[..n] == stream;
    } else {
      var front := stream[..|stream| - 1];
      DeliveredGrows(s, marked, front, n);
      assert front[..n] == stream[..n];
    }
  }

  /** However the records were split into datagrams and however receives, reads
      and sends interleave, what has been read is a prefix of the filter-map of
      the whole record stream. */
  lemma ReadsFollowTheStream(s: Session, marked: set<u64>, ops: seq<Op>)
    requires Represents(s.window, marked) && s.unread == [] && Established(ops)
    ensures var h, items := Run(s, ops), Delivered(s, marked, Stream(ops));
            |h.numbers| == |h.delivered| && h.numbers <= NumbersOf(items) && h.delivered <= Deliveries(items)
  {
    var n := RunAt(s, marked, ops);
    DeliveredGrows(s, marked, Stream(ops), n);
  }

  /** A read that finds nothing has drained the stream: everything the
      filter-map delivers has been delivered. */
  lemma EmptyReadHasDrained(s: Session, marked: set<u64>, ops: seq<Op>)
    requires Represents(s.window, marked) && s.unread == [] && Established(ops)
    requires OpenNext(Run(s, ops).state).1.None?
    ensures var h, items := Run(s, ops), Delivered(s, marked, Stream(ops));
            h.numbers == NumbersOf(items) && h.delivered == Deliveries(items)
  {
    var n := RunAt(s, marked, ops);
    var h := Run(s, ops);
    var n' := ReadAdvances(s, marked, Stream(ops), n, h);
    OpenNextMarks(h.state);
    assert Step(h, DoRead).delivered == h.delivered + [] && Step(h, DoRead).numbers == h.numbers + [];
    assert Stream(ops)[..n'] == Stream(ops);
  }

  ghost function Numbers(items: seq<(u64, Delivery)>): set<u64> {
    set i | 0 <= i < |items| :: items[i].0
  }

  ghost predicate NumbersDistinct(items: seq<(u64, Delivery)>) {
    forall i, j :: 0 <= i < j < |items| ==> items[i].0 != items[j].0
  }

  /** No sequence number is ever delivered twice, none that was already marked
      is delivered, and nothing but a delivery marks a number: a forged record
      leaves the memory as it was. */
  lemma {:induction false} DeliveredOnce(s: Session, marked: set<u64>, stream: seq<Record>)
    ensures var items := Delivered(s, marked, stream);
            && NumbersDistinct(items) && Numbers(items) !! marked
            && MarkedBy(s, marked, stream) == marked + Numbers(items)
  {
    if stream != [] {
      var front, last := stream[..|stream| - 1], stream[|stream| - 1];
      DeliveredOnce(s, marked, front);
      var before, items := Delivered(s, marked, front), Delivered(s, marked, stream);
      if Admitted(s, MarkedBy(s, marked, front), last).Some? {
        var item := items[|items| - 1];
        assert items == before + [item];
        assert last.header.sequence !in marked + Numbers(before);
        assert Numbers(items) == Numbers(before) + {item.0} by {
          forall x | x in Numbers(before) + {item.0}
            ensures x in Numbers(items)
          {
            if x == item.0 {
              assert items[|items| - 1].0 == x;
            } else {
              var i :| 0 <= i < |before| && before[i].0 == x;
              assert items[i].0 == x;
            }
          }
        }
      }
    }
  }
}
