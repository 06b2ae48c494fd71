/** Idempotent producers: the append handler against any stream of requests, and the client session behind them. */
module Producer {
  import opened Bytes

  type Message = seq<byte>

  datatype Producer = Producer(id: string, epoch: nat, seqNo: nat)

  datatype ProducerState = ProducerState(epoch: nat, lastSeq: nat)

  /** The part of a registry entry that appends read and write. */
  datatype Entry = Entry(closed: bool, lastSeq: Option<string>, producers: map<string, ProducerState>,
                         closedBy: Option<Producer>)

  datatype Decision =
    | Accepted
    | Duplicate(lastSeq: nat)
    | StaleEpoch(current: nat)
    | InvalidEpochSeq
    | SequenceGap(expected: nat, received: nat)

  /** An unknown producer or a newer epoch starts at 0; within an epoch only the next number is accepted. */
  function Validate(entry: Entry, p: Producer): Decision {
    if p.id !in entry.producers then (if p.seqNo == 0 then Accepted else InvalidEpochSeq)
    else
      var st := entry.producers[p.id];
      if p.epoch < st.epoch then StaleEpoch(st.epoch)
      else if p.epoch > st.epoch then (if p.seqNo == 0 then Accepted else InvalidEpochSeq)
      else if p.seqNo <= st.lastSeq then Duplicate(st.lastSeq)
      else if p.seqNo == st.lastSeq + 1 then Accepted
      else SequenceGap(st.lastSeq + 1, p.seqNo)
  }

  /** `messages` is what the payloads expand to, or `None` when they are not valid for the content type. */
  datatype Request = Request(
    producer: Option<Producer>, matchSeq: Option<nat>, streamSeq: Option<string>, closeAfter: bool,
    payloads: seq<Message>, messages: Option<seq<Message>>, hasContentType: bool, mimeMatches: bool)

  /** One accepted request: who sent it, its stream sequence token and the messages it added. */
  datatype Applied = Applied(producer: Option<Producer>, token: Option<string>, messages: seq<Message>)

  datatype Topic = Topic(entry: Entry, log: seq<Applied>, next: nat)

  datatype Rejection =
    | Fenced(current: nat) | BadRequest | Gap(expected: nat, received: nat) | Closed | MatchFailed
    | Conflict | NotDurable

  datatype Reply =
    | Done(next: nat, applied: bool, closed: bool, epoch: Option<nat>, seqNo: Option<nat>)
    | Rejected(why: Rejection)

  function EpochOf(r: Request): Option<nat> {
    if r.producer.Some? then Some(r.producer.value.epoch) else None
  }

  function SeqOf(r: Request): Option<nat> {
    if r.producer.Some? then Some(r.producer.value.seqNo) else None
  }

  function Rejects(t: Topic, r: Request, d: Decision): Reply {
    match d
    case Duplicate(last) => Done(t.next, false, t.entry.closed, EpochOf(r), Some(last))
    case StaleEpoch(current) => Rejected(Fenced(current))
    case SequenceGap(expected, received) => Rejected(Gap(expected, received))
    case _ => Rejected(BadRequest)
  }

  predicate Empty(payloads: seq<Message>) {
    forall p | p in payloads :: p == []
  }

  predicate MatchesClosedBy(entry: Entry, r: Request) {
    entry.closedBy.Some? && entry.closedBy == r.producer
  }

  /** Appending to a closed stream only repeats the answer the closing request got. */
  function ToClosed(t: Topic, r: Request): Reply {
    var closer := t.entry.closedBy;
    if r.closeAfter && Empty(r.payloads) then
      if r.producer.Some? && !MatchesClosedBy(t.entry, r) && closer.Some? then Rejected(Closed)
      else Done(t.next, false, true, EpochOf(r),
                if r.producer.None? then None else if closer.Some? then Some(closer.value.seqNo) else SeqOf(r))
    else if r.producer.Some? && MatchesClosedBy(t.entry, r) then
      Done(t.next, false, true, EpochOf(r), if closer.Some? then Some(closer.value.seqNo) else None)
    else Rejected(Closed)
  }

  /** Byte-wise lexicographic order of stream sequence tokens. */
  predicate Before(a: string, b: string) {
    b != [] && (a == [] || a[0] < b[0] || (a[0] == b[0] && Before(a[1..], b[1..])))
  }

  function CloseOnly(r: Request): bool {
    Empty(r.payloads) && r.closeAfter
  }

  function InvalidPayload(entry: Entry, r: Request): Option<Rejection> {
    if !CloseOnly(r) && !r.hasContentType then Some(BadRequest)
    else if !CloseOnly(r) && !r.mimeMatches then Some(Conflict)
    else if !CloseOnly(r) && Empty(r.payloads) then Some(BadRequest)
    else if r.streamSeq.Some? && entry.lastSeq.Some? && !Before(entry.lastSeq.value, r.streamSeq.value) then
      Some(Conflict)
    else if !CloseOnly(r) && r.messages.None? then Some(BadRequest)
    else None
  }

  function Messages(r: Request): seq<Message> {
    if CloseOnly(r) || r.messages.None? then [] else r.messages.value
  }

  /** The entry after an accepted request. */
  function Recorded(entry: Entry, r: Request): Entry {
    var seen := if r.streamSeq.Some? then entry.(lastSeq := r.streamSeq) else entry;
    var told := if r.producer.None? then seen
                else seen.(producers := seen.producers[r.producer.value.id
                             := ProducerState(r.producer.value.epoch, r.producer.value.seqNo)]);
    if !r.closeAfter then told
    else told.(closed := true, closedBy := if r.producer.Some? then r.producer else told.closedBy)
  }

  /** Why a request is refused before anything changes, if it is. */
  function Refusal(t: Topic, r: Request): Option<Reply> {
    if r.producer.Some? && !Validate(t.entry, r.producer.value).Accepted? then
      Some(Rejects(t, r, Validate(t.entry, r.producer.value)))
    else if t.entry.closed then Some(ToClosed(t, r))
    else if r.matchSeq.Some? && r.matchSeq.value != t.next then Some(Rejected(MatchFailed))
    else
      var bad := InvalidPayload(t.entry, r);
      if bad.Some? then Some(Rejected(bad.value)) else None
  }

  /** One append request, under the stream's gate. */
  function Handle(t: Topic, r: Request): (Topic, Reply) {
    var refusal := Refusal(t, r);
    if refusal.Some? then (t, refusal.value)
    else
      var next := t.next + |Messages(r)|;
      (Topic(Recorded(t.entry, r), t.log + [Applied(r.producer, r.streamSeq, Messages(r))], next),
       Done(next, !CloseOnly(r), r.closeAfter, EpochOf(r), SeqOf(r)))
  }

  /** What goes wrong between handing an accepted request's messages to the stream and answering it.
      `kept` of them survive; `tail` is the next offset the stream reports afterwards. */
  datatype Fault =
    | Fine
    | Unacknowledged(tail: nat)
    | Unrecorded(kept: nat, tail: nat)
    | Lost(kept: nat, tail: nat)

  /** A closing request is recorded only after its messages are durable, so it cannot lose them afterwards. */
  predicate CanHappen(r: Request, f: Fault) {
    match f
    case Unrecorded(kept, _) => kept <= |Messages(r)|
    case Lost(kept, _) => kept < |Messages(r)| && !r.closeAfter
    case _ => true
  }

  function Survivors(r: Request, f: Fault): seq<Message>
    requires CanHappen(r, f)
  {
    if f.Unrecorded? || f.Lost? then Messages(r)[..f.kept] else Messages(r)
  }

  function Logged(log: seq<Applied>, r: Request, f: Fault): seq<Applied>
    requires CanHappen(r, f)
  {
    if (f.Unrecorded? || f.Lost?) && f.kept == 0 then log else log + [Applied(r.producer, r.streamSeq, Survivors(r, f))]
  }

  /** The request with a fault: what survives and what is recorded need not agree, and the answer is an error. */
  function HandleUnder(t: Topic, r: Request, f: Fault): (Topic, Reply)
    requires CanHappen(r, f)
  {
    if Refusal(t, r).Some? || f.Fine? then Handle(t, r)
    else
      (Topic(if f.Unrecorded? then t.entry else Recorded(t.entry, r), Logged(t.log, r, f), f.tail),
       Rejected(NotDurable))
  }

  /** The stream's registry entry and log, updated in place. */
  class Gate {
    var entry: Entry
    var log: seq<Applied>
    var next: nat

    constructor ()
      ensures Contents() == EMPTY_TOPIC
    {
      entry, log, next := Entry(false, None, map[], None), [], 0;
    }

    function Contents(): Topic
      reads this
    {
      Topic(entry, log, next)
    }

    /** Submits the messages, then records the request, then answers, unless a fault cuts in. */
    method Append(r: Request, f: Fault) returns (reply: Reply)
      requires CanHappen(r, f)
      modifies this
      ensures (Contents(), reply) == HandleUnder(old(Contents()), r, f)
    {
      if r.producer.Some? {
        var decision := Validate(entry, r.producer.value);
        if !decision.Accepted? { return Rejects(Contents(), r, decision); }
      }
      if entry.closed { return ToClosed(Contents(), r); }
      if r.matchSeq.Some? && r.matchSeq.value != next { return Rejected(MatchFailed); }
      var bad := InvalidPayload(entry, r);
      if bad.Some? { return Rejected(bad.value); }
      var messages := Messages(r);
      log := Logged(log, r, f);
      next := if f.Fine? then next + |messages| else f.tail;
      if f.Unrecorded? { return Rejected(NotDurable); }
      Record(r);
      if !f.Fine? { return Rejected(NotDurable); }
      return Done(next, !CloseOnly(r), r.closeAfter, EpochOf(r), SeqOf(r));
    }

    method Record(r: Request)
      modifies `entry
      ensures entry == Recorded(old(entry), r)
    {
      if r.streamSeq.Some? {
        entry := entry.(lastSeq := r.streamSeq);
      }
      if r.producer.Some? {
        var p := r.producer.value;
        entry := entry.(producers := entry.producers[p.id := ProducerState(p.epoch, p.seqNo)]);
      }
      if r.closeAfter {
        entry := entry.(closed := true);
        if r.producer.Some? {
          entry := entry.(closedBy := r.producer);
        }
      }
    }
  }

  const EMPTY_TOPIC := Topic(Entry(false, None, map[], None), [], 0)

  /** One served request and what went wrong with it. */
  datatype Call = Call(request: Request, fault: Fault)

  predicate AllCanHappen(calls: seq<Call>) {
    forall i | 0 <= i < |calls| :: CanHappen(calls[i].request, calls[i].fault)
  }

  /** Any requests, in any order, with any faults: duplicated, lost or reordered ones are just another list. */
  function Serve(calls: seq<Call>): Topic
    requires AllCanHappen(calls)
  {
    if calls == [] then EMPTY_TOPIC
    else
      var c := calls[|calls| - 1];
      HandleUnder(Serve(calls[..|calls| - 1]), c.request, c.fault).0
  }

  lemma {:induction false} ServedNext(calls: seq<Call>, i: nat)
    requires AllCanHappen(calls) && i < |calls|
    ensures Serve(calls[..i + 1]) == HandleUnder(Serve(calls[..i]), calls[i].request, calls[i].fault).0
  {
    assert calls[..i + 1][..i] == calls[..i];
  }

  /** What survives of the request is what is recorded of it: everything, or nothing. */
  predicate AllOrNothing(f: Fault) {
    f.Fine? || f.Unacknowledged? || (f.Unrecorded? && f.kept == 0)
  }

  // ---- numbering ----

  predicate By(a: Applied, id: string) {
    a.producer.Some? && a.producer.value.id == id
  }

  /** The (epoch, sequence) pairs recorded for one producer, in log order. */
  function Pairs(log: seq<Applied>, id: string): seq<(nat, nat)> {
    if log == [] then []
    else
      var init, last := Pairs(log[..|log| - 1], id), log[|log| - 1];
      if By(last, id) then init + [(last.producer.value.epoch, last.producer.value.seqNo)] else init
  }

  /** What may follow what: the next number of the same epoch, or 0 of a later one. */
  predicate Follows(a: (nat, nat), b: (nat, nat)) {
    (b.0 == a.0 && b.1 == a.1 + 1) || (b.0 > a.0 && b.1 == 0)
  }

  /** Each epoch's numbers run 0, 1, 2, ... and epochs only increase. */
  predicate Sequential(ps: seq<(nat, nat)>) {
    (ps != [] ==> ps[0].1 == 0) && forall i | 0 < i < |ps| :: Follows(ps[i - 1], ps[i])
  }

  lemma PairsAppend(log: seq<Applied>, a: Applied, id: string)
    ensures Pairs(log + [a], id)
            == if By(a, id) then Pairs(log, id) + [(a.producer.value.epoch, a.producer.value.seqNo)] else Pairs(log, id)
  {
    assert (log + [a])[..|log|] == log;
  }

  /** The registry remembers exactly the last logged pair of the producer. */
  ghost predicate NumberedFor(t: Topic, id: string) {
    NumberedIn(t.entry.producers, Pairs(t.log, id), id)
  }

  predicate NumberedIn(producers: map<string, ProducerState>, ps: seq<(nat, nat)>, id: string) {
    && Sequential(ps) && (id in producers <==> ps != [])
    && (ps != [] ==> producers[id] == ProducerState(ps[|ps| - 1].0, ps[|ps| - 1].1))
  }

  /** What handling a request does to entry and log, and what its acceptance tells about it. */
  lemma Handled(t: Topic, c: Call)
    requires CanHappen(c.request, c.fault)
    ensures
      var u, r := HandleUnder(t, c.request, c.fault).0, c.request;
      if Refusal(t, r).Some? then u == t
      else
        && u.entry == (if c.fault.Unrecorded? then t.entry else Recorded(t.entry, r))
        && u.log == Logged(t.log, r, c.fault)
        && (r.producer.Some? ==> Validate(t.entry, r.producer.value).Accepted?)
        && (r.streamSeq.Some? && t.entry.lastSeq.Some? ==> Before(t.entry.lastSeq.value, r.streamSeq.value))
  {
  }

  /** A request is logged, in part at least, exactly when it is recorded. */
  predicate LoggedAsRecorded(f: Fault) {
    (f.Unrecorded? ==> f.kept == 0) && (f.Lost? ==> f.kept > 0)
  }

  /** If the producer's request is accepted, it is logged exactly when it is recorded. */
  predicate NumberUnhurt(t: Topic, c: Call, id: string) {
    c.request.producer.Some? && c.request.producer.value.id == id && Refusal(t, c.request).None? ==>
      LoggedAsRecorded(c.fault)
  }

  /** The next accepted pair keeps the numbering if and only if it is logged as it is recorded. */
  lemma NextNumberIff(entry: Entry, ps: seq<(nat, nat)>, p: Producer, recorded: bool, logged: bool)
    requires NumberedIn(entry.producers, ps, p.id) && Validate(entry, p).Accepted?
    ensures
      var after := if recorded then entry.producers[p.id := ProducerState(p.epoch, p.seqNo)] else entry.producers;
      NumberedIn(after, if logged then ps + [(p.epoch, p.seqNo)] else ps, p.id) <==> (recorded <==> logged)
  {
  }

  /** A request keeps a producer's numbering if and only if, when it is accepted, it is logged as it is recorded. */
  lemma HandleNumbersIff(t: Topic, c: Call, id: string)
    requires CanHappen(c.request, c.fault) && NumberedFor(t, id)
    ensures NumberedFor(HandleUnder(t, c.request, c.fault).0, id) <==> NumberUnhurt(t, c, id)
  {
    var r := c.request;
    Handled(t, c);
    PairsAppend(t.log, Applied(r.producer, r.streamSeq, Survivors(r, c.fault)), id);
    if r.producer.Some? && r.producer.value.id == id && Refusal(t, r).None? {
      NextNumberIff(t.entry, Pairs(t.log, id), r.producer.value, !c.fault.Unrecorded?,
                    Logged(t.log, r, c.fault) != t.log);
    }
  }

  ghost predicate NumbersUnhurt(calls: seq<Call>, id: string)
    requires AllCanHappen(calls)
  {
    forall i | 0 <= i < |calls| :: NumberUnhurt(Serve(calls[..i]), calls[i], id)
  }

  lemma {:induction false} NumberedUpTo(calls: seq<Call>, n: nat, id: string)
    requires AllCanHappen(calls) && n <= |calls| && NumbersUnhurt(calls, id)
    ensures NumberedFor(Serve(calls[..n]), id)
  {
    if n > 0 {
      NumberedUpTo(calls, n - 1, id);
      ServedNext(calls, n - 1);
      HandleNumbersIff(Serve(calls[..n - 1]), calls[n - 1], id);
    }
  }

  /** The registry remembers a producer's last logged pair after every request, and its pairs run 0.. per epoch,
      if and only if each of its accepted requests is logged as it is recorded. */
  lemma {:induction false} NumberingIff(calls: seq<Call>, id: string)
    requires AllCanHappen(calls)
    ensures (forall n | 0 <= n <= |calls| :: NumberedFor(Serve(calls[..n]), id)) <==> NumbersUnhurt(calls, id)
  {
    if NumbersUnhurt(calls, id) {
      forall n | 0 <= n <= |calls| ensures NumberedFor(Serve(calls[..n]), id) {
        NumberedUpTo(calls, n, id);
      }
    }
    if forall n | 0 <= n <= |calls| :: NumberedFor(Serve(calls[..n]), id) {
      forall i | 0 <= i < |calls| ensures NumberUnhurt(Serve(calls[..i]), calls[i], id) {
        assert NumberedFor(Serve(calls[..i]), id) && NumberedFor(Serve(calls[..i + 1]), id);
        ServedNext(calls, i);
        HandleNumbersIff(Serve(calls[..i]), calls[i], id);
      }
    }
  }

  predicate Less(a: (nat, nat), b: (nat, nat)) {
    a.0 < b.0 || (a.0 == b.0 && a.1 < b.1)
  }

  lemma {:induction false} SequentialIncreases(ps: seq<(nat, nat)>, i: nat, j: nat)
    requires Sequential(ps) && i < j < |ps|
    ensures Less(ps[i], ps[j])
    decreases j
  {
    if i < j - 1 {
      SequentialIncreases(ps, i, j - 1);
    }
    assert Follows(ps[j - 1], ps[j]);
  }

  /** Whatever requests arrive, a producer whose accepted requests are logged as they are recorded
      has pairs that run 0.. per epoch and strictly increase. */
  lemma {:induction false} ProducersStrictlyIncrease(calls: seq<Call>, id: string, i: nat, j: nat)
    requires AllCanHappen(calls) && NumbersUnhurt(calls, id) && i < j < |Pairs(Serve(calls).log, id)|
    ensures
      var ps := Pairs(Serve(calls).log, id);
      Sequential(ps) && Less(ps[i], ps[j])
  {
    assert calls[..|calls|] == calls;
    NumberedUpTo(calls, |calls|, id);
    SequentialIncreases(Pairs(Serve(calls).log, id), i, j);
  }

  // ---- sessions ----

  /** The batches one session got into the stream, in log order. */
  function Landed(log: seq<Applied>, id: string, epoch: nat): seq<seq<Message>> {
    if log == [] then []
    else
      var init, last := Landed(log[..|log| - 1], id, epoch), log[|log| - 1];
      if By(last, id) && last.producer.value.epoch == epoch then init + [last.messages] else init
  }

  /** Every request of the session carries the batch its number names. */
  predicate FromSession(r: Request, id: string, epoch: nat, batches: seq<seq<Message>>) {
    OfSession(r, id, epoch) ==>
      r.producer.value.seqNo < |batches| && Messages(r) == batches[r.producer.value.seqNo]
  }

  /** Records of one epoch so far: all of them once the producer reached that epoch, none before. */
  ghost predicate SessionPrefix(t: Topic, id: string, epoch: nat, batches: seq<seq<Message>>) {
    var got := Landed(t.log, id, epoch);
    && got <= batches
    && (id in t.entry.producers && t.entry.producers[id].epoch == epoch ==> |got| == t.entry.producers[id].lastSeq + 1)
    && (id !in t.entry.producers || t.entry.producers[id].epoch < epoch ==> got == [])
  }

  lemma LandedAppend(log: seq<Applied>, a: Applied, id: string, epoch: nat)
    ensures Landed(log + [a], id, epoch)
            == if By(a, id) && a.producer.value.epoch == epoch then Landed(log, id, epoch) + [a.messages]
               else Landed(log, id, epoch)
  {
    assert (log + [a])[..|log|] == log;
  }

  predicate OfSession(r: Request, id: string, epoch: nat) {
    r.producer.Some? && r.producer.value.id == id && r.producer.value.epoch == epoch
  }

  /** An accepted session request carries the next batch. */
  lemma AcceptsNextBatch(t: Topic, r: Request, id: string, epoch: nat, batches: seq<seq<Message>>)
    requires SessionPrefix(t, id, epoch, batches) && FromSession(r, id, epoch, batches)
    requires OfSession(r, id, epoch) && Validate(t.entry, r.producer.value).Accepted?
    ensures r.producer.value.seqNo == |Landed(t.log, id, epoch)|
    ensures Landed(t.log, id, epoch) + [Messages(r)] <= batches
  {
    var got := Landed(t.log, id, epoch);
    assert got == batches[..|got|];
  }

  /** If the session's request is accepted, its fault is all or nothing. */
  predicate SessionUnhurt(t: Topic, c: Call, id: string, epoch: nat) {
    OfSession(c.request, id, epoch) && Refusal(t, c.request).None? ==> AllOrNothing(c.fault)
  }

  lemma OthersLand(t: Topic, c: Call, id: string, epoch: nat)
    requires CanHappen(c.request, c.fault) && !OfSession(c.request, id, epoch)
    ensures Landed(HandleUnder(t, c.request, c.fault).0.log, id, epoch) == Landed(t.log, id, epoch)
  {
    LandedAppend(t.log, Applied(c.request.producer, c.request.streamSeq, Survivors(c.request, c.fault)), id, epoch);
  }

  lemma WholeKeepsPrefix(t: Topic, c: Call, id: string, epoch: nat, batches: seq<seq<Message>>)
    requires SessionPrefix(t, id, epoch, batches) && FromSession(c.request, id, epoch, batches)
    requires CanHappen(c.request, c.fault) && OfSession(c.request, id, epoch) && Refusal(t, c.request).None?
    requires AllOrNothing(c.fault)
    ensures SessionPrefix(HandleUnder(t, c.request, c.fault).0, id, epoch, batches)
  {
    AcceptsNextBatch(t, c.request, id, epoch, batches);
    LandedAppend(t.log, Applied(c.request.producer, c.request.streamSeq, Messages(c.request)), id, epoch);
  }

  lemma UnrecordedBreaksPrefix(t: Topic, c: Call, id: string, epoch: nat, batches: seq<seq<Message>>)
    requires SessionPrefix(t, id, epoch, batches) && FromSession(c.request, id, epoch, batches)
    requires CanHappen(c.request, c.fault) && OfSession(c.request, id, epoch) && Refusal(t, c.request).None?
    requires c.fault.Unrecorded? && c.fault.kept > 0
    ensures !SessionPrefix(HandleUnder(t, c.request, c.fault).0, id, epoch, batches)
  {
    AcceptsNextBatch(t, c.request, id, epoch, batches);
    LandedAppend(t.log, Applied(c.request.producer, c.request.streamSeq, Survivors(c.request, c.fault)), id, epoch);
  }

  lemma LossBreaksPrefix(t: Topic, c: Call, id: string, epoch: nat, batches: seq<seq<Message>>)
    requires SessionPrefix(t, id, epoch, batches) && FromSession(c.request, id, epoch, batches)
    requires CanHappen(c.request, c.fault) && OfSession(c.request, id, epoch) && Refusal(t, c.request).None?
    requires c.fault.Lost?
    ensures !SessionPrefix(HandleUnder(t, c.request, c.fault).0, id, epoch, batches)
  {
    AcceptsNextBatch(t, c.request, id, epoch, batches);
    var got, left := Landed(t.log, id, epoch), Survivors(c.request, c.fault);
    LandedAppend(t.log, Applied(c.request.producer, c.request.streamSeq, left), id, epoch);
    assert |left| < |batches[|got|]| && (got + [left])[|got|] == left;
  }

  /** A request keeps registry and stream agreed on a session if and only if it does not hurt it. */
  lemma HandleKeepsPrefixIff(t: Topic, c: Call, id: string, epoch: nat, batches: seq<seq<Message>>)
    requires SessionPrefix(t, id, epoch, batches) && FromSession(c.request, id, epoch, batches)
    requires CanHappen(c.request, c.fault)
    ensures SessionPrefix(HandleUnder(t, c.request, c.fault).0, id, epoch, batches) <==> SessionUnhurt(t, c, id, epoch)
  {
    if !OfSession(c.request, id, epoch) {
      OthersLand(t, c, id, epoch);
    } else if Refusal(t, c.request).None? {
      if AllOrNothing(c.fault) {
        WholeKeepsPrefix(t, c, id, epoch, batches);
      } else if c.fault.Lost? {
        LossBreaksPrefix(t, c, id, epoch, batches);
      } else {
        UnrecordedBreaksPrefix(t, c, id, epoch, batches);
      }
    }
  }

  ghost predicate Unhurt(calls: seq<Call>, id: string, epoch: nat)
    requires AllCanHappen(calls)
  {
    forall i | 0 <= i < |calls| :: SessionUnhurt(Serve(calls[..i]), calls[i], id, epoch)
  }

  lemma {:induction false} SessionUpTo(calls: seq<Call>, n: nat, id: string, epoch: nat, batches: seq<seq<Message>>)
    requires AllCanHappen(calls) && n <= |calls| && Unhurt(calls, id, epoch)
    requires forall i | 0 <= i < |calls| :: FromSession(calls[i].request, id, epoch, batches)
    ensures SessionPrefix(Serve(calls[..n]), id, epoch, batches)
  {
    if n > 0 {
      SessionUpTo(calls, n - 1, id, epoch, batches);
      ServedNext(calls, n - 1);
      HandleKeepsPrefixIff(Serve(calls[..n - 1]), calls[n - 1], id, epoch, batches);
    }
  }

  /**
   * Exactly once, in order: for any duplication, loss or reordering of a session's requests, among any other requests,
   * and with any faults that are all or nothing for the session, the session's batches in the stream are a prefix of
   * what it sent, each once and in session order.
   */
  lemma {:induction false} SessionInOrder(calls: seq<Call>, id: string, epoch: nat, batches: seq<seq<Message>>)
    requires AllCanHappen(calls) && Unhurt(calls, id, epoch)
    requires forall i | 0 <= i < |calls| :: FromSession(calls[i].request, id, epoch, batches)
    ensures Landed(Serve(calls).log, id, epoch) <= batches
    ensures SessionPrefix(Serve(calls), id, epoch, batches)
  {
    assert calls[..|calls|] == calls;
    SessionUpTo(calls, |calls|, id, epoch, batches);
  }

  /** Registry and stream agree on the session after every request if and only if no request hurts it. */
  lemma {:induction false} SessionInOrderIff(calls: seq<Call>, id: string, epoch: nat, batches: seq<seq<Message>>)
    requires AllCanHappen(calls) && forall i | 0 <= i < |calls| :: FromSession(calls[i].request, id, epoch, batches)
    ensures (forall n | 0 <= n <= |calls| :: SessionPrefix(Serve(calls[..n]), id, epoch, batches)) <==>
            Unhurt(calls, id, epoch)
  {
    if Unhurt(calls, id, epoch) {
      forall n | 0 <= n <= |calls| ensures SessionPrefix(Serve(calls[..n]), id, epoch, batches) {
        SessionUpTo(calls, n, id, epoch, batches);
      }
    }
    if forall n | 0 <= n <= |calls| :: SessionPrefix(Serve(calls[..n]), id, epoch, batches) {
      forall i | 0 <= i < |calls| ensures SessionUnhurt(Serve(calls[..i]), calls[i], id, epoch) {
        assert SessionPrefix(Serve(calls[..i]), id, epoch, batches);
        assert SessionPrefix(Serve(calls[..i + 1]), id, epoch, batches);
        ServedNext(calls, i);
        HandleKeepsPrefixIff(Serve(calls[..i]), calls[i], id, epoch, batches);
      }
    }
  }

  /** A request of one message, the first of its session. */
  function First(id: string, m: Message): Request {
    Request(Some(Producer(id, 0, 0)), None, None, false, [m], Some([m]), true, true)
  }

  /** What handling that request adds, while the session is unknown. */
  lemma FirstHandled(t: Topic, id: string, m: Message, f: Fault)
    requires m != [] && t.entry == EMPTY_TOPIC.entry && (f.Fine? || (f.Unrecorded? && f.kept == 1))
    ensures CanHappen(First(id, m), f)
    ensures
      var u := HandleUnder(t, First(id, m), f).0;
      u.log == t.log + [Applied(Some(Producer(id, 0, 0)), None, [m])] && (f.Unrecorded? ==> u.entry == t.entry)
  {
    assert m in First(id, m).payloads && [m][..1] == [m];
  }

  lemma LandedPair(a: Applied, id: string)
    requires By(a, id) && a.producer.value.epoch == 0
    ensures Landed([a] + [a], id, 0) == [a.messages, a.messages]
  {
    LandedAppend([], a, id, 0);
    LandedAppend([a], a, id, 0);
    assert [] + [a] == [a];
  }

  lemma {:induction false} ServeLast(calls: seq<Call>, c: Call)
    requires AllCanHappen(calls) && CanHappen(c.request, c.fault)
    ensures AllCanHappen(calls + [c]) && Serve(calls + [c]) == HandleUnder(Serve(calls), c.request, c.fault).0
  {
    assert (calls + [c])[..|calls|] == calls;
  }

  /** A batch that survives without being recorded lands again when it is retried. */
  lemma UnrecordedLandsTwice(id: string, m: Message)
    requires m != []
    ensures
      var r := First(id, m);
      var calls := [Call(r, Unrecorded(1, 1))] + [Call(r, Fine)];
      AllCanHappen(calls) && Landed(Serve(calls).log, id, 0) == [[m], [m]]
  {
    var r := First(id, m);
    var c, a := Call(r, Unrecorded(1, 1)), Applied(r.producer, None, [m]);
    FirstHandled(EMPTY_TOPIC, id, m, c.fault);
    ServeLast([], c);
    assert [] + [c] == [c] && [] + [a] == [a];
    FirstHandled(Serve([c]), id, m, Fine);
    ServeLast([c], Call(r, Fine));
    LandedPair(a, id);
  }

  /** A batch that is recorded and then lost is answered as a duplicate when it is retried. */
  lemma LostIsCalledDuplicate(id: string, m: Message)
    requires m != []
    ensures
      var r := First(id, m);
      var calls := [Call(r, Lost(0, 0))];
      AllCanHappen(calls) && Serve(calls).log == []
      && Handle(Serve(calls), r) == (Serve(calls), Done(0, false, false, Some(0), Some(0)))
  {
    var r := First(id, m);
    var calls := [Call(r, Lost(0, 0))];
    assert m in r.payloads && calls[..0] == [];
  }

  /** Nothing changes once a stream is closed. */
  lemma {:induction false} ClosedIsFinal(calls: seq<Call>, n: nat)
    requires AllCanHappen(calls) && n <= |calls| && Serve(calls[..n]).entry.closed
    ensures Serve(calls) == Serve(calls[..n])
    decreases |calls|
  {
    if n < |calls| {
      var before := calls[..|calls| - 1];
      assert before[..n] == calls[..n];
      ClosedIsFinal(before, n);
    } else {
      assert calls[..n] == calls;
    }
  }

  // ---- conditional appends ----

  lemma {:induction false} BeforeTransitive(a: string, b: string, c: string)
    requires Before(a, b) && Before(b, c)
    ensures Before(a, c)
    decreases |b|
  {
    if a != [] && a[0] == b[0] && b[0] == c[0] {
      BeforeTransitive(a[1..], b[1..], c[1..]);
    }
  }

  /** The stream sequence tokens of accepted requests, in log order. */
  function Tokens(log: seq<Applied>): seq<string> {
    if log == [] then []
    else
      var init, last := Tokens(log[..|log| - 1]), log[|log| - 1];
      if last.token.Some? then init + [last.token.value] else init
  }

  function Count(log: seq<Applied>): nat {
    if log == [] then 0 else Count(log[..|log| - 1]) + |log[|log| - 1].messages|
  }

  /** The entry remembers the last token; tokens ascend. */
  ghost predicate TokensOk(t: Topic) {
    TokensIn(t.entry.lastSeq, Tokens(t.log))
  }

  predicate TokensIn(last: Option<string>, ts: seq<string>) {
    last == (if ts == [] then None else Some(ts[|ts| - 1])) && forall i | 0 < i < |ts| :: Before(ts[i - 1], ts[i])
  }

  /** If a request with a token is accepted, it is logged exactly when it is recorded. */
  predicate TokenUnhurt(t: Topic, c: Call) {
    c.request.streamSeq.Some? && Refusal(t, c.request).None? ==> LoggedAsRecorded(c.fault)
  }

  lemma TokensAppend(log: seq<Applied>, a: Applied)
    ensures Tokens(log + [a]) == if a.token.Some? then Tokens(log) + [a.token.value] else Tokens(log)
  {
    assert (log + [a])[..|log|] == log;
  }

  lemma {:induction false} BeforeIrreflexive(a: string)
    ensures !Before(a, a)
    decreases |a|
  {
    if a != [] {
      BeforeIrreflexive(a[1..]);
    }
  }

  /** The next accepted token keeps them ascending and remembered if and only if it is logged as it is recorded. */
  lemma NextTokenIff(last: Option<string>, ts: seq<string>, token: string, recorded: bool, logged: bool)
    requires TokensIn(last, ts) && (last.Some? ==> Before(last.value, token))
    ensures
      TokensIn(if recorded then Some(token) else last, if logged then ts + [token] else ts) <==> (recorded <==> logged)
  {
    BeforeIrreflexive(token);
    var more := ts + [token];
    forall i | 0 < i < |more| && logged ensures Before(more[i - 1], more[i]) {
      assert more[i - 1] == ts[i - 1];
    }
  }

  /** A request keeps the tokens ascending and remembered if and only if, when it is accepted with one,
      it is logged as it is recorded. */
  lemma HandleTokensIff(t: Topic, c: Call)
    requires CanHappen(c.request, c.fault) && TokensOk(t)
    ensures TokensOk(HandleUnder(t, c.request, c.fault).0) <==> TokenUnhurt(t, c)
  {
    var r := c.request;
    Handled(t, c);
    TokensAppend(t.log, Applied(r.producer, r.streamSeq, Survivors(r, c.fault)));
    if r.streamSeq.Some? && Refusal(t, r).None? {
      NextTokenIff(t.entry.lastSeq, Tokens(t.log), r.streamSeq.value, !c.fault.Unrecorded?,
                   Logged(t.log, r, c.fault) != t.log);
    }
  }

  ghost predicate TokensUnhurt(calls: seq<Call>)
    requires AllCanHappen(calls)
  {
    forall i | 0 <= i < |calls| :: TokenUnhurt(Serve(calls[..i]), calls[i])
  }

  lemma {:induction false} TokensUpTo(calls: seq<Call>, n: nat)
    requires AllCanHappen(calls) && n <= |calls| && TokensUnhurt(calls)
    ensures TokensOk(Serve(calls[..n]))
  {
    if n > 0 {
      TokensUpTo(calls, n - 1);
      ServedNext(calls, n - 1);
      HandleTokensIff(Serve(calls[..n - 1]), calls[n - 1]);
    }
  }

  /** The tokens ascend and the last is remembered after every request if and only if each accepted request
      with a token is logged as it is recorded. */
  lemma {:induction false} TokensIff(calls: seq<Call>)
    requires AllCanHappen(calls)
    ensures (forall n | 0 <= n <= |calls| :: TokensOk(Serve(calls[..n]))) <==> TokensUnhurt(calls)
  {
    if TokensUnhurt(calls) {
      forall n | 0 <= n <= |calls| ensures TokensOk(Serve(calls[..n])) {
        TokensUpTo(calls, n);
      }
    }
    if forall n | 0 <= n <= |calls| :: TokensOk(Serve(calls[..n])) {
      forall i | 0 <= i < |calls| ensures TokenUnhurt(Serve(calls[..i]), calls[i]) {
        assert TokensOk(Serve(calls[..i])) && TokensOk(Serve(calls[..i + 1]));
        ServedNext(calls, i);
        HandleTokensIff(Serve(calls[..i]), calls[i]);
      }
    }
  }

  /** Whatever requests arrive, the tokens of the accepted ones strictly ascend. */
  lemma {:induction false} TokensAscend(calls: seq<Call>, i: nat, j: nat)
    requires AllCanHappen(calls) && TokensUnhurt(calls) && i < j < |Tokens(Serve(calls).log)|
    ensures Before(Tokens(Serve(calls).log)[i], Tokens(Serve(calls).log)[j])
    decreases j
  {
    assert calls[..|calls|] == calls;
    TokensUpTo(calls, |calls|);
    var ts := Tokens(Serve(calls).log);
    if i < j - 1 {
      TokensAscend(calls, i, j - 1);
      BeforeTransitive(ts[i], ts[j - 1], ts[j]);
    }
  }

  /** After a fault the stream reports the end of what survived, as it does once it is opened again. */
  predicate TailHonest(t: Topic, c: Call)
    requires CanHappen(c.request, c.fault)
  {
    Refusal(t, c.request).None? && !c.fault.Fine? ==> c.fault.tail == Count(Logged(t.log, c.request, c.fault))
  }

  ghost predicate TailsHonest(calls: seq<Call>, n: nat)
    requires AllCanHappen(calls) && n <= |calls|
  {
    forall i | 0 <= i < n :: TailHonest(Serve(calls[..i]), calls[i])
  }

  lemma CountAppend(log: seq<Applied>, a: Applied)
    ensures Count(log + [a]) == Count(log) + |a.messages|
  {
    assert (log + [a])[..|log|] == log;
  }

  lemma {:induction false} ServeCounts(calls: seq<Call>, n: nat)
    requires AllCanHappen(calls) && n <= |calls| && TailsHonest(calls, n)
    ensures Serve(calls[..n]).next == Count(Serve(calls[..n]).log)
  {
    if n > 0 {
      var t, c := Serve(calls[..n - 1]), calls[n - 1];
      ServeCounts(calls, n - 1);
      assert calls[..n][..n - 1] == calls[..n - 1] && TailHonest(t, c);
      CountAppend(t.log, Applied(c.request.producer, c.request.streamSeq, Messages(c.request)));
    }
  }

  /** A request that names an expected tail changes nothing unless exactly that many messages precede it. */
  lemma {:induction false} MatchGuardsTail(calls: seq<Call>, c: Call)
    requires AllCanHappen(calls) && TailsHonest(calls, |calls|)
    requires CanHappen(c.request, c.fault) && c.request.matchSeq.Some?
    ensures Count(Serve(calls).log) != c.request.matchSeq.value ==>
              HandleUnder(Serve(calls), c.request, c.fault).0 == Serve(calls)
  {
    assert calls[..|calls|] == calls;
    ServeCounts(calls, |calls|);
  }

  lemma {:induction false} LogGrows(calls: seq<Call>, n: nat)
    requires AllCanHappen(calls) && n <= |calls|
    ensures Serve(calls[..n]).log <= Serve(calls).log
    decreases |calls|
  {
    if n < |calls| {
      var before := calls[..|calls| - 1];
      LogGrows(before, n);
      assert before[..n] == calls[..n];
    } else {
      assert calls[..n] == calls;
    }
  }

  /** An answer that says applied comes with the whole request in the log, and the tail just past it. */
  lemma AppliedWhole(t: Topic, c: Call)
    requires CanHappen(c.request, c.fault)
    requires
      var reply := HandleUnder(t, c.request, c.fault).1;
      reply.Done? && reply.applied
    ensures
      var (u, reply) := HandleUnder(t, c.request, c.fault);
      && u.log == t.log + [Applied(c.request.producer, c.request.streamSeq, Messages(c.request))]
      && reply.next == t.next + |Messages(c.request)|
  {
  }

  /** Whatever goes wrong around it, a request that was answered as applied is in the stream for good, with all its
      messages; and where the stream reports its tail honestly, they sit right below the offset it was answered. */
  lemma {:induction false} AppliedStays(calls: seq<Call>, i: nat)
    requires AllCanHappen(calls) && i < |calls|
    requires
      var reply := HandleUnder(Serve(calls[..i]), calls[i].request, calls[i].fault).1;
      reply.Done? && reply.applied
    ensures
      var r, log, k := calls[i].request, Serve(calls).log, |Serve(calls[..i]).log|;
      && k < |log| && log[k] == Applied(r.producer, r.streamSeq, Messages(r))
      && (TailsHonest(calls, i) ==>
            HandleUnder(Serve(calls[..i]), r, calls[i].fault).1.next == Count(log[..k]) + |Messages(r)|)
  {
    var before, log := Serve(calls[..i]), Serve(calls).log;
    ServedNext(calls, i);
    LogGrows(calls, i + 1);
    AppliedWhole(before, calls[i]);
    assert log[..|before.log|] == before.log;
    if TailsHonest(calls, i) {
      ServeCounts(calls, i);
    }
  }

  // ---- every answer, from the log ----

  function Pair(p: Producer): (nat, nat) {
    (p.epoch, p.seqNo)
  }

  /** A request's number is accepted if and only if it continues the producer's logged pairs. */
  lemma AcceptsIffNext(entry: Entry, ps: seq<(nat, nat)>, p: Producer)
    requires NumberedIn(entry.producers, ps, p.id)
    ensures Validate(entry, p).Accepted? <==> Sequential(ps + [Pair(p)])
  {
    var more := ps + [Pair(p)];
    if Sequential(more) && ps != [] {
      assert Follows(more[|ps| - 1], more[|ps|]);
    }
    if Validate(entry, p).Accepted? {
      forall i | 0 < i < |more| ensures Follows(more[i - 1], more[i]) {
        assert i < |ps| ==> Follows(ps[i - 1], ps[i]);
      }
    }
  }

  /** The current epoch's pairs are all numbers up to the last. */
  lemma {:induction false} EpochRuns(ps: seq<(nat, nat)>, k: nat)
    requires Sequential(ps) && ps != []
    ensures (ps[|ps| - 1].0, k) in ps <==> k <= ps[|ps| - 1].1
    decreases |ps|
  {
    var n := |ps| - 1;
    if n > 0 && ps[n].1 > 0 {
      assert Follows(ps[n - 1], ps[n]);
      EpochRuns(ps[..n], k);
      assert ps == ps[..n] + [ps[n]];
    } else {
      forall i | 0 <= i < n ensures ps[i].0 < ps[n].0 {
        SequentialIncreases(ps, i, n);
      }
    }
  }

  lemma {:induction false} EpochsBelowLast(ps: seq<(nat, nat)>, q: (nat, nat))
    requires Sequential(ps) && q in ps
    ensures q.0 <= ps[|ps| - 1].0
  {
    var i :| 0 <= i < |ps| && ps[i] == q;
    if i < |ps| - 1 {
      SequentialIncreases(ps, i, |ps| - 1);
    }
  }

  /** The pair is logged, in the latest epoch. */
  predicate Repeats(ps: seq<(nat, nat)>, p: Producer) {
    Pair(p) in ps && forall q | q in ps :: q.0 <= p.epoch
  }

  /** A later epoch is logged. */
  predicate Outlived(ps: seq<(nat, nat)>, p: Producer) {
    exists q :: q in ps && q.0 > p.epoch
  }

  /** The pair is beyond all logged ones, in the latest epoch, and the number before it is missing. */
  predicate Skips(ps: seq<(nat, nat)>, p: Producer) {
    && (exists q :: q in ps && q.0 == p.epoch) && (forall q | q in ps :: Less(q, Pair(p)))
    && (p.seqNo > 0 ==> (p.epoch, p.seqNo - 1) !in ps)
  }

  /** A number is refused as a duplicate, as stale or as a gap exactly when the logged pairs make it one. */
  lemma RefusesByLog(entry: Entry, ps: seq<(nat, nat)>, p: Producer)
    requires NumberedIn(entry.producers, ps, p.id)
    ensures
      var d := Validate(entry, p);
      && (d.Duplicate? <==> Repeats(ps, p)) && (d.StaleEpoch? <==> Outlived(ps, p))
      && (d.SequenceGap? <==> Skips(ps, p))
    ensures ps != [] ==>
      var d, last := Validate(entry, p), ps[|ps| - 1];
      && (d.Duplicate? ==> d.lastSeq == last.1) && (d.StaleEpoch? ==> d.current == last.0)
      && (d.SequenceGap? ==> d.expected == last.1 + 1 && d.received == p.seqNo)
  {
    if ps != [] {
      var last := ps[|ps| - 1];
      assert last in ps;
      forall q | q in ps ensures q.0 <= last.0 {
        EpochsBelowLast(ps, q);
      }
      EpochRuns(ps, p.seqNo);
      if p.seqNo > 0 {
        EpochRuns(ps, p.seqNo - 1);
      }
      forall q | q in ps && p.epoch == last.0 && p.seqNo > last.1 ensures Less(q, Pair(p)) {
        if q.0 == last.0 {
          EpochRuns(ps, q.1);
        }
      }
    }
  }

  predicate PayloadOk(r: Request) {
    CloseOnly(r) || (r.hasContentType && r.mimeMatches && !Empty(r.payloads) && r.messages.Some?)
  }

  /** The request continues its producer's numbers, names the true tail, and carries a later token, where it does so at
      all, and its payload is in order. */
  ghost predicate InOrder(log: seq<Applied>, r: Request) {
    && (r.producer.Some? ==> Sequential(Pairs(log, r.producer.value.id) + [Pair(r.producer.value)]))
    && (r.matchSeq.Some? ==> r.matchSeq.value == Count(log))
    && (r.streamSeq.Some? && Tokens(log) != [] ==> Before(Tokens(log)[|Tokens(log)| - 1], r.streamSeq.value))
    && PayloadOk(r)
  }

  /** Registry and stream agree on everything the handler looks at. */
  ghost predicate Agreed(t: Topic, r: Request) {
    && (r.producer.Some? ==> NumberedFor(t, r.producer.value.id)) && TokensOk(t) && t.next == Count(t.log)
  }

  lemma RefusalIff(t: Topic, r: Request)
    requires Agreed(t, r) && !t.entry.closed
    ensures Refusal(t, r).None? <==> InOrder(t.log, r)
  {
    if r.producer.Some? {
      AcceptsIffNext(t.entry, Pairs(t.log, r.producer.value.id), r.producer.value);
    }
  }

  /** Taken whole, with the offset past it answered, and recorded as closing or not. */
  ghost predicate TakenWhole(t: Topic, r: Request) {
    var (u, reply) := Handle(t, r);
    var added := if Empty(r.payloads) || r.messages.None? then [] else r.messages.value;
    && u.log == t.log + [Applied(r.producer, r.streamSeq, added)] && u.entry.closed == r.closeAfter
    && reply == Done(Count(u.log), !Empty(r.payloads), r.closeAfter, EpochOf(r), SeqOf(r))
  }

  lemma OpenAnswers(t: Topic, r: Request)
    requires Agreed(t, r) && !t.entry.closed
    ensures InOrder(t.log, r) ==> TakenWhole(t, r)
    ensures !InOrder(t.log, r) ==> Handle(t, r).0 == t && !(Handle(t, r).1.Done? && Handle(t, r).1.applied)
  {
    RefusalIff(t, r);
    CountAppend(t.log, Applied(r.producer, r.streamSeq, Messages(r)));
  }

  /** While a stream is open, a request is taken, whole and with its offset answered, if and only if it is in order with
      what the stream holds; any other changes nothing. */
  lemma {:induction false} TakenIffInOrder(calls: seq<Call>, r: Request)
    requires AllCanHappen(calls) && TokensUnhurt(calls) && TailsHonest(calls, |calls|)
    requires r.producer.Some? ==> NumbersUnhurt(calls, r.producer.value.id)
    requires !Serve(calls).entry.closed
    ensures InOrder(Serve(calls).log, r) ==> TakenWhole(Serve(calls), r)
    ensures !InOrder(Serve(calls).log, r) ==> Handle(Serve(calls), r).0 == Serve(calls)
    ensures !InOrder(Serve(calls).log, r) ==> !(Handle(Serve(calls), r).1.Done? && Handle(Serve(calls), r).1.applied)
  {
    assert calls[..|calls|] == calls;
    TokensUpTo(calls, |calls|);
    ServeCounts(calls, |calls|);
    if r.producer.Some? {
      NumberedUpTo(calls, |calls|, r.producer.value.id);
    }
    OpenAnswers(Serve(calls), r);
  }

  /** What a refusal tells about the request. */
  ghost predicate RefusedFor(log: seq<Applied>, r: Request, why: Rejection) {
    var closing := r.closeAfter && Empty(r.payloads);
    match why
    case MatchFailed => r.matchSeq.Some? && r.matchSeq.value != Count(log)
    case Conflict =>
      || (!closing && !r.mimeMatches)
      || (r.streamSeq.Some? && Tokens(log) != [] && !Before(Tokens(log)[|Tokens(log)| - 1], r.streamSeq.value))
    case BadRequest => !closing && (!r.hasContentType || Empty(r.payloads) || r.messages.None?)
    case _ => false
  }

  /** While a stream is open, a request whose number is in order is refused only for what is wrong with it. */
  lemma {:induction false} ReasonsAreTrue(calls: seq<Call>, r: Request)
    requires AllCanHappen(calls) && TokensUnhurt(calls) && TailsHonest(calls, |calls|) && !Serve(calls).entry.closed
    requires r.producer.Some? ==> Validate(Serve(calls).entry, r.producer.value).Accepted?
    ensures
      var reply := Handle(Serve(calls), r).1;
      && (reply.Done? ==> reply.applied || CloseOnly(r))
      && (reply.Rejected? ==> RefusedFor(Serve(calls).log, r, reply.why))
  {
    assert calls[..|calls|] == calls;
    TokensUpTo(calls, |calls|);
    ServeCounts(calls, |calls|);
  }

  /** What a request is told when its number repeats, is outlived, skips, or starts an epoch other than at 0. */
  ghost predicate NumberAnswered(ps: seq<(nat, nat)>, p: Producer, t: Topic, reply: Reply) {
    && (Repeats(ps, p) ==> reply == Done(t.next, false, t.entry.closed, Some(p.epoch), Some(ps[|ps| - 1].1)))
    && (Outlived(ps, p) ==> reply == Rejected(Fenced(ps[|ps| - 1].0)))
    && (Skips(ps, p) ==> reply == Rejected(Gap(ps[|ps| - 1].1 + 1, p.seqNo)))
    && ((forall q | q in ps :: q.0 < p.epoch) && p.seqNo != 0 ==> reply == Rejected(BadRequest))
  }

  lemma RejectsByLog(t: Topic, r: Request, ps: seq<(nat, nat)>)
    requires r.producer.Some? && NumberedIn(t.entry.producers, ps, r.producer.value.id)
    ensures !Validate(t.entry, r.producer.value).Accepted? ==>
              NumberAnswered(ps, r.producer.value, t, Rejects(t, r, Validate(t.entry, r.producer.value)))
    ensures Validate(t.entry, r.producer.value).Accepted? ==>
              forall reply :: NumberAnswered(ps, r.producer.value, t, reply)
  {
    RefusesByLog(t.entry, ps, r.producer.value);
    if ps != [] {
      assert ps[|ps| - 1] in ps;
    }
  }

  /** On a run that keeps a producer's numbering, its refused requests are told exactly what the log makes of them,
      whether the stream is open or closed. */
  lemma {:induction false} NumberAnswers(calls: seq<Call>, r: Request)
    requires AllCanHappen(calls) && r.producer.Some? && NumbersUnhurt(calls, r.producer.value.id)
    ensures
      var t := Serve(calls);
      NumberAnswered(Pairs(t.log, r.producer.value.id), r.producer.value, t, Handle(t, r).1)
  {
    assert calls[..|calls|] == calls;
    NumberedUpTo(calls, |calls|, r.producer.value.id);
    RejectsByLog(Serve(calls), r, Pairs(Serve(calls).log, r.producer.value.id));
  }

  // ---- what a closed stream answers ----

  lemma {:induction false} CloserKnownOnceClosed(calls: seq<Call>, n: nat)
    requires AllCanHappen(calls) && n <= |calls|
    ensures Serve(calls[..n]).entry.closedBy.Some? ==> Serve(calls[..n]).entry.closed
  {
    if n > 0 {
      CloserKnownOnceClosed(calls, n - 1);
      ServedNext(calls, n - 1);
      Handled(Serve(calls[..n - 1]), calls[n - 1]);
    }
  }

  /** Whatever the registry lost, the request that closed a stream is answered as done when it is sent again. */
  lemma CloserAnsweredAgain(t: Topic, r: Request)
    requires t.entry.closed && r.producer.Some? && t.entry.closedBy == r.producer
    requires Validate(t.entry, r.producer.value).Accepted?
    ensures Handle(t, r) == (t, Done(t.next, false, true, EpochOf(r), SeqOf(r)))
  {
  }

  /** Once a request closed the stream: closing it again is answered as done, except to another producer when a producer
      closed it; anything else new is told that it is closed. */
  lemma {:induction false} ClosedAnswers(calls: seq<Call>, i: nat, r: Request)
    requires AllCanHappen(calls) && i < |calls| && !Serve(calls[..i]).entry.closed
    requires calls[i].fault.Fine? && calls[i].request.closeAfter && Refusal(Serve(calls[..i]), calls[i].request).None?
    requires r.producer.Some? ==> Validate(Serve(calls).entry, r.producer.value).Accepted?
    ensures
      var t, closer := Serve(calls), calls[i].request.producer;
      Handle(t, r) == (t, if r.closeAfter && Empty(r.payloads) && (r.producer.None? || closer.None?)
                          then Done(t.next, false, true, EpochOf(r), SeqOf(r)) else Rejected(Closed))
  {
    var c := calls[i].request;
    ServedNext(calls, i);
    CloserKnownOnceClosed(calls, i);
    Handled(Serve(calls[..i]), calls[i]);
    ClosedIsFinal(calls, i + 1);
    var t := Serve(calls);
    assert t.entry.closed && t.entry.closedBy == c.producer;
    if r.producer.Some? && c.producer.Some? {
      assert c.producer.value.id in t.entry.producers;
      assert t.entry.producers[c.producer.value.id] == ProducerState(c.producer.value.epoch, c.producer.value.seqNo);
      assert r.producer != c.producer;
    }
  }

  // ---- the client session ----

  function Flatten(batches: seq<seq<Message>>): seq<Message> {
    if batches == [] then [] else Flatten(batches[..|batches| - 1]) + batches[|batches| - 1]
  }

  function Length(batch: seq<Message>): nat {
    if batch == [] then 0 else Length(batch[..|batch| - 1]) + |batch[|batch| - 1]|
  }

  /** Takes queued records until the batch is full; whatever was queued behind stays queued. */
  method Collect(queue: seq<Message>, maxRecords: nat, maxBytes: nat) returns (batch: seq<Message>, rest: seq<Message>)
    requires queue != []
    ensures batch != [] && batch + rest == queue
    ensures rest != [] ==> |batch| >= maxRecords || Length(batch) >= maxBytes
    ensures |batch| == 1 || (|batch| <= maxRecords && Length(batch[..|batch| - 1]) < maxBytes)
  {
    batch, rest := [queue[0]], queue[1..];
    var bytes: nat := |queue[0]|;
    assert batch[..0] == [];
    while rest != [] && |batch| < maxRecords && bytes < maxBytes
      invariant batch != [] && batch + rest == queue && bytes == Length(batch)
      invariant |batch| == 1 || (|batch| <= maxRecords && Length(batch[..|batch| - 1]) < maxBytes)
      decreases |rest|
    {
      var more := batch + [rest[0]];
      assert more[..|batch|] == batch;
      bytes := bytes + |rest[0]|;
      batch, rest := more, rest[1..];
    }
  }

  /** Numbers batches in the order they are cut from the queue; the batch list's index is the sequence number. */
  method Session(queue: seq<Message>, maxRecords: nat, maxBytes: nat) returns (batches: seq<seq<Message>>)
    ensures Flatten(batches) == queue && forall b | b in batches :: b != []
  {
    batches := [];
    var rest := queue;
    while rest != []
      invariant Flatten(batches) + rest == queue && forall b | b in batches :: b != []
      decreases |rest|
    {
      var batch, left := Collect(rest, maxRecords, maxBytes);
      var more := batches + [batch];
      assert more[..|batches|] == batches;
      assert Flatten(batches) + rest == Flatten(more) + left;
      batches, rest := more, left;
    }
    assert Flatten(batches) + [] == Flatten(batches);
  }

  lemma {:induction false} FlattenPrefix(a: seq<seq<Message>>, b: seq<seq<Message>>)
    requires a <= b
    ensures Flatten(a) <= Flatten(b)
    decreases |b|
  {
    if |a| < |b| {
      FlattenPrefix(a, b[..|b| - 1]);
    } else {
      assert a == b;
    }
  }

  /** End to end: what a session's records become in the stream is a prefix of what the application handed over. */
  lemma {:induction false} RecordsLandInOrder(
      calls: seq<Call>, id: string, epoch: nat, queue: seq<Message>, batches: seq<seq<Message>>)
    requires AllCanHappen(calls) && Unhurt(calls, id, epoch)
    requires Flatten(batches) == queue
    requires forall i | 0 <= i < |calls| :: FromSession(calls[i].request, id, epoch, batches)
    ensures Flatten(Landed(Serve(calls).log, id, epoch)) <= queue
  {
    SessionInOrder(calls, id, epoch, batches);
    FlattenPrefix(Landed(Serve(calls).log, id, epoch), batches);
  }
}
