/**
 Back-pressure on the interleaved channels of a client: a channel that has a message
 queued in the connection's watch takes no other one until the watch reports it sent.

 Every method below runs under the send lock, so the protocol is a sequence of these
 calls in any order.
 */
module BackPressure {
  import opened Basics

  type Channel = c: int | 0 <= c < 256
  type MessageId = n: int | 0 <= n < 0x1_0000_0000

  /** What the watch answers: an error, sent at once, or queued under an id. */
  datatype Outcome = Failed | SentNow | Queued(id: MessageId)

  // ------------------------------------------------------------ the protocol, as a value

  /**
   `slots` is what the client records per channel, 0 meaning idle. The rest describes the
   watch: `queued` are the ids it has not yet reported, with the channel of the message if
   it was data; `issued` are all ids it ever gave out. `accepted` and `finished` count, per
   channel, the sends that were accepted and those that were sent.
   */
  datatype Wire = Wire(slots: map<Channel, MessageId>,
                       queued: map<MessageId, Option<Channel>>, issued: set<MessageId>,
                       accepted: multiset<Channel>, finished: multiset<Channel>)

  const EMPTY_WIRE := Wire(map[], map[], {}, multiset{}, multiset{})

  datatype Event =
    | AddChannel(channel: Channel)
    | SendData(channel: Channel, outcome: Outcome)
    | SendOther(outcome: Outcome)
    | MessageSent(id: MessageId)

  /** The ids of the watch are fresh and not zero, and data is only sent on known channels. */
  ghost predicate EventOk(w: Wire, e: Event) {
    match e
    case AddChannel(_) => true
    case SendData(c, o) => c in w.slots && (o.Queued? ==> o.id != 0 && o.id !in w.issued)
    case SendOther(o) => o.Queued? ==> o.id != 0 && o.id !in w.issued
    case MessageSent(id) => id != 0
  }

  ghost predicate Busy(w: Wire, c: Channel) {
    c in w.slots && w.slots[c] != 0
  }

  function Queue(w: Wire, id: MessageId, c: Option<Channel>): Wire {
    w.(queued := w.queued[id := c], issued := w.issued + {id})
  }

  function Step(w: Wire, e: Event): Wire {
    match e
    case AddChannel(c) => if c in w.slots then w else w.(slots := w.slots[c := 0])
    case SendData(c, o) =>
      if c in w.slots && w.slots[c] != 0 then w
      else (match o
            case Failed => w
            case SentNow => w.(accepted := w.accepted + multiset{c}, finished := w.finished + multiset{c})
            case Queued(id) =>
              Queue(w.(slots := w.slots[c := id], accepted := w.accepted + multiset{c}), id, Some(c)))
    case SendOther(o) => if o.Queued? then Queue(w, o.id, None) else w
    case MessageSent(id) =>
      if id !in w.queued then w
      else
        var v := w.(queued := w.queued - {id});
        match w.queued[id]
        case None => v
        case Some(c) => v.(slots := w.slots[c := 0], finished := w.finished + multiset{c})
  }

  function Run(w: Wire, es: seq<Event>): Wire
    decreases |es|
  {
    if es == [] then w else Run(Step(w, es[0]), es[1..])
  }

  ghost predicate RunOk(w: Wire, es: seq<Event>)
    decreases |es|
  {
    es == [] || (EventOk(w, es[0]) && RunOk(Step(w, es[0]), es[1..]))
  }

  /** A busy channel and a queued data message record each other. */
  ghost predicate Invariant(w: Wire) {
    && (forall c :: c in w.slots && w.slots[c] != 0 ==>
          w.slots[c] in w.queued && w.queued[w.slots[c]] == Some(c))
    && (forall id :: id in w.queued ==>
          && id != 0 && id in w.issued
          && (w.queued[id].Some? ==> w.queued[id].value in w.slots && w.slots[w.queued[id].value] == id))
    && (forall c :: w.accepted[c] == w.finished[c] + (if c in w.slots && w.slots[c] != 0 then 1 else 0))
  }

  lemma StepKeepsInvariant(w: Wire, e: Event)
    requires Invariant(w) && EventOk(w, e)
    ensures Invariant(Step(w, e))
  {
    match e
    case AddChannel(_) =>
    case SendData(c, o) => SendDataKeeps(w, c, o);
    case SendOther(_) =>
    case MessageSent(id) => MessageSentKeeps(w, id);
  }

  lemma SendDataKeeps(w: Wire, c: Channel, o: Outcome)
    requires Invariant(w) && EventOk(w, SendData(c, o))
    ensures Invariant(Step(w, SendData(c, o)))
  {
    if !Busy(w, c) && o.Queued? {
      var v := Step(w, SendData(c, o));
      assert v.slots == w.slots[c := o.id] && v.queued == w.queued[o.id := Some(c)];
      assert forall d :: d in w.slots && w.slots[d] != 0 ==> w.slots[d] != o.id;
    }
  }

  lemma MessageSentKeeps(w: Wire, id: MessageId)
    requires Invariant(w) && id != 0
    ensures Invariant(Step(w, MessageSent(id)))
  {
    if id in w.queued && w.queued[id].Some? {
      var c := w.queued[id].value;
      var v := Step(w, MessageSent(id));
      assert v.slots == w.slots[c := 0] && v.queued == w.queued - {id};
      assert forall d :: d in w.slots && w.slots[d] == id ==> d == c;
    }
  }

  lemma {:induction false} RunKeepsInvariant(w: Wire, es: seq<Event>)
    requires Invariant(w) && RunOk(w, es)
    ensures Invariant(Run(w, es))
    decreases |es|
  {
    if es != [] {
      StepKeepsInvariant(w, es[0]);
      RunKeepsInvariant(Step(w, es[0]), es[1..]);
    }
  }

  /**
   In every interleaving: a channel is busy exactly while one message of it is queued, it
   never has two; every accepted message is finished once, apart from the one that is
   queued; and when nothing is queued any more, no channel is busy.
   */
  lemma RunIsSafe(es: seq<Event>, c: Channel, i: MessageId, j: MessageId)
    requires RunOk(EMPTY_WIRE, es)
    ensures var w := Run(EMPTY_WIRE, es);
            && (Busy(w, c) <==> exists id :: id in w.queued && w.queued[id] == Some(c))
            && (i in w.queued && j in w.queued && w.queued[i] == w.queued[j] == Some(c) ==> i == j)
            && w.accepted[c] == w.finished[c] + (if Busy(w, c) then 1 else 0)
            && (w.queued == map[] ==> !Busy(w, c) && w.accepted[c] == w.finished[c])
  {
    RunKeepsInvariant(EMPTY_WIRE, es);
    var w := Run(EMPTY_WIRE, es);
    if Busy(w, c) {
      assert w.slots[c] in w.queued;
    }
  }

  /** A report frees exactly the channel that recorded its id: no other channel changes,
      and the id is never acknowledged a second time. */
  lemma ReportFreesItsChannel(w: Wire, id: MessageId, c: Channel)
    requires Invariant(w) && id != 0
    ensures var v := Step(w, MessageSent(id));
            && (c in v.slots <==> c in w.slots)
            && (c in w.slots ==> v.slots[c] == if w.slots[c] == id then 0 else w.slots[c])
            && v.accepted == w.accepted
            && v.finished[c] == w.finished[c] + (if c in w.slots && w.slots[c] == id then 1 else 0)
            && v.queued == w.queued - {id}
            && Step(v, MessageSent(id)) == v
  {
  }

  /**
   What a send on an idle channel does: a queued message makes the channel busy with its id
   until that is reported, a message sent at once leaves it idle, and a failure changes
   nothing. No other channel is touched.
   */
  lemma SendOnIdle(w: Wire, c: Channel, o: Outcome)
    requires Invariant(w) && EventOk(w, SendData(c, o)) && !Busy(w, c)
    ensures var v := Step(w, SendData(c, o));
            && v.slots.Keys == w.slots.Keys
            && (forall d :: d in w.slots && d != c ==> v.slots[d] == w.slots[d])
            && (o.Queued? ==>
                  && Busy(v, c) && v.slots[c] == o.id
                  && o.id in v.queued && v.queued[o.id] == Some(c) && v.queued - {o.id} == w.queued
                  && v.finished == w.finished)
            && (!o.Queued? ==> !Busy(v, c) && v.queued == w.queued)
            && (o.SentNow? ==> v.finished == w.finished + multiset{c})
            && (o.Failed? ==> v == w)
            && (!o.Failed? ==> v.accepted == w.accepted + multiset{c})
  {
    if o.Queued? {
      var v := Step(w, SendData(c, o));
      assert v.queued == w.queued[o.id := Some(c)];
      assert o.id !in w.queued;
    }
  }

  /** Any other message is only noted by the watch while it is queued, and touches no channel. */
  lemma SendOtherQueues(w: Wire, o: Outcome)
    requires Invariant(w) && EventOk(w, SendOther(o))
    ensures var v := Step(w, SendOther(o));
            && v.slots == w.slots && v.accepted == w.accepted && v.finished == w.finished
            && (o.Queued? ==> v.queued == w.queued[o.id := None] && v.issued == w.issued + {o.id})
            && (!o.Queued? ==> v == w)
  {
  }

  /** A busy channel takes nothing, whatever the watch would answer. */
  lemma BusyRefuses(w: Wire, c: Channel, o: Outcome)
    requires Busy(w, c)
    ensures Step(w, SendData(c, o)) == w
  {
  }

  /** Once a message is queued its channel stays busy with it, and takes no other one, for as
      long as its id is not reported; whatever else happens. */
  lemma {:induction false} BusyUntilReport(w: Wire, c: Channel, id: MessageId, es: seq<Event>)
    requires Invariant(w) && RunOk(w, es) && id in w.queued && w.queued[id] == Some(c)
    requires MessageSent(id) !in es
    ensures var v := Run(w, es);
            && Busy(v, c) && v.slots[c] == id && id in v.queued && v.queued[id] == Some(c)
            && v.accepted[c] == w.accepted[c] && v.finished[c] == w.finished[c]
    decreases |es|
  {
    if es != [] {
      var v := Step(w, es[0]);
      StepKeepsInvariant(w, es[0]);
      BusyStep(w, c, id, es[0]);
      BusyUntilReport(v, c, id, es[1..]);
    }
  }

  lemma BusyStep(w: Wire, c: Channel, id: MessageId, e: Event)
    requires Invariant(w) && EventOk(w, e) && id in w.queued && w.queued[id] == Some(c) && e != MessageSent(id)
    ensures var v := Step(w, e);
            && id in v.queued && v.queued[id] == Some(c)
            && v.accepted[c] == w.accepted[c] && v.finished[c] == w.finished[c]
  {
  }

  /** One channel by itself: the id that it waits for after an event, 0 if it is idle. */
  function NextWaiting(id: MessageId, e: Event, c: Channel): MessageId {
    match e
    case SendData(d, Queued(i)) => if d == c && id == 0 then i else id
    case MessageSent(i) => if i == id then 0 else id
    case _ => id
  }

  function Waiting(id: MessageId, es: seq<Event>, c: Channel): MessageId
    decreases |es|
  {
    if es == [] then id else Waiting(NextWaiting(id, es[0], c), es[1..], c)
  }

  /** How many sends on the channel are taken: those that do not fail while it is idle. */
  function Taken(id: MessageId, es: seq<Event>, c: Channel): nat
    decreases |es|
  {
    if es == [] then 0
    else
      (if es[0].SendData? && es[0].channel == c && !es[0].outcome.Failed? && id == 0 then 1 else 0)
      + Taken(NextWaiting(id, es[0], c), es[1..], c)
  }

  /**
   In every interleaving each known channel is a one-message machine of its own: it waits
   for the id of the message it queued last until that is reported, and the accepted sends
   are those that did not fail while it was idle. No other channel interferes.
   */
  lemma ChannelsAreIndependent(es: seq<Event>, c: Channel)
    requires RunOk(EMPTY_WIRE, es)
    ensures var w := Run(EMPTY_WIRE, es);
            && (c in w.slots <==> AddChannel(c) in es)
            && (c in w.slots ==> w.slots[c] == Waiting(0, es, c))
            && w.accepted[c] == Taken(0, es, c)
  {
    RunFollowsChannel(EMPTY_WIRE, es, c);
  }

  /** What is recorded for a channel; an unknown one is idle. */
  function Recorded(w: Wire, c: Channel): MessageId { if c in w.slots then w.slots[c] else 0 }

  lemma {:induction false} RunFollowsChannel(w: Wire, es: seq<Event>, c: Channel)
    requires Invariant(w) && RunOk(w, es)
    ensures var v := Run(w, es);
            && (c in v.slots <==> c in w.slots || AddChannel(c) in es)
            && Recorded(v, c) == Waiting(Recorded(w, c), es, c)
            && v.accepted[c] == w.accepted[c] + Taken(Recorded(w, c), es, c)
    decreases |es|
  {
    if es != [] {
      StepKeepsInvariant(w, es[0]);
      StepFollowsChannel(w, es[0], c);
      RunFollowsChannel(Step(w, es[0]), es[1..], c);
      assert es == [es[0]] + es[1..];
    }
  }

  lemma StepFollowsChannel(w: Wire, e: Event, c: Channel)
    requires Invariant(w) && EventOk(w, e)
    ensures var v := Step(w, e);
            && (c in v.slots <==> c in w.slots || e == AddChannel(c))
            && Recorded(v, c) == NextWaiting(Recorded(w, c), e, c)
            && v.accepted[c] == w.accepted[c] + Taken(Recorded(w, c), [e], c)
  {
    assert Taken(NextWaiting(Recorded(w, c), e, c), [], c) == 0;
    match e
    case AddChannel(_) =>
    case SendData(d, o) =>
      if !Busy(w, d) {
        SendOnIdle(w, d, o);
      }
    case SendOther(_) =>
    case MessageSent(id) =>
      ReportFreesItsChannel(w, id, c);
  }

  // ------------------------------------------------------------------------- the client

  /** An element of the `data_seqs` array. */
  datatype DataSeq = DataSeq(channel: Channel, seq_: MessageId)

  /** The array has one element for every known channel, with the id recorded for it. */
  ghost predicate Matches(ds: seq<DataSeq>, slots: map<Channel, MessageId>) {
    && (forall i, j :: 0 <= i < j < |ds| ==> ds[i].channel != ds[j].channel)
    && (forall i :: 0 <= i < |ds| ==> ds[i].channel in slots && slots[ds[i].channel] == ds[i].seq_)
    && (forall c :: c in slots ==> exists i :: 0 <= i < |ds| && ds[i].channel == c)
  }

  lemma MatchesAppend(ds: seq<DataSeq>, slots: map<Channel, MessageId>, c: Channel)
    requires Matches(ds, slots) && c !in slots
    ensures Matches(ds + [DataSeq(c, 0)], slots[c := 0])
  {
    var es, more := ds + [DataSeq(c, 0)], slots[c := 0];
    forall d | d in more ensures exists i :: 0 <= i < |es| && es[i].channel == d {
      if d == c {
        assert es[|ds|].channel == d;
      } else {
        var i :| 0 <= i < |ds| && ds[i].channel == d;
        assert es[i].channel == d;
      }
    }
  }

  lemma MatchesUpdate(ds: seq<DataSeq>, slots: map<Channel, MessageId>, i: nat, id: MessageId)
    requires Matches(ds, slots) && i < |ds|
    ensures Matches(ds[i := ds[i].(seq_ := id)], slots[ds[i].channel := id])
  {
    var es, more := ds[i := ds[i].(seq_ := id)], slots[ds[i].channel := id];
    forall d | d in more ensures exists j :: 0 <= j < |es| && es[j].channel == d {
      var j :| 0 <= j < |ds| && ds[j].channel == d;
      assert es[j].channel == d;
    }
  }

  /** The array with the id recorded for one channel, and nothing else changed. */
  ghost predicate RecordedIn(ds: seq<DataSeq>, before: seq<DataSeq>, c: Channel, id: MessageId) {
    && |ds| == |before|
    && forall i :: 0 <= i < |ds| ==> ds[i] == if before[i].channel == c then DataSeq(c, id) else before[i]
  }

  /** The array without one id. */
  ghost predicate ClearedIn(ds: seq<DataSeq>, before: seq<DataSeq>, id: MessageId) {
    && |ds| == |before|
    && forall i :: 0 <= i < |ds| ==> ds[i] == if before[i].seq_ == id then DataSeq(before[i].channel, 0) else before[i]
  }

  lemma RecordingClears(ds: seq<DataSeq>, before: seq<DataSeq>, w: Wire, id: MessageId)
    requires Invariant(w) && Matches(before, w.slots) && id != 0
    requires if id in w.queued && w.queued[id].Some? then RecordedIn(ds, before, w.queued[id].value, 0)
             else ds == before
    ensures ClearedIn(ds, before, id)
  {
    forall i | 0 <= i < |before|
      ensures before[i].seq_ == id <==> id in w.queued && w.queued[id] == Some(before[i].channel)
    {
      assert w.slots[before[i].channel] == before[i].seq_;
    }
  }

  /** The messages handed to `do_send_messages`. */
  datatype Message = Data(channel: Channel) | Other

  class Client {
    var dataSeqs: seq<DataSeq>
    /** The transports of the channels that have one. */
    var transports: map<Channel, nat>
    ghost var wire: Wire

    ghost predicate Valid()
      reads this
    {
      Invariant(wire) && Matches(dataSeqs, wire.slots)
    }

    constructor ()
      ensures Valid() && wire == EMPTY_WIRE && transports == map[]
    {
      dataSeqs, transports, wire := [], map[], EMPTY_WIRE;
    }

    /** `get_data_seq_element`: the index, or the length of the array. */
    method FindElement(channel: Channel) returns (i: nat)
      requires Valid()
      ensures channel in wire.slots ==> i < |dataSeqs| && dataSeqs[i].channel == channel
      ensures channel !in wire.slots ==> i == |dataSeqs|
    {
      i := 0;
      while i < |dataSeqs|
        invariant i <= |dataSeqs| && forall j :: 0 <= j < i ==> dataSeqs[j].channel != channel
      {
        if dataSeqs[i].channel == channel {
          return;
        }
        i := i + 1;
      }
    }

    /** `add_data_seq`. */
    method AddDataSeq(channel: Channel)
      requires Valid()
      modifies this`dataSeqs, this`wire
      ensures Valid() && wire == Step(old(wire), AddChannel(channel))
      ensures dataSeqs == old(dataSeqs) + if old(channel in wire.slots) then [] else [DataSeq(channel, 0)]
    {
      var i := FindElement(channel);
      if i == |dataSeqs| {
        dataSeqs := dataSeqs + [DataSeq(channel, 0)];
        MatchesAppend(old(dataSeqs), wire.slots, channel);
        wire := Step(wire, AddChannel(channel));
      }
    }

    /** `set_data_seq`, which also updates what the protocol says. */
    method SetDataSeq(channel: Channel, id: MessageId, ghost w: Wire)
      requires Valid() && channel in wire.slots
      requires Invariant(w) && w.slots == wire.slots[channel := id]
      modifies this`dataSeqs, this`wire
      ensures Valid() && wire == w && RecordedIn(dataSeqs, old(dataSeqs), channel, id)
    {
      var i := FindElement(channel);
      MatchesUpdate(dataSeqs, wire.slots, i, id);
      dataSeqs := dataSeqs[i := dataSeqs[i].(seq_ := id)];
      wire := w;
    }

    /** `get_data_seq`. */
    method GetDataSeq(channel: Channel) returns (id: MessageId)
      requires Valid() && channel in wire.slots
      ensures id == wire.slots[channel]
    {
      var i := FindElement(channel);
      id := dataSeqs[i].seq_;
    }

    /** `get_data_channel`: the channel that waits for an id. */
    method GetDataChannel(id: MessageId) returns (channel: Option<Channel>)
      requires Valid() && id != 0
      ensures channel == if id in wire.queued then wire.queued[id] else None
    {
      var i := 0;
      while i < |dataSeqs|
        invariant i <= |dataSeqs| && forall j :: 0 <= j < i ==> dataSeqs[j].seq_ != id
      {
        if dataSeqs[i].seq_ == id {
          return Some(dataSeqs[i].channel);
        }
        i := i + 1;
      }
      channel := None;
    }

    /** `do_check_back_pressure`. */
    method CheckBackPressure(channel: Channel) returns (busy: bool)
      requires Valid() && channel in wire.slots
      ensures busy <==> Busy(wire, channel)
    {
      var id := GetDataSeq(channel);
      busy := id != 0;
    }

    /** The first data message of a list, which tells the channel of the list. */
    function FirstData(messages: seq<Message>): (c: Option<Channel>)
      ensures c.Some? ==>
                exists i :: 0 <= i < |messages| && messages[i] == Data(c.value)
                            && forall j :: 0 <= j < i ==> messages[j] == Other
      ensures c.None? ==> forall i :: 0 <= i < |messages| ==> messages[i] == Other
    {
      if messages == [] then None
      else if messages[0].Data? then Some(messages[0].channel)
      else FirstData(messages[1..])
    }

    ghost function EventOf(messages: seq<Message>, outcome: Outcome): Event {
      match FirstData(messages)
      case None => SendOther(outcome)
      case Some(c) => SendData(c, outcome)
    }

    /** `do_send_messages`. `sent` is the transport that is told at once that the message
        was sent. */
    method DoSendMessages(messages: seq<Message>, outcome: Outcome)
      returns (ok: bool, sent: Option<nat>)
      requires Valid() && EventOk(wire, EventOf(messages, outcome))
      requires FirstData(messages).Some? ==> !Busy(wire, FirstData(messages).value)
      modifies this`dataSeqs, this`wire
      ensures Valid() && wire == Step(old(wire), EventOf(messages, outcome))
      // a queued data message is recorded for its channel
      ensures if outcome.Queued? && FirstData(messages).Some?
              then RecordedIn(dataSeqs, old(dataSeqs), FirstData(messages).value, outcome.id)
              else dataSeqs == old(dataSeqs)
      ensures ok <==> !outcome.Failed?
      ensures sent.Some? <==>
                outcome.SentNow? && FirstData(messages).Some? && FirstData(messages).value in transports
      ensures sent.Some? ==> sent.value == transports[FirstData(messages).value]
    {
      sent := None;
      if outcome.Failed? {
        return false, None;
      }
      ok := true;
      ghost var e := EventOf(messages, outcome);
      StepKeepsInvariant(wire, e);
      var i := 0;
      while i < |messages|
        invariant i <= |messages| && FirstData(messages[i..]) == FirstData(messages)
        invariant wire == old(wire) && dataSeqs == old(dataSeqs) && sent == None
      {
        assert messages[i..][1..] == messages[i + 1..];
        if messages[i].Data? {
          var channel := messages[i].channel;
          if outcome.Queued? {
            SetDataSeq(channel, outcome.id, Step(wire, e));
          } else {
            wire := Step(wire, e);
            if channel in transports {
              sent := Some(transports[channel]);
            }
          }
          return;
        }
        i := i + 1;
      }
      wire := Step(wire, e);
    }

    /** `do_send_data`. */
    method DoSendData(channel: Channel, outcome: Outcome) returns (ok: bool, sent: Option<nat>)
      requires Valid() && EventOk(wire, SendData(channel, outcome))
      modifies this`dataSeqs, this`wire
      ensures Valid() && wire == Step(old(wire), SendData(channel, outcome))
      ensures ok <==> !old(Busy(wire, channel)) && !outcome.Failed?
      // a message that is queued makes its channel busy, and accepted ones are counted
      ensures Busy(wire, channel) <==> old(Busy(wire, channel)) || outcome.Queued?
      ensures if ok && outcome.Queued? then RecordedIn(dataSeqs, old(dataSeqs), channel, outcome.id)
              else dataSeqs == old(dataSeqs)
      ensures wire.accepted == old(wire.accepted) + if ok then multiset{channel} else multiset{}
      ensures sent == if ok && outcome.SentNow? && channel in transports then Some(transports[channel]) else None
    {
      var id := GetDataSeq(channel);
      if id != 0 {
        return false, None;
      }
      ok, sent := DoSendMessages([Data(channel)], outcome);
    }

    /** `do_send_data_list`. An empty list is handed to the watch as well. */
    method DoSendDataList(channel: Channel, n: nat, outcome: Outcome) returns (ok: bool, sent: Option<nat>)
      requires Valid() && channel in wire.slots
      requires EventOk(wire, if n == 0 then SendOther(outcome) else SendData(channel, outcome))
      modifies this`dataSeqs, this`wire
      ensures Valid()
      ensures wire == if n > 0 then Step(old(wire), SendData(channel, outcome))
                      else if Busy(old(wire), channel) then old(wire)
                      else Step(old(wire), SendOther(outcome))
      ensures ok <==> !old(Busy(wire, channel)) && !outcome.Failed?
      ensures Busy(wire, channel) <==> old(Busy(wire, channel)) || (n > 0 && outcome.Queued?)
      ensures if n > 0 && ok && outcome.Queued? then RecordedIn(dataSeqs, old(dataSeqs), channel, outcome.id)
              else dataSeqs == old(dataSeqs)
    {
      var id := GetDataSeq(channel);
      if id != 0 {
        return false, None;
      }
      var messages := seq(n, _ => Data(channel));
      assert n > 0 ==> messages[0] == Data(channel);
      ok, sent := DoSendMessages(messages, outcome);
    }

    /** `message_sent`, the report of the watch. `told` is the transport that is told. */
    method HandleMessageSent(id: MessageId) returns (told: Option<nat>)
      requires Valid() && EventOk(wire, MessageSent(id))
      modifies this`dataSeqs, this`wire
      ensures Valid() && wire == Step(old(wire), MessageSent(id))
      // the channel that waited for the id is idle
      ensures ClearedIn(dataSeqs, old(dataSeqs), id)
      ensures told.Some? <==>
                && id in old(wire.queued) && old(wire.queued)[id].Some?
                && old(wire.queued)[id].value in transports
      ensures told.Some? ==> told.value == transports[old(wire.queued)[id].value]
    {
      var channel := GetDataChannel(id);
      ClearChannel(channel, id);
      told := None;
      if channel.Some? && channel.value in transports {
        told := Some(transports[channel.value]);
      }
    }

    /** Make the channel that waits for an id idle, if there is one. */
    method ClearChannel(channel: Option<Channel>, id: MessageId)
      requires Valid() && EventOk(wire, MessageSent(id))
      requires channel == if id in wire.queued then wire.queued[id] else None
      modifies this`dataSeqs, this`wire
      ensures Valid() && wire == Step(old(wire), MessageSent(id))
      ensures ClearedIn(dataSeqs, old(dataSeqs), id)
    {
      ghost var before, w := dataSeqs, wire;
      StepKeepsInvariant(wire, MessageSent(id));
      if channel.Some? {
        SetDataSeq(channel.value, 0, Step(wire, MessageSent(id)));
      } else {
        wire := Step(wire, MessageSent(id));
      }
      RecordingClears(dataSeqs, before, w, id);
    }
  }
}
