/**
 The receiver side of one MQTT session: which acknowledgements a client gets for its packets, and
 which messages are forwarded, to the MQTT side and to the DDS side.  Packets are parsed values; the
 encoding of a publish packet is a parameter that is only known to decode to what was encoded.
 */
module MqttSession {
  import opened Options

  type Topic(==, !new)
  type Payload(==, !new)
  type Bytes(!new, ==)

  datatype Message = Message(topic: Topic, payload: Payload)

  /** What a client sends.  A subscription is acknowledged; other packets are not looked at. */
  datatype Packet =
    | Connect(client: string)
    | Subscribe
    | Publish(qos: nat, id: nat, message: Message)
    | Puback(id: nat)
    | Pubrec(id: nat)
    | Pubrel(id: nat)
    | Pubcomp(id: nat)
    | Other

  /** What a task for the MQTT side makes the broker send; `Nothing` is the empty packet. */
  datatype Reply =
    | SendConnack
    | SendSuback
    | SendPuback(id: nat)
    | SendPubrec(id: nat)
    | SendPubrel(id: nat)
    | SendPubcomp(id: nat)
    | SendPublish(bytes: Bytes)
    | Nothing

  datatype MqttTask = MqttTask(id: nat, option: nat, reply: Reply, client: string)

  datatype BrokerTask = BrokerTask(id: nat, message: Message)

  /** Task options: what the writer thread does with a task. */
  const FORWARD := 0
  const SUBACK := 1
  const CONNACK := 4
  const ACKNOWLEDGE := 5

  /** Forwards are for all clients. */
  const EVERYBODY := "-99"

  /** How publish packets are encoded; decoding gives back what was encoded. */
  datatype Codec = Codec(encode: Packet -> Bytes, decode: Bytes -> Packet) {
    ghost predicate RoundTrips() {
      forall p: Packet :: p.Publish? ==> decode(encode(p)) == p
    }
  }

  // ---------- What a client may expect of its packets `ps` ----------

  /** The message of the last QoS 2 publish with this id that was not released since. */
  ghost function Stored(ps: seq<Packet>, id: nat): Option<Message> {
    if ps == [] then None
    else
      var p := ps[|ps| - 1];
      if p == Pubrel(id) then None
      else if p.Publish? && p.qos == 2 && p.id == id then Some(p.message)
      else Stored(ps[..|ps| - 1], id)
  }

  /** Every release is for a stored id. */
  ghost predicate Proper(ps: seq<Packet>) {
    ps == [] ||
    (var before, p := ps[..|ps| - 1], ps[|ps| - 1];
     Proper(before) && (p.Pubrel? ==> Stored(before, p.id).Some?))
  }

  /** The publish packets to be forwarded: those of other than QoS 2 at once, those of QoS 2 when released. */
  ghost function Forwards(ps: seq<Packet>): seq<Packet> {
    if ps == [] then []
    else
      var before, p := ps[..|ps| - 1], ps[|ps| - 1];
      Forwards(before) +
      (if p.Publish? && p.qos != 2 then [p]
       else if p.Pubrel? && Stored(before, p.id).Some? then [Publish(2, p.id, Stored(before, p.id).value)]
       else [])
  }

  /** The messages of publish packets. */
  ghost function Messages(ps: seq<Packet>): seq<Message> {
    if ps == [] then [] else Messages(ps[..|ps| - 1]) + if ps[|ps| - 1].Publish? then [ps[|ps| - 1].message] else []
  }

  /** The client id the session knows. */
  ghost function ClientOf(ps: seq<Packet>): string {
    if ps == [] then ""
    else if ps[|ps| - 1].Connect? then ps[|ps| - 1].client
    else ClientOf(ps[..|ps| - 1])
  }

  /** An answer to the client: the option of its task, what it sends, and to whom. */
  datatype Answer = Answer(option: nat, reply: Reply, client: string)

  /** The answer a packet calls for. */
  function AnswerTo(p: Packet, client: string): Option<Answer> {
    match p
    case Connect(_) => Some(Answer(CONNACK, SendConnack, client))
    case Subscribe => Some(Answer(SUBACK, SendSuback, client))
    case Publish(qos, id, _) =>
      if qos == 0 then None
      else if qos == 1 then Some(Answer(ACKNOWLEDGE, SendPuback(id), client))
      else if qos == 2 then Some(Answer(ACKNOWLEDGE, SendPubrec(id), client))
      else Some(Answer(ACKNOWLEDGE, Nothing, client))
    case Pubrec(id) => Some(Answer(ACKNOWLEDGE, SendPubrel(id), client))
    case Pubrel(id) => Some(Answer(ACKNOWLEDGE, SendPubcomp(id), client))
    case Puback(_) => None
    case Pubcomp(_) => None
    case Other => None
  }

  function Optional<T>(x: Option<T>): seq<T> { if x.Some? then [x.value] else [] }

  ghost function Answers(ps: seq<Packet>): seq<Answer> {
    if ps == [] then []
    else Answers(ps[..|ps| - 1]) + Optional(AnswerTo(ps[|ps| - 1], ClientOf(ps)))
  }

  lemma OneMore(ps: seq<Packet>, p: Packet)
    ensures Forwards(ps + [p]) == Forwards(ps) +
            (if p.Publish? && p.qos != 2 then [p]
             else if p.Pubrel? && Stored(ps, p.id).Some? then [Publish(2, p.id, Stored(ps, p.id).value)]
             else [])
    ensures Answers(ps + [p]) == Answers(ps) + Optional(AnswerTo(p, ClientOf(ps + [p])))
    ensures ClientOf(ps + [p]) == if p.Connect? then p.client else ClientOf(ps)
    ensures Proper(ps + [p]) <==> Proper(ps) && (p.Pubrel? ==> Stored(ps, p.id).Some?)
    ensures forall id: nat :: Stored(ps + [p], id) ==
                              if p == Pubrel(id) then None
                              else if p.Publish? && p.qos == 2 && p.id == id then Some(p.message)
                              else Stored(ps, id)
  {
    assert (ps + [p])[..|ps|] == ps;
  }

  lemma MessagesOf(ps: seq<Packet>, p: Packet)
    requires p.Publish?
    ensures Messages(ps + [p]) == Messages(ps) + [p.message]
  {
    assert (ps + [p])[..|ps|] == ps;
  }

  // ---------- QoS 2: exactly once ----------

  /** Nothing in `mid` releases the id or publishes something else under it. */
  ghost predicate OnlyRepeats(mid: seq<Packet>, id: nat, m: Message) {
    forall i :: 0 <= i < |mid| ==>
      && mid[i] != Pubrel(id)
      && (mid[i].Publish? && mid[i].qos == 2 && mid[i].id == id ==> mid[i].message == m)
  }

  lemma {:induction false} StaysStored(ps: seq<Packet>, mid: seq<Packet>, id: nat, m: Message)
    requires Stored(ps, id) == Some(m) && OnlyRepeats(mid, id, m)
    ensures Stored(ps + mid, id) == Some(m)
  {
    if mid == [] {
      assert ps + mid == ps;
    } else {
      var last := |mid| - 1;
      StaysStored(ps, mid[..last], id, m);
      assert ps + mid == (ps + mid[..last]) + [mid[last]];
      OneMore(ps + mid[..last], mid[last]);
    }
  }

  /**
   A QoS 2 packet is forwarded once, by the release: neither its publish nor anything up to the
   release forwards it, however often the publish is repeated, and the release forwards it as it came.
   */
  lemma ForwardedByItsRelease(ps: seq<Packet>, id: nat, m: Message, mid: seq<Packet>)
    requires OnlyRepeats(mid, id, m)
    ensures Forwards(ps + [Publish(2, id, m)]) == Forwards(ps)
    ensures var open := ps + [Publish(2, id, m)] + mid;
      && Forwards(open + [Pubrel(id)]) == Forwards(open) + [Publish(2, id, m)]
      && Stored(open + [Pubrel(id)], id) == None
  {
    OneMore(ps, Publish(2, id, m));
    StaysStored(ps + [Publish(2, id, m)], mid, id, m);
    OneMore(ps + [Publish(2, id, m)] + mid, Pubrel(id));
  }

  /** Sessions that store the same go on forwarding the same. */
  lemma {:induction false} SameFuture(a: seq<Packet>, b: seq<Packet>, rest: seq<Packet>)
    requires forall id: nat :: Stored(a, id) == Stored(b, id)
    requires Forwards(a) == Forwards(b) && (Proper(a) <==> Proper(b))
    ensures forall id: nat :: Stored(a + rest, id) == Stored(b + rest, id)
    ensures Forwards(a + rest) == Forwards(b + rest) && (Proper(a + rest) <==> Proper(b + rest))
  {
    if rest == [] {
      assert a + rest == a && b + rest == b;
    } else {
      var last := |rest| - 1;
      SameFuture(a, b, rest[..last]);
      assert a + rest == (a + rest[..last]) + [rest[last]];
      assert b + rest == (b + rest[..last]) + [rest[last]];
      OneMore(a + rest[..last], rest[last]);
      OneMore(b + rest[..last], rest[last]);
    }
  }

  /** Repeating a QoS 2 publish before its release changes nothing in what is ever forwarded. */
  lemma RepeatsDoNotMatter(ps: seq<Packet>, id: nat, m: Message, mid: seq<Packet>, rest: seq<Packet>)
    requires OnlyRepeats(mid, id, m)
    ensures var open := ps + [Publish(2, id, m)] + mid;
      && Forwards(open + [Publish(2, id, m)] + rest) == Forwards(open + rest)
      && (Proper(open + [Publish(2, id, m)] + rest) <==> Proper(open + rest))
  {
    var open := ps + [Publish(2, id, m)] + mid;
    OneMore(ps, Publish(2, id, m));
    StaysStored(ps + [Publish(2, id, m)], mid, id, m);
    OneMore(open, Publish(2, id, m));
    SameFuture(open + [Publish(2, id, m)], open, rest);
  }

  /** `more` is what the client is to be answered to packet `p`: an acknowledgement of its kind and id, or none. */
  ghost predicate Acknowledges(more: seq<Answer>, p: Packet) {
    && |more| == (if p.Other? || p.Puback? || p.Pubcomp? || (p.Publish? && p.qos == 0) then 0 else 1)
    && forall a :: a in more ==>
         && (p.Connect? ==> a == Answer(CONNACK, SendConnack, p.client))
         && (p.Subscribe? ==> a.option == SUBACK && a.reply == SendSuback)
         && (!p.Connect? && !p.Subscribe? ==> a.option == ACKNOWLEDGE)
         && (p.Publish? && p.qos == 1 ==> a.reply == SendPuback(p.id))
         && (p.Publish? && p.qos == 2 ==> a.reply == SendPubrec(p.id))
         && (p.Pubrec? ==> a.reply == SendPubrel(p.id))
         && (p.Pubrel? ==> a.reply == SendPubcomp(p.id))
  }

  /** The client the last connect packet named. */
  lemma {:induction false} ClientIsLastConnected(ps: seq<Packet>, i: nat)
    requires i < |ps| && ps[i].Connect? && forall j :: i < j < |ps| ==> !ps[j].Connect?
    ensures ClientOf(ps) == ps[i].client
  {
    if i < |ps| - 1 {
      ClientIsLastConnected(ps[..|ps| - 1], i);
    }
  }

  /**
   Each packet is answered when it comes, by the acknowledgement of its kind with its id, to the client
   of the session; and what was answered and forwarded stays, so answers are in the order of the packets.
   */
  lemma {:induction false} EachIsAnswered(ps: seq<Packet>, i: nat)
    requires i < |ps|
    ensures |Answers(ps[..i])| <= |Answers(ps[..i + 1])| && Answers(ps[..i]) <= Answers(ps[..i + 1])
    ensures var more := Answers(ps[..i + 1])[|Answers(ps[..i])|..];
      Acknowledges(more, ps[i]) && forall a :: a in more ==> a.client == ClientOf(ps[..i + 1])
    ensures Answers(ps[..i + 1]) <= Answers(ps) && Forwards(ps[..i + 1]) <= Forwards(ps)
  {
    hide Forwards, Answers, Stored, ClientOf, Proper;
    assert ps[..i + 1] == ps[..i] + [ps[i]];
    OneMore(ps[..i], ps[i]);
    if i + 1 < |ps| {
      var last := |ps| - 1;
      EachIsAnswered(ps[..last], i);
      assert ps == ps[..last] + [ps[last]];
      OneMore(ps[..last], ps[last]);
      assert ps[..last][..i + 1] == ps[..i + 1];
    } else {
      assert ps[..i + 1] == ps;
    }
  }

  /** Only publish packets that were received are forwarded, with the quality of service and id they came with. */
  lemma {:induction false} ForwardsWereReceived(ps: seq<Packet>, p: Packet)
    requires p in Forwards(ps)
    ensures p in ps && p.Publish?
  {
    var before, last := ps[..|ps| - 1], ps[|ps| - 1];
    if p in Forwards(before) {
      ForwardsWereReceived(before, p);
    } else if last.Pubrel? {
      StoredWasReceived(before, last.id);
    }
  }

  lemma {:induction false} StoredWasReceived(ps: seq<Packet>, id: nat)
    requires Stored(ps, id).Some?
    ensures Publish(2, id, Stored(ps, id).value) in ps
  {
    var p := ps[|ps| - 1];
    if !(p.Publish? && p.qos == 2 && p.id == id) {
      StoredWasReceived(ps[..|ps| - 1], id);
    }
  }

  // ---------- What the tasks amount to ----------

  /** The packets forwarded to all clients by the tasks of a queue. */
  ghost function ForwardedBy(tasks: seq<MqttTask>, codec: Codec): seq<Packet> {
    if tasks == [] then []
    else
      var before, t := tasks[..|tasks| - 1], tasks[|tasks| - 1];
      ForwardedBy(before, codec) +
      if t.option == FORWARD && t.client == EVERYBODY && t.reply.SendPublish?
      then [codec.decode(t.reply.bytes)] else []
  }

  ghost function ForwardedToDds(tasks: seq<BrokerTask>): seq<Message> {
    if tasks == [] then [] else ForwardedToDds(tasks[..|tasks| - 1]) + [tasks[|tasks| - 1].message]
  }

  ghost function AnswersIn(tasks: seq<MqttTask>): seq<Answer> {
    if tasks == [] then []
    else
      var before, t := tasks[..|tasks| - 1], tasks[|tasks| - 1];
      AnswersIn(before) + if t.option != FORWARD then [Answer(t.option, t.reply, t.client)] else []
  }

  /** task_count, which all sessions count on. */
  class TaskCounter {
    var next: nat
  }

  class Session {
    const codec: Codec
    const counter: TaskCounter
    var clientId: string                  // of connected_client
    var publishMap: map<nat, Bytes>       // MQTT_publish_map
    var mqttTasks: seq<MqttTask>          // all ever put into MQTT_broker_task_queue
    var ddsTasks: seq<BrokerTask>         // all ever put into DDS_task_queue

    ghost var received: seq<Packet>

    /** The stored packets are the QoS 2 publishes that wait for their release. */
    ghost predicate Remembers()
      reads this
    {
      forall id: nat ::
        && (id in publishMap <==> Stored(received, id).Some?)
        && (id in publishMap ==> publishMap[id] == codec.encode(Publish(2, id, Stored(received, id).value)))
    }

    /** Every packet received so far has had exactly the effects it should. */
    ghost predicate Valid()
      reads this, counter
    {
      && codec.RoundTrips() && Proper(received) && Remembers()
      && clientId == ClientOf(received)
      && Did(Forwards(received), Answers(received))
    }

    constructor (codec: Codec, counter: TaskCounter)
      requires codec.RoundTrips()
      ensures Valid() && received == [] && this.codec == codec && this.counter == counter
    {
      this.codec := codec;
      this.counter := counter;
      clientId := "";
      publishMap := map[];
      mqttTasks, ddsTasks := [], [];
      received := [];
    }

    /** These packets were forwarded, and their messages to the DDS side, and these answers given; task ids rise. */
    ghost predicate Did(forwarded: seq<Packet>, answers: seq<Answer>)
      reads this, counter
    {
      && ForwardedBy(mqttTasks, codec) == forwarded && ForwardedToDds(ddsTasks) == Messages(forwarded)
      && AnswersIn(mqttTasks) == answers && |mqttTasks| == |forwarded| + |answers|
      && (forall i :: 0 <= i < |mqttTasks| ==> mqttTasks[i].id < counter.next)
      && (forall i, j :: 0 <= i < j < |mqttTasks| ==> mqttTasks[i].id < mqttTasks[j].id)
    }

    /** The tasks from the `n`-th on have ids that were not used before the counter was at `next`. */
    ghost predicate NewIds(n: nat, next: nat)
      reads this
    {
      forall i :: n <= i < |mqttTasks| ==> next <= mqttTasks[i].id
    }

    lemma IdsBelow()
      requires Valid()
      ensures forall i :: 0 <= i < |mqttTasks| ==> mqttTasks[i].id < counter.next
    {
    }

    /** Tasks of other sessions take ids in between. */
    twostate lemma OthersCount()
      requires old(Valid()) && unchanged(this) && old(counter.next) <= counter.next
      ensures Valid()
    {
    }

    method Send(option: nat, reply: Reply, client: string)
      modifies counter, this`mqttTasks
      ensures mqttTasks == old(mqttTasks) + [MqttTask(old(counter.next), option, reply, client)]
      ensures counter.next == old(counter.next) + 1
      ensures option != FORWARD ==> ForwardedBy(mqttTasks, codec) == old(ForwardedBy(mqttTasks, codec))
      ensures option == FORWARD && client == EVERYBODY && reply.SendPublish? ==>
                ForwardedBy(mqttTasks, codec) == old(ForwardedBy(mqttTasks, codec)) + [codec.decode(reply.bytes)]
      ensures AnswersIn(mqttTasks) == old(AnswersIn(mqttTasks)) + if option != FORWARD then [Answer(option, reply, client)] else []
    {
      mqttTasks := mqttTasks + [MqttTask(counter.next, option, reply, client)];
      counter.next := counter.next + 1;
      assert mqttTasks[..|mqttTasks| - 1] == old(mqttTasks);
    }

    /** The DDS task takes the id the next MQTT task will have. */
    method SendToDds(message: Message)
      modifies this`ddsTasks
      ensures ddsTasks == old(ddsTasks) + [BrokerTask(counter.next, message)]
      ensures ForwardedToDds(ddsTasks) == old(ForwardedToDds(ddsTasks)) + [message]
    {
      ddsTasks := ddsTasks + [BrokerTask(counter.next, message)];
      assert ddsTasks[..|ddsTasks| - 1] == old(ddsTasks);
    }

    /** A forward to the MQTT clients. */
    method SendForward(publish: Packet)
      requires codec.RoundTrips() && publish.Publish?
      modifies counter, this`mqttTasks
      ensures mqttTasks == old(mqttTasks) + [MqttTask(old(counter.next), FORWARD, SendPublish(codec.encode(publish)), EVERYBODY)]
      ensures counter.next == old(counter.next) + 1
      ensures ForwardedBy(mqttTasks, codec) == old(ForwardedBy(mqttTasks, codec)) + [publish]
      ensures AnswersIn(mqttTasks) == old(AnswersIn(mqttTasks))
    {
      Send(FORWARD, SendPublish(codec.encode(publish)), EVERYBODY);
    }

    /** message_process. */
    method Process(p: Packet)
      requires Valid() && (p.Pubrel? ==> p.id in publishMap)
      modifies this, counter
      ensures Valid() && received == old(received) + [p] && old(counter.next) <= counter.next
      ensures old(mqttTasks) <= mqttTasks && old(ddsTasks) <= ddsTasks
      ensures NewIds(|old(mqttTasks)|, old(counter.next))
    {
      hide ForwardedBy, ForwardedToDds, AnswersIn, Forwards, Messages, Answers, Proper, Stored, ClientOf, Codec.RoundTrips;
      OneMore(received, p);
      assert Forwards(received) + [] == Forwards(received);
      match p {
      case Connect(client) =>
        clientId := client;
        Send(CONNACK, SendConnack, clientId);
      case Subscribe =>
        Send(SUBACK, SendSuback, clientId);
      case Pubrec(id) =>
        Send(ACKNOWLEDGE, SendPubrel(id), clientId);
      case Pubrel(id) =>
        ProcessPubrel(id);
      case Publish(qos, id, message) =>
        ProcessPublish(qos, id, message);
      case Puback(_) =>
      case Pubcomp(_) =>
      case Other =>
      }
      received := received + [p];
    }

    method ProcessPubrel(id: nat)
      requires Valid() && id in publishMap
      modifies this`publishMap, counter, this`mqttTasks, this`ddsTasks
      ensures publishMap == old(publishMap) - {id} && old(mqttTasks) <= mqttTasks && old(ddsTasks) <= ddsTasks
      ensures old(counter.next) <= counter.next && NewIds(|old(mqttTasks)|, old(counter.next))
      ensures Stored(received, id).Some?
      ensures Did(Forwards(received) + [Publish(2, id, Stored(received, id).value)], Answers(received) + [Answer(ACKNOWLEDGE, SendPubcomp(id), clientId)])
    {
      hide ForwardedBy, ForwardedToDds, AnswersIn, Forwards, Answers, Messages, Proper;
      Send(ACKNOWLEDGE, SendPubcomp(id), clientId);
      var bytes := publishMap[id];
      publishMap := publishMap - {id};
      var publish := codec.decode(bytes);
      assert publish == Publish(2, id, Stored(received, id).value);
      SendToDds(publish.message);
      assert bytes == codec.encode(publish);
      SendForward(publish);
      MessagesOf(Forwards(received), publish);
    }

    method ProcessPublish(qos: nat, id: nat, message: Message)
      requires Valid()
      modifies this`publishMap, counter, this`mqttTasks, this`ddsTasks
      ensures old(mqttTasks) <= mqttTasks && old(ddsTasks) <= ddsTasks && old(counter.next) <= counter.next
      ensures NewIds(|old(mqttTasks)|, old(counter.next))
      ensures publishMap == if qos == 2 then old(publishMap)[id := codec.encode(Publish(2, id, message))] else old(publishMap)
      ensures Did(Forwards(received) + if qos != 2 then [Publish(qos, id, message)] else [],
                  Answers(received) + Optional(AnswerTo(Publish(qos, id, message), clientId)))
    {
      hide ForwardedBy, ForwardedToDds, AnswersIn, Forwards, Answers, Messages, Proper, Stored;
      MessagesOf(Forwards(received), Publish(qos, id, message));
      assert Forwards(received) + [] == Forwards(received);
      if qos != 0 {
        var reply := Nothing;
        if qos == 1 {
          reply := SendPuback(id);
        } else if qos == 2 {
          reply := SendPubrec(id);
          publishMap := publishMap[id := codec.encode(Publish(qos, id, message))];
        }
        Send(ACKNOWLEDGE, reply, clientId);
      }
      if qos != 2 {
        SendForward(Publish(qos, id, message));
        SendToDds(message);
      }
    }
  }

  /** The sessions of a broker count on one counter, and no two tasks of theirs have the same id. */
  ghost predicate AllValid(sessions: seq<Session>, counter: TaskCounter)
    reads sessions, counter
  {
    EachValid(sessions, counter) && UniqueIds(sessions)
  }

  ghost predicate EachValid(sessions: seq<Session>, counter: TaskCounter)
    reads sessions, counter
  {
    forall s :: s in sessions ==> s.counter == counter && s.Valid()
  }

  ghost predicate UniqueIds(sessions: seq<Session>)
    reads sessions
  {
    forall i, j :: 0 <= i < j < |sessions| ==> sessions[i] != sessions[j] && DifferentIds(sessions[i], sessions[j])
  }

  ghost predicate DifferentIds(s: Session, t: Session)
    reads s, t
  {
    forall i, j :: 0 <= i < |s.mqttTasks| && 0 <= j < |t.mqttTasks| ==> s.mqttTasks[i].id != t.mqttTasks[j].id
  }

  /** A packet for one of the sessions: the others stay as they are, and task ids stay unique over all sessions. */
  method ProcessFor(sessions: seq<Session>, counter: TaskCounter, i: nat, p: Packet)
    requires AllValid(sessions, counter) && i < |sessions| && (p.Pubrel? ==> p.id in sessions[i].publishMap)
    modifies sessions[i], counter
    ensures AllValid(sessions, counter) && sessions[i].received == old(sessions[i].received) + [p]
  {
    hide Session.Valid;
    forall s | s in sessions ensures forall j :: 0 <= j < |s.mqttTasks| ==> s.mqttTasks[j].id < counter.next {
      s.IdsBelow();
    }
    sessions[i].Process(p);
    forall s | s in sessions && s != sessions[i] ensures s.Valid() {
      s.OthersCount();
    }
    forall j, k | 0 <= j < k < |sessions| ensures DifferentIds(sessions[j], sessions[k]) {
      if j == i {
        StillDifferent(sessions[k], sessions[i], old(sessions[i].mqttTasks), old(counter.next));
      } else if k == i {
        StillDifferent(sessions[j], sessions[i], old(sessions[i].mqttTasks), old(counter.next));
      }
    }
  }

  /** New tasks of `t` got ids above all of `s`. */
  lemma StillDifferent(s: Session, t: Session, was: seq<MqttTask>, next: nat)
    requires was <= t.mqttTasks && t.NewIds(|was|, next)
    requires forall i :: 0 <= i < |s.mqttTasks| ==> s.mqttTasks[i].id < next
    requires forall i, j :: 0 <= i < |s.mqttTasks| && 0 <= j < |was| ==> s.mqttTasks[i].id != was[j].id
    ensures DifferentIds(s, t) && DifferentIds(t, s)
  {
    forall i, j | 0 <= i < |s.mqttTasks| && 0 <= j < |t.mqttTasks| ensures s.mqttTasks[i].id != t.mqttTasks[j].id {
      if j < |was| {
        assert t.mqttTasks[j] == was[j];
      }
    }
  }
}
