/** Friends of one device: the methods that change its store and how it answers friend
    messages (`engine/internal/syncengine/friends.go`, `engine/internal/daemon/daemon.go`). */
module Friends {
  import opened Basics

  type Id = string

  /** A name and endpoints, already clamped. */
  datatype Contact = Contact(name: string, endpoints: seq<string>)

  datatype Device = Device(contact: Contact, trusted: bool, pending: bool)

  /** The two tables a device keeps about others. */
  datatype Store = Store(devices: map<Id, Device>, requests: map<Id, Contact>)

  /** A friend message; `Other` is any other type and `Garbled` a message of one of the
      two types that does not decode. */
  datatype Frame =
    | FriendRequest(fromId: Id, contact: Contact)
    | FriendResponse(accepted: bool, contact: Contact)
    | GarbledRequest
    | GarbledResponse
    | Ack
    | Error
    | Other

  predicate Trusts(s: Store, id: Id) {
    id in s.devices && s.devices[id].trusted
  }

  /** `id` was asked and has not answered. */
  predicate Awaits(s: Store, id: Id) {
    id in s.devices && !s.devices[id].trusted && s.devices[id].pending
  }

  // ----- what each operation does to the store ------------------------------------------

  function Put(s: Store, id: Id, d: Device): Store {
    s.(devices := s.devices[id := d])
  }

  /** The user enters a device by hand. */
  function Entered(s: Store, id: Id, contact: Contact): Store {
    Put(s, id, Device(contact, true, false))
  }

  function Removed(s: Store, id: Id): Store {
    s.(devices := s.devices - {id})
  }

  function Rejected(s: Store, id: Id): Store {
    s.(requests := s.requests - {id})
  }

  /** A friend message may bring a new name and new endpoints. */
  function Renewed(known: Contact, news: Contact): Contact {
    Contact(if news.name != "" then news.name else known.name,
            if news.endpoints != [] then news.endpoints else known.endpoints)
  }

  function Accepted(s: Store, from: Id): Store {
    if from !in s.requests then s
    else Store(s.devices[from := Device(s.requests[from], true, false)], s.requests - {from})
  }

  /** The store after the user entered an invite code, before any answer. */
  function Asked(s: Store, id: Id, contact: Contact): Store {
    if Trusts(s, id) then s
    else if id in s.requests then Accepted(s, id)
    else Put(s, id, Device(contact, false, true))
  }

  function Recorded(s: Store, from: Id, contact: Contact): Store {
    s.(requests := s.requests[from := contact])
  }

  function Applied(s: Store, from: Id, news: Contact): Store {
    if Awaits(s, from) then Put(s, from, Device(Renewed(s.devices[from].contact, news), true, false)) else s
  }

  function Refreshed(s: Store, from: Id, news: Contact): Store {
    if Trusts(s, from) then Put(s, from, s.devices[from].(contact := Renewed(s.devices[from].contact, news))) else s
  }

  /** An incoming stream from the authenticated `peer`. The connection was taken for
      trusted or not when it was accepted. */
  function Received(s: Store, trustedConn: bool, peer: Id, frame: Frame): Store {
    match frame
    case FriendRequest(fromId, contact) =>
      if fromId != peer then s
      else if trustedConn then Refreshed(s, peer, contact)
      else Recorded(s, peer, contact)
    case FriendResponse(accepted, contact) => if trustedConn || !accepted then s else Applied(s, peer, contact)
    case _ => s
  }

  /** What is answered on that stream; folder data is not part of this model. */
  function Answer(s: Store, trustedConn: bool, peer: Id, frame: Frame, own: Contact): Option<Frame> {
    if trustedConn then
      if frame.FriendRequest? && frame.fromId == peer then Some(FriendResponse(true, own))
      else if frame.FriendRequest? || frame.FriendResponse? || frame.GarbledRequest? || frame.GarbledResponse? then None
      else Some(Other)
    else
      match frame
      case FriendRequest(fromId, _) => Some(if fromId == peer then Ack else Error)
      case FriendResponse(accepted, _) => Some(if accepted && (Trusts(s, peer) || Awaits(s, peer)) then Ack else Error)
      case GarbledResponse => None
      case _ => Some(Error)
  }

  // ----- asking at several endpoints -----------------------------------------------------

  /** What came back from the i-th endpoint. */
  function AnswerAt(answers: seq<Option<Frame>>, i: nat): Option<Frame> {
    if i < |answers| then answers[i] else None
  }

  predicate Settles(a: Option<Frame>) {
    a.Some? && (a.value.Ack? || a.value.FriendResponse? || a.value.GarbledResponse?)
  }

  /** The first endpoint whose answer ends the asking, `n` if there is none. */
  ghost predicate IsFirstSettled(answers: seq<Option<Frame>>, n: nat, k: nat) {
    k <= n && (forall i :: 0 <= i < k ==> !Settles(AnswerAt(answers, i))) && (k < n ==> Settles(AnswerAt(answers, k)))
  }

  /** The first of `n` endpoints that answers at all acknowledges. */
  ghost predicate FirstAnswerIsAck(answers: seq<Option<Frame>>, n: nat) {
    exists k :: 0 <= k < n && AnswerAt(answers, k) == Some(Ack) && forall i :: 0 <= i < k ==> AnswerAt(answers, i) == None
  }

  /** The store after a request to `peer` was answered as in `a`. */
  function AfterAnswer(s: Store, peer: Id, a: Option<Frame>): Store {
    if a.Some? && a.value.FriendResponse? && a.value.accepted then Applied(s, peer, a.value.contact) else s
  }

  datatype FriendError = OwnCode | EmptyId | UndecodableCode | NotFound

  class Engine {
    const id: Id
    var devices: map<Id, Device>
    var requests: map<Id, Contact>

    constructor (id: Id)
      ensures this.id == id && State() == Store(map[], map[])
    {
      this.id, devices, requests := id, map[], map[];
    }

    function State(): Store
      reads this
    {
      Store(devices, requests)
    }

    method AddDevice(peer: Id, contact: Contact) returns (err: Option<FriendError>)
      modifies this
      ensures err == (if peer == "" then Some(EmptyId) else if peer == id then Some(OwnCode) else None)
      ensures State() == if err == None then Entered(old(State()), peer, contact) else old(State())
      ensures err == None ==> devices == old(devices)[peer := Device(contact, true, false)] && requests == old(requests)
    {
      if peer == "" {
        return Some(EmptyId);
      }
      if peer == id {
        return Some(OwnCode);
      }
      devices := devices[peer := Device(contact, true, false)];
      err := None;
    }

    method RemoveDevice(peer: Id) returns (err: Option<FriendError>)
      modifies this
      ensures err == None <==> peer in old(devices)
      ensures State() == Removed(old(State()), peer)
      ensures devices == old(devices) - {peer} && requests == old(requests)
    {
      err := if peer in devices then None else Some(NotFound);
      devices := devices - {peer};
    }

    method ApplyFriendResponse(from: Id, name: string, endpoints: seq<string>) returns (ok: bool)
      modifies this
      ensures State() == Applied(old(State()), from, Contact(name, endpoints))
      ensures requests == old(requests)
      ensures devices.Keys == old(devices).Keys && devices - {from} == old(devices) - {from}
      ensures from in devices ==>
                var was, d := old(devices)[from], devices[from];
                if !was.trusted && was.pending then
                  && d.trusted && !d.pending && d.contact.name == (if name != "" then name else was.contact.name)
                  && d.contact.endpoints == (if endpoints != [] then endpoints else was.contact.endpoints)
                else d == was
      ensures ok <==> Trusts(State(), from)
    {
      if from !in devices {
        return false;
      }
      var dev := devices[from];
      if dev.trusted {
        return true;
      }
      if !dev.pending {
        return false;
      }
      dev := dev.(trusted := true, pending := false);
      if name != "" {
        dev := dev.(contact := dev.contact.(name := name));
      }
      if |endpoints| > 0 {
        dev := dev.(contact := dev.contact.(endpoints := endpoints));
      }
      devices := devices[from := dev];
      ok := true;
    }

    method RefreshFriend(from: Id, name: string, endpoints: seq<string>)
      modifies this
      ensures State() == Refreshed(old(State()), from, Contact(name, endpoints))
      ensures requests == old(requests)
      ensures devices.Keys == old(devices).Keys && devices - {from} == old(devices) - {from}
      ensures from in devices ==>
                var was, d := old(devices)[from], devices[from];
                if was.trusted then
                  && d.trusted && d.pending == was.pending
                  && d.contact.name == (if name != "" then name else was.contact.name)
                  && d.contact.endpoints == (if endpoints != [] then endpoints else was.contact.endpoints)
                else d == was
    {
      if from !in devices || !devices[from].trusted {
        return;
      }
      var dev := devices[from];
      if name != "" {
        dev := dev.(contact := dev.contact.(name := name));
      }
      if |endpoints| > 0 {
        dev := dev.(contact := dev.contact.(endpoints := endpoints));
      }
      devices := devices[from := dev];
    }

    method RecordFriendRequest(from: Id, name: string, endpoints: seq<string>) returns (ok: bool)
      modifies this
      ensures ok <==> from != ""
      ensures State() == if ok then Recorded(old(State()), from, Contact(name, endpoints)) else old(State())
      ensures ok ==> requests == old(requests)[from := Contact(name, endpoints)] && devices == old(devices)
    {
      if from == "" {
        return false;
      }
      requests := requests[from := Contact(name, endpoints)];
      ok := true;
    }

    method RejectFriendRequest(from: Id) returns (err: Option<FriendError>)
      modifies this
      ensures err == None <==> from in old(requests)
      ensures State() == Rejected(old(State()), from)
      ensures devices == old(devices) && requests == old(requests) - {from}
    {
      err := if from in requests then None else Some(NotFound);
      requests := requests - {from};
    }

    /** Trusts the requesting device and tells it so at its first reachable endpoint. */
    method AcceptFriendRequest(from: Id, answers: seq<Option<Frame>>) returns (err: Option<FriendError>, notified: bool)
      modifies this
      ensures State() == Accepted(old(State()), from)
      ensures err == None <==> from in old(requests)
      ensures err == None ==> Trusts(State(), from) && from !in requests
      ensures err == None ==> devices[from] == Device(old(requests)[from], true, false)
      ensures devices - {from} == old(devices) - {from} && requests == old(requests) - {from}
      ensures err != None ==> devices == old(devices)
      ensures notified <==> err == None && FirstAnswerIsAck(answers, |old(requests)[from].endpoints|)
    {
      if from !in requests {
        return Some(NotFound), false;
      }
      var contact := requests[from];
      devices := devices[from := Device(contact, true, false)];
      requests := requests - {from};
      err, notified := None, false;
      for i := 0 to |contact.endpoints|
        invariant State() == Accepted(old(State()), from)
        invariant !notified && forall j :: 0 <= j < i ==> AnswerAt(answers, j) == None
      {
        var frame := AnswerAt(answers, i);
        if frame.Some? {
          notified := frame.value == Ack;
          return;
        }
      }
    }

    /** Asks at one endpoint after the other until an answer settles it. */
    method SendFriendRequest(peer: Id, endpoints: seq<string>, answers: seq<Option<Frame>>)
      returns (delivered: bool, ghost k: nat)
      modifies this
      ensures IsFirstSettled(answers, |endpoints|, k) && (delivered <==> k < |endpoints|)
      ensures State() == if delivered then AfterAnswer(old(State()), peer, AnswerAt(answers, k)) else old(State())
      ensures delivered ==> k < |answers| && answers[k].Some?
      ensures delivered ==> answers[k].value.Ack? || answers[k].value.FriendResponse? || answers[k].value.GarbledResponse?
      ensures forall i :: 0 <= i < k && i < |answers| && answers[i].Some? ==>
                            !answers[i].value.Ack? && !answers[i].value.FriendResponse? && !answers[i].value.GarbledResponse?
      ensures requests == old(requests)
      ensures devices.Keys == old(devices).Keys && devices - {peer} == old(devices) - {peer}
      ensures peer in devices ==>
                var was := old(devices)[peer];
                if delivered && answers[k].value.FriendResponse? && answers[k].value.accepted
                   && !was.trusted && was.pending then
                  var news := answers[k].value.contact;
                  var name := if news.name != "" then news.name else was.contact.name;
                  var places := if news.endpoints != [] then news.endpoints else was.contact.endpoints;
                  devices[peer] == Device(Contact(name, places), true, false)
                else devices[peer] == was
    {
      k := 0;
      for i := 0 to |endpoints|
        invariant k == i && State() == old(State())
        invariant forall j :: 0 <= j < i && j < |answers| ==> !Settles(answers[j])
      {
        var frame := AnswerAt(answers, i);
        if frame.Some? {
          match frame.value {
            case Ack => return true, i;
            case FriendResponse(accepted, contact) =>
              if accepted {
                var ok := ApplyFriendResponse(peer, contact.name, contact.endpoints);
              }
              return true, i;
            case GarbledResponse => return true, i;
            case _ =>
          }
        }
        k := k + 1;
      }
      delivered := false;
    }

    /** `code` is what an invite code decodes to. */
    method AddFriendByCode(code: Option<(Id, Contact)>, answers: seq<Option<Frame>>)
      returns (err: Option<FriendError>, delivered: bool, ghost k: nat)
      modifies this
      ensures err == if code == None then Some(UndecodableCode)
                     else if code.value.0 == id then Some(OwnCode)
                     else if code.value.0 == "" && !Trusts(old(State()), "") && "" !in old(requests) then Some(EmptyId)
                     else None
      ensures err != None ==> State() == old(State()) && !delivered
      ensures err == None ==>
                var (peer, contact) := code.value;
                var asked := Asked(old(State()), peer, contact);
                if Trusts(asked, peer) then
                  && State() == asked
                  && (delivered <==> !Trusts(old(State()), peer)
                                     && FirstAnswerIsAck(answers, |old(requests)[peer].endpoints|))
                else
                  && IsFirstSettled(answers, |contact.endpoints|, k) && (delivered <==> k < |contact.endpoints|)
                  && State() == if delivered then AfterAnswer(asked, peer, AnswerAt(answers, k)) else asked
      ensures err == None ==>
                var (peer, contact) := code.value;
                && devices - {peer} == old(devices) - {peer}
                && if peer in old(devices) && old(devices)[peer].trusted then
                     devices == old(devices) && requests == old(requests) && !delivered
                   else if peer in old(requests) then
                     && requests == old(requests) - {peer}
                     && peer in devices && devices[peer] == Device(old(requests)[peer], true, false)
                   else
                     && requests == old(requests) && peer in devices && (delivered ==> k < |answers| && answers[k].Some?)
                     && if delivered && answers[k].value.FriendResponse? && answers[k].value.accepted then
                          var news := answers[k].value.contact;
                          var name := if news.name != "" then news.name else contact.name;
                          var places := if news.endpoints != [] then news.endpoints else contact.endpoints;
                          devices[peer] == Device(Contact(name, places), true, false)
                        else devices[peer] == Device(contact, false, true)
    {
      err, delivered, k := None, false, 0;
      if code == None {
        return Some(UndecodableCode), false, 0;
      }
      var (peer, contact) := code.value;
      if peer == id {
        return Some(OwnCode), false, 0;
      }
      if peer in devices && devices[peer].trusted {
        return;
      }
      if peer in requests {
        err, delivered := AcceptFriendRequest(peer, answers);
        return;
      }
      if peer == "" {
        return Some(EmptyId), false, 0;
      }
      devices := devices[peer := Device(contact, false, true)];
      delivered, k := SendFriendRequest(peer, contact.endpoints, answers);
    }

    // ----- serving ---------------------------------------------------------------------------

    method ServeTrustedStream(peer: Id, frame: Frame, own: Contact) returns (reply: Option<Frame>)
      modifies this
      ensures State() == Received(old(State()), true, peer, frame)
      ensures reply == Answer(old(State()), true, peer, frame, own)
      ensures requests == old(requests)
      ensures devices.Keys == old(devices).Keys && devices - {peer} == old(devices) - {peer}
      ensures if frame.FriendRequest? && frame.fromId == peer then
                && reply == Some(FriendResponse(true, own))
                && (peer in devices && old(devices)[peer].trusted ==>
                      var was, news := old(devices)[peer].contact, frame.contact;
                      && devices[peer].trusted && devices[peer].pending == old(devices)[peer].pending
                      && devices[peer].contact == Contact(if news.name != "" then news.name else was.name,
                                                          if news.endpoints != [] then news.endpoints else was.endpoints))
              else
                && devices == old(devices)
                && (frame.FriendRequest? || frame.FriendResponse? || frame.GarbledRequest? || frame.GarbledResponse? ==>
                      reply == None)
    {
      match frame {
        case FriendRequest(fromId, contact) =>
          if fromId != peer {
            return None;
          }
          RefreshFriend(peer, contact.name, contact.endpoints);
          reply := Some(FriendResponse(true, own));
        case FriendResponse(_, _) => reply := None;
        case GarbledRequest => reply := None;
        case GarbledResponse => reply := None;
        case _ => reply := Some(Other);
      }
    }

    /** `authorize` admits only peers with an identity. */
    method ServeUntrusted(peer: Id, frame: Frame) returns (reply: Option<Frame>)
      requires peer != ""
      modifies this
      ensures State() == Received(old(State()), false, peer, frame)
      ensures forall own :: reply == Answer(old(State()), false, peer, frame, own)
      ensures frame.FriendRequest? && frame.fromId == peer ==>
                reply == Some(Ack) && requests == old(requests)[peer := frame.contact] && devices == old(devices)
      ensures frame.FriendResponse? && frame.accepted ==>
                && requests == old(requests) && devices.Keys == old(devices).Keys && devices - {peer} == old(devices) - {peer}
                && if peer in devices && !old(devices)[peer].trusted && old(devices)[peer].pending then
                     var was, news := old(devices)[peer].contact, frame.contact;
                     var name := if news.name != "" then news.name else was.name;
                     var places := if news.endpoints != [] then news.endpoints else was.endpoints;
                     reply == Some(Ack) && devices[peer] == Device(Contact(name, places), true, false)
                   else
                     && devices == old(devices)
                     && reply == Some(if peer in devices && devices[peer].trusted then Ack else Error)
      ensures !(frame.FriendRequest? && frame.fromId == peer) && !(frame.FriendResponse? && frame.accepted) ==>
                && devices == old(devices) && requests == old(requests)
                && reply == (if frame.GarbledResponse? then None else Some(Error))
    {
      match frame {
        case FriendRequest(fromId, contact) =>
          if fromId != peer {
            return Some(Error);
          }
          var ok := RecordFriendRequest(peer, contact.name, contact.endpoints);
          reply := Some(if ok then Ack else Error);
        case FriendResponse(accepted, contact) =>
          if accepted {
            var ok := ApplyFriendResponse(peer, contact.name, contact.endpoints);
            if ok {
              return Some(Ack);
            }
          }
          reply := Some(Error);
        case GarbledResponse => reply := None;
        case _ => reply := Some(Error);
      }
    }

    /** Whether the peer is trusted is looked up once, when the connection is accepted;
        an untrusted one gets a single stream. */
    method ServeConn(peer: Id, frames: seq<Frame>, own: Contact)
      returns (replies: seq<Option<Frame>>, ghost states: seq<Store>)
      requires peer != ""
      modifies this
      ensures var trusted := peer in old(devices) && old(devices)[peer].trusted;
              var n := if trusted || frames == [] then |frames| else 1;
              && |replies| == n && |states| == n + 1 && states[0] == old(State()) && states[n] == State()
              && forall i :: 0 <= i < n ==>
                   && states[i + 1] == Received(states[i], trusted, peer, frames[i])
                   && replies[i] == Answer(states[i], trusted, peer, frames[i], own)
    {
      replies, states := [], [State()];
      var trusted := peer in devices && devices[peer].trusted;
      var n := if trusted then |frames| else Min(1, |frames|);
      for i := 0 to n
        invariant |replies| == i && |states| == i + 1 && states[0] == old(State()) && states[i] == State()
        invariant forall j :: 0 <= j < i ==>
                    && states[j + 1] == Received(states[j], trusted, peer, frames[j])
                    && replies[j] == Answer(states[j], trusted, peer, frames[j], own)
      {
        var reply;
        if trusted {
          reply := ServeTrustedStream(peer, frames[i], own);
        } else {
          reply := ServeUntrusted(peer, frames[i]);
        }
        replies, states := replies + [reply], states + [State()];
      }
    }

    /** What the dialling loop does about one device: a request that has not been answered
        is sent again. `busy` tells that a task for this device is under way. */
    method Redial(peer: Id, busy: bool, answers: seq<Option<Frame>>) returns (asked: bool, ghost k: nat)
      modifies this
      ensures asked <==> peer != id && !busy && Awaits(old(State()), peer) && old(devices)[peer].contact.endpoints != []
      ensures !asked ==> State() == old(State())
      ensures asked ==>
                var n := |old(devices)[peer].contact.endpoints|;
                && IsFirstSettled(answers, n, k)
                && State() == if k < n then AfterAnswer(old(State()), peer, AnswerAt(answers, k)) else old(State())
    {
      asked, k := false, 0;
      if peer == id || peer !in devices || |devices[peer].contact.endpoints| == 0 {
        return;
      }
      var dev := devices[peer];
      if !dev.trusted && !dev.pending {
        return;
      }
      if busy || dev.trusted {
        return;
      }
      var delivered;
      delivered, k := SendFriendRequest(peer, dev.contact.endpoints, answers);
      asked := true;
    }
  }
}
