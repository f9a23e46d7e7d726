/** The friend handshake among any number of devices over a network that loses, repeats
    and reorders messages (`engine/internal/syncengine/friends.go`,
    `engine/internal/daemon/daemon.go`). */
module Handshake {
  import opened Basics
  import opened Friends

  /** The transport proves who sent a frame and to whom; nothing else is known about it. */
  datatype Packet = Packet(from: Id, to: Id, frame: Frame)

  /** The honest devices are those with a store here; any other id may send anything.
      A frame stays in `net` for ever, so it can be delivered late, often or never.
      The last four say what users did and what was once trusted: `asked` by an invite
      code, `wanted` in any way, `manual` for trust that a user entered and nothing has
      replaced, `ever` for all that was trusted at some time. */
  datatype World = World(stores: map<Id, Store>, net: set<Packet>,
                         asked: set<(Id, Id)>, wanted: set<(Id, Id)>, manual: set<(Id, Id)>, ever: set<(Id, Id)>)

  datatype Action =
    | Ask(x: Id, y: Id, contact: Contact, own: Contact)
    | Accept(x: Id, y: Id, own: Contact)
    | Reject(x: Id, y: Id)
    | AddManually(x: Id, y: Id, contact: Contact)
    | Remove(x: Id, y: Id)
    | Resend(x: Id, y: Id, own: Contact)
    | Deliver(p: Packet, trustedConn: bool, own: Contact)
    | DeliverAnswer(p: Packet)
    | Forge(p: Packet)

  // ----- steps ---------------------------------------------------------------------------

  ghost predicate Enabled(w: World, a: Action) {
    match a
    case Ask(x, y, _, _) => x in w.stores && x != y
    case Accept(x, y, _) => x in w.stores && y in w.stores[x].requests
    case Reject(x, y) => x in w.stores && y in w.stores[x].requests
    case AddManually(x, y, _) => x in w.stores && x != y
    case Remove(x, y) => x in w.stores && y in w.stores[x].devices
    case Resend(x, y, _) => x in w.stores && Awaits(w.stores[x], y)
    // a connection counts as trusted if the peer was so at some earlier moment
    case Deliver(p, trustedConn, _) =>
      p in w.net && p.to in w.stores && (trustedConn ==> (p.to, p.from) in w.ever)
    // an answer on a stream that the receiver has opened
    case DeliverAnswer(p) => p in w.net && p.to in w.stores
    case Forge(p) => p.from !in w.stores
  }

  /** Puts the store of `x` in place and remembers whom it trusts. */
  function Set(w: World, x: Id, s: Store): World {
    w.(stores := w.stores[x := s], ever := w.ever + set y | y in s.devices && s.devices[y].trusted :: (x, y))
  }

  function Send(w: World, p: Packet): World {
    w.(net := w.net + {p})
  }

  function Next(w: World, a: Action): World
    requires Enabled(w, a)
  {
    match a
    case Ask(x, y, contact, own) =>
      var s := w.stores[x];
      var w1 := w.(asked := w.asked + {(x, y)}, wanted := w.wanted + {(x, y)});
      if Trusts(s, y) then w1
      else if y in s.requests then
        Send(Set(w1.(manual := w1.manual - {(x, y)}), x, Accepted(s, y)), Packet(x, y, FriendResponse(true, own)))
      else Send(Set(w1, x, Asked(s, y, contact)), Packet(x, y, FriendRequest(x, own)))
    case Accept(x, y, own) =>
      var w1 := w.(wanted := w.wanted + {(x, y)}, manual := w.manual - {(x, y)});
      Send(Set(w1, x, Accepted(w.stores[x], y)), Packet(x, y, FriendResponse(true, own)))
    case Reject(x, y) => Set(w, x, Rejected(w.stores[x], y))
    case AddManually(x, y, contact) =>
      var w1 := w.(wanted := w.wanted + {(x, y)}, manual := w.manual + {(x, y)});
      Set(w1, x, Entered(w.stores[x], y, contact))
    case Remove(x, y) =>
      var w1 := Set(w, x, Removed(w.stores[x], y));
      w1.(manual := w1.manual - {(x, y)})
    case Resend(x, y, own) => Send(w, Packet(x, y, FriendRequest(x, own)))
    case Deliver(p, trustedConn, own) =>
      var s := w.stores[p.to];
      var w1 := Set(w, p.to, Received(s, trustedConn, p.from, p.frame));
      var answer := Answer(s, trustedConn, p.from, p.frame, own);
      if answer.Some? then Send(w1, Packet(p.to, p.from, answer.value)) else w1
    case DeliverAnswer(p) => Set(w, p.to, AfterAnswer(w.stores[p.to], p.from, Some(p.frame)))
    case Forge(p) => Send(w, p)
  }

  // ----- invariant -----------------------------------------------------------------------

  ghost predicate StoreOk(w: World, x: Id, s: Store) {
    && (forall y :: y in s.devices ==> !(s.devices[y].trusted && s.devices[y].pending))
    && (forall y :: Awaits(s, y) ==> (x, y) in w.asked)
    && (forall y :: Trusts(s, y) ==> (x, y) in w.ever)
    && (forall y :: y in s.requests && y in w.stores ==> (y, x) in w.asked)
    && (forall y :: Trusts(s, y) && y in w.stores && (x, y) !in w.manual ==> (y, x) in w.wanted)
  }

  ghost predicate PacketOk(w: World, p: Packet) {
    p.from in w.stores ==>
      && (p.frame.FriendRequest? ==> (p.from, p.to) in w.asked)
      && (p.frame.FriendResponse? && p.frame.accepted ==> (p.from, p.to) in w.wanted)
  }

  ghost predicate Inv(w: World) {
    && w.asked <= w.wanted && w.ever <= w.wanted && w.manual <= w.wanted
    && (forall x :: x in w.stores ==> StoreOk(w, x, w.stores[x]))
    && (forall p :: p in w.net ==> PacketOk(w, p))
  }

  /** Recording wishes, and forgetting that trust was entered by hand where the other
      side wanted it too. */
  lemma WishesKeepInv(w: World, w': World)
    requires Inv(w) && w' == w.(asked := w'.asked, wanted := w'.wanted, manual := w'.manual)
    requires w.asked <= w'.asked && w.wanted <= w'.wanted && w'.asked <= w'.wanted && w'.manual <= w'.wanted
    requires forall x, y :: (x, y) in w.manual && (x, y) !in w'.manual && x in w.stores && y in w.stores ==>
               (y, x) in w'.wanted || !Trusts(w.stores[x], y)
    ensures Inv(w')
  {
    forall x | x in w'.stores
      ensures StoreOk(w', x, w'.stores[x])
    {
      assert StoreOk(w, x, w.stores[x]);
    }
    forall p | p in w'.net
      ensures PacketOk(w', p)
    {
      assert PacketOk(w, p);
    }
  }

  lemma SetKeepsInv(w: World, x: Id, s: Store)
    requires Inv(w) && x in w.stores
    requires forall y :: y in s.devices ==> !(s.devices[y].trusted && s.devices[y].pending)
    requires forall y :: Awaits(s, y) ==> (x, y) in w.asked
    requires forall y :: Trusts(s, y) ==> (x, y) in w.wanted
    requires forall y :: y in s.requests && y in w.stores ==> (y, x) in w.asked
    requires forall y :: Trusts(s, y) && y in w.stores && (x, y) !in w.manual ==> (y, x) in w.wanted
    ensures Inv(Set(w, x, s))
  {
    var w' := Set(w, x, s);
    forall z | z in w'.stores
      ensures StoreOk(w', z, w'.stores[z])
    {
      if z != x {
        assert StoreOk(w, z, w.stores[z]);
      }
    }
    forall p | p in w'.net
      ensures PacketOk(w', p)
    {
      assert PacketOk(w, p);
    }
  }

  lemma SendKeepsInv(w: World, p: Packet)
    requires Inv(w) && PacketOk(w, p)
    ensures Inv(Send(w, p))
  {
    var w' := Send(w, p);
    forall x | x in w'.stores
      ensures StoreOk(w', x, w'.stores[x])
    {
      assert StoreOk(w, x, w.stores[x]);
    }
    forall q | q in w'.net
      ensures PacketOk(w', q)
    {
      if q != p {
        assert PacketOk(w, q);
      }
    }
  }

  /** Accepting a request that is here; its sender, if honest, has asked. */
  lemma AcceptingKeepsInv(w: World, x: Id, y: Id, own: Contact)
    requires Inv(w) && x in w.stores && y in w.stores[x].requests && (x, y) in w.wanted
    ensures Inv(Send(Set(w.(manual := w.manual - {(x, y)}), x, Accepted(w.stores[x], y)),
                     Packet(x, y, FriendResponse(true, own))))
  {
    assert StoreOk(w, x, w.stores[x]);
    var w1 := w.(manual := w.manual - {(x, y)});
    WishesKeepInv(w, w1);
    SetKeepsInv(w1, x, Accepted(w.stores[x], y));
    SendKeepsInv(Set(w1, x, Accepted(w.stores[x], y)), Packet(x, y, FriendResponse(true, own)));
  }

  lemma AskKeepsInv(w: World, a: Action)
    requires Inv(w) && Enabled(w, a) && a.Ask?
    ensures Inv(Next(w, a))
  {
    var x, y, s := a.x, a.y, w.stores[a.x];
    var w1 := w.(asked := w.asked + {(x, y)}, wanted := w.wanted + {(x, y)});
    WishesKeepInv(w, w1);
    if !Trusts(s, y) {
      if y in s.requests {
        AcceptingKeepsInv(w1, x, y, a.own);
      } else {
        assert StoreOk(w1, x, s);
        SetKeepsInv(w1, x, Asked(s, y, a.contact));
        SendKeepsInv(Set(w1, x, Asked(s, y, a.contact)), Packet(x, y, FriendRequest(x, a.own)));
      }
    }
  }

  lemma AcceptKeepsInv(w: World, a: Action)
    requires Inv(w) && Enabled(w, a) && a.Accept?
    ensures Inv(Next(w, a))
  {
    var w1 := w.(wanted := w.wanted + {(a.x, a.y)});
    WishesKeepInv(w, w1);
    AcceptingKeepsInv(w1, a.x, a.y, a.own);
  }

  lemma AddKeepsInv(w: World, a: Action)
    requires Inv(w) && Enabled(w, a) && a.AddManually?
    ensures Inv(Next(w, a))
  {
    var x, y, s := a.x, a.y, w.stores[a.x];
    assert StoreOk(w, x, s);
    var w1 := w.(wanted := w.wanted + {(x, y)}, manual := w.manual + {(x, y)});
    WishesKeepInv(w, w1);
    SetKeepsInv(w1, x, Entered(s, y, a.contact));
  }

  lemma DeleteKeepsInv(w: World, a: Action)
    requires Inv(w) && Enabled(w, a) && (a.Reject? || a.Remove?)
    ensures Inv(Next(w, a))
  {
    var x, y, s := a.x, a.y, w.stores[a.x];
    assert StoreOk(w, x, s);
    if a.Reject? {
      SetKeepsInv(w, x, Rejected(s, y));
    } else {
      var s' := Removed(s, y);
      var w1 := Set(w, x, s');
      SetKeepsInv(w, x, s');
      WishesKeepInv(w1, w1.(manual := w1.manual - {(x, y)}));
    }
  }

  /** An acceptance that arrives was wanted by its sender, if that one is honest. */
  lemma ApplyKeepsInv(w: World, p: Packet)
    requires Inv(w) && p in w.net && p.to in w.stores && p.frame.FriendResponse? && p.frame.accepted
    ensures Inv(Set(w, p.to, Applied(w.stores[p.to], p.from, p.frame.contact)))
  {
    assert StoreOk(w, p.to, w.stores[p.to]) && PacketOk(w, p);
    SetKeepsInv(w, p.to, Applied(w.stores[p.to], p.from, p.frame.contact));
  }

  lemma SameStoreKeepsInv(w: World, x: Id)
    requires Inv(w) && x in w.stores
    ensures Inv(Set(w, x, w.stores[x]))
  {
    assert StoreOk(w, x, w.stores[x]);
    SetKeepsInv(w, x, w.stores[x]);
  }

  lemma ReceiveKeepsInv(w: World, a: Action)
    requires Inv(w) && Enabled(w, a) && a.Deliver?
    ensures Inv(Set(w, a.p.to, Received(w.stores[a.p.to], a.trustedConn, a.p.from, a.p.frame)))
  {
    var p, s := a.p, w.stores[a.p.to];
    var s' := Received(s, a.trustedConn, p.from, p.frame);
    if p.frame.FriendResponse? && p.frame.accepted && !a.trustedConn {
      ApplyKeepsInv(w, p);
    } else if p.frame.FriendRequest? && p.frame.fromId == p.from {
      assert StoreOk(w, p.to, s) && PacketOk(w, p);
      SetKeepsInv(w, p.to, s');
    } else {
      SameStoreKeepsInv(w, p.to);
    }
  }

  lemma DeliverKeepsInv(w: World, a: Action)
    requires Inv(w) && Enabled(w, a) && a.Deliver?
    ensures Inv(Next(w, a))
  {
    var p, s := a.p, w.stores[a.p.to];
    var w1 := Set(w, p.to, Received(s, a.trustedConn, p.from, p.frame));
    var answer := Answer(s, a.trustedConn, p.from, p.frame, a.own);
    ReceiveKeepsInv(w, a);
    if answer.Some? {
      SendKeepsInv(w1, Packet(p.to, p.from, answer.value));
    }
  }

  lemma StepKeepsInv(w: World, a: Action)
    requires Inv(w) && Enabled(w, a)
    ensures Inv(Next(w, a)) && Next(w, a).stores.Keys == w.stores.Keys
  {
    match a
    case Ask(_, _, _, _) => AskKeepsInv(w, a);
    case Accept(_, _, _) => AcceptKeepsInv(w, a);
    case Reject(_, _) => DeleteKeepsInv(w, a);
    case AddManually(_, _, _) => AddKeepsInv(w, a);
    case Remove(_, _) => DeleteKeepsInv(w, a);
    case Resend(x, y, own) =>
      assert StoreOk(w, x, w.stores[x]);
      SendKeepsInv(w, Packet(x, y, FriendRequest(x, own)));
    case Deliver(_, _, _) => DeliverKeepsInv(w, a);
    case DeliverAnswer(p) =>
      if p.frame.FriendResponse? && p.frame.accepted {
        ApplyKeepsInv(w, p);
      } else {
        SameStoreKeepsInv(w, p.to);
      }
    case Forge(p) => SendKeepsInv(w, p);
  }

  // ----- consent ---------------------------------------------------------------------------

  ghost predicate IsRun(w: World, run: seq<Action>)
    decreases |run|
  {
    run == [] || (Enabled(w, run[0]) && IsRun(Next(w, run[0]), run[1..]))
  }

  ghost function After(w: World, run: seq<Action>): World
    requires IsRun(w, run)
    decreases |run|
  {
    if run == [] then w else After(Next(w, run[0]), run[1..])
  }

  /** Devices that know nobody, and an empty network. */
  function Fresh(ids: set<Id>): World {
    World(map x | x in ids :: Store(map[], map[]), {}, {}, {}, {}, {})
  }

  /** The user of `x` asks `y`, accepts its request or enters it by hand. */
  predicate Wants(a: Action, x: Id, y: Id) {
    (a.Ask? || a.Accept? || a.AddManually?) && a.x == x && a.y == y
  }

  lemma {:induction false} RunKeepsInv(w: World, run: seq<Action>)
    requires Inv(w) && IsRun(w, run)
    ensures Inv(After(w, run)) && After(w, run).stores.Keys == w.stores.Keys
    decreases |run|
  {
    if run != [] {
      StepKeepsInv(w, run[0]);
      RunKeepsInv(Next(w, run[0]), run[1..]);
    }
  }

  lemma StepRecordsWishes(w: World, a: Action)
    requires Enabled(w, a)
    ensures forall x, y :: (x, y) in Next(w, a).wanted ==> (x, y) in w.wanted || Wants(a, x, y)
    ensures forall x, y :: (x, y) in Next(w, a).manual ==>
              (a.AddManually? && Wants(a, x, y)) || ((x, y) in w.manual && a != Remove(x, y))
  {
  }

  ghost predicate UserWanted(run: seq<Action>, x: Id, y: Id) {
    exists i :: 0 <= i < |run| && Wants(run[i], x, y)
  }

  /** The user of `x` has entered `y` by hand, and has not removed it since. */
  ghost predicate UserEntered(run: seq<Action>, x: Id, y: Id) {
    exists i :: 0 <= i < |run| && run[i].AddManually? && Wants(run[i], x, y) && Remove(x, y) !in run[i..]
  }

  lemma {:induction false} WishesAreActions(w: World, run: seq<Action>, x: Id, y: Id)
    requires IsRun(w, run)
    ensures (x, y) in After(w, run).wanted ==> (x, y) in w.wanted || UserWanted(run, x, y)
    ensures (x, y) in After(w, run).manual ==> ((x, y) in w.manual && Remove(x, y) !in run) || UserEntered(run, x, y)
    decreases |run|
  {
    if run != [] {
      StepRecordsWishes(w, run[0]);
      WishesAreActions(Next(w, run[0]), run[1..], x, y);
      if UserWanted(run[1..], x, y) {
        var i :| 0 <= i < |run| - 1 && Wants(run[1..][i], x, y);
        assert Wants(run[i + 1], x, y);
      }
      if UserEntered(run[1..], x, y) {
        var i :| 0 <= i < |run| - 1 && run[1..][i].AddManually? && Wants(run[1..][i], x, y) && Remove(x, y) !in run[1..][i..];
        assert run[1..][i..] == run[i + 1..];
        assert run[i + 1].AddManually? && Wants(run[i + 1], x, y);
      } else if (x, y) in After(w, run).manual {
        assert run == [run[0]] + run[1..] && run[0..] == run;
      }
    }
  }

  /** Whatever is lost, repeated, reordered or forged: an honest device trusts only whom
      its own user wanted, and trusts another honest device only if that one's user wanted
      it too, unless its user entered it by hand and has not removed it since. Nobody is both
      trusted and pending. */
  lemma TrustNeedsConsent(ids: set<Id>, run: seq<Action>, x: Id, y: Id)
    requires IsRun(Fresh(ids), run) && x in ids
    ensures x in After(Fresh(ids), run).stores
    ensures var s := After(Fresh(ids), run).stores[x];
            && (y in s.devices ==> !(s.devices[y].trusted && s.devices[y].pending))
            && (Trusts(s, y) ==> UserWanted(run, x, y))
            && (Trusts(s, y) && y in ids ==> UserWanted(run, y, x) || UserEntered(run, x, y))
  {
    var w := After(Fresh(ids), run);
    RunKeepsInv(Fresh(ids), run);
    WishesAreActions(Fresh(ids), run, x, y);
    WishesAreActions(Fresh(ids), run, y, x);
    assert StoreOk(w, x, w.stores[x]);
  }

  /** Nothing that happens makes `x` wait for `y` or trust it but the wish of its user, or an
      acceptance that is waited for. */
  lemma TrustNeedsWish(w: World, a: Action, x: Id, y: Id)
    requires Enabled(w, a) && x in w.stores && !Trusts(w.stores[x], y) && !Awaits(w.stores[x], y)
    ensures x in Next(w, a).stores
    ensures Wants(a, x, y) || (!Trusts(Next(w, a).stores[x], y) && !Awaits(Next(w, a).stores[x], y))
  {
  }

  /** Revocation: when `x` neither trusts `y` nor waits for it, as after a removal, it takes
      a new wish of its user before it trusts `y`. */
  lemma {:induction false} TrustNeedsNewWish(w: World, run: seq<Action>, x: Id, y: Id)
    requires IsRun(w, run) && x in w.stores && !Trusts(w.stores[x], y) && !Awaits(w.stores[x], y)
    ensures x in After(w, run).stores
    ensures Trusts(After(w, run).stores[x], y) || Awaits(After(w, run).stores[x], y) ==> UserWanted(run, x, y)
    decreases |run|
  {
    if run != [] {
      TrustNeedsWish(w, run[0], x, y);
      if Wants(run[0], x, y) {
        StoresStay(w, run);
      } else {
        TrustNeedsNewWish(Next(w, run[0]), run[1..], x, y);
        if UserWanted(run[1..], x, y) {
          var i :| 0 <= i < |run| - 1 && Wants(run[1..][i], x, y);
          assert Wants(run[i + 1], x, y);
        }
      }
    }
  }

  lemma {:induction false} StoresStay(w: World, run: seq<Action>)
    requires IsRun(w, run)
    ensures After(w, run).stores.Keys == w.stores.Keys
    decreases |run|
  {
    if run != [] {
      StoresStay(Next(w, run[0]), run[1..]);
    }
  }

  /** So after a removal trust needs a wish made since, and until then no message of any
      kind brings it back. */
  lemma RemovalRevokes(w: World, y: Id, x: Id, run: seq<Action>)
    requires Enabled(w, Remove(x, y)) && IsRun(Next(w, Remove(x, y)), run)
    ensures x in After(Next(w, Remove(x, y)), run).stores
    ensures Trusts(After(Next(w, Remove(x, y)), run).stores[x], y) ==> UserWanted(run, x, y)
  {
    TrustNeedsNewWish(Next(w, Remove(x, y)), run, x, y);
  }

  /** A new request from `y` reaches `x`. */
  predicate BringsRequest(a: Action, x: Id, y: Id) {
    && a.Deliver? && !a.trustedConn && a.p.from == y && a.p.to == x && a.p.frame.FriendRequest? && a.p.frame.fromId == y
  }

  /** Only that makes a request wait. */
  lemma RequestNeedsDelivery(w: World, a: Action, x: Id, y: Id)
    requires Enabled(w, a) && x in w.stores && y !in w.stores[x].requests
    ensures x in Next(w, a).stores
    ensures y in Next(w, a).stores[x].requests <==> BringsRequest(a, x, y)
  {
  }

  /** The k-th action is a wish of the user of `x` for `y`; if it accepts a request, that has
      come during the run. */
  ghost predicate IsFreshWish(run: seq<Action>, k: nat, x: Id, y: Id) {
    && k < |run| && Wants(run[k], x, y)
    && (run[k].Accept? ==> exists i :: 0 <= i < k && BringsRequest(run[i], x, y))
  }

  lemma LaterWishIsFresh(run: seq<Action>, k: nat, x: Id, y: Id)
    requires run != [] && IsFreshWish(run[1..], k, x, y)
    ensures IsFreshWish(run, k + 1, x, y)
  {
    assert run[k + 1] == run[1..][k];
    if run[k + 1].Accept? {
      var i :| 0 <= i < k && BringsRequest(run[1..][i], x, y);
      assert BringsRequest(run[i + 1], x, y);
    }
  }

  lemma {:induction false} TrustNeedsFreshWish(w: World, run: seq<Action>, x: Id, y: Id) returns (k: nat)
    requires IsRun(w, run) && x in w.stores && !Trusts(w.stores[x], y) && !Awaits(w.stores[x], y)
    requires y !in w.stores[x].requests
    ensures x in After(w, run).stores && (Trusts(After(w, run).stores[x], y) ==> IsFreshWish(run, k, x, y))
    decreases |run|
  {
    k := 0;
    StoresStay(w, run);
    if run != [] && !Wants(run[0], x, y) {
      TrustNeedsWish(w, run[0], x, y);
      RequestNeedsDelivery(w, run[0], x, y);
      if BringsRequest(run[0], x, y) {
        TrustNeedsNewWish(Next(w, run[0]), run[1..], x, y);
        if UserWanted(run[1..], x, y) {
          var i :| 0 <= i < |run| - 1 && Wants(run[1..][i], x, y);
          k := i + 1;
        }
      } else {
        k := TrustNeedsFreshWish(Next(w, run[0]), run[1..], x, y);
        if IsFreshWish(run[1..], k, x, y) {
          LaterWishIsFresh(run, k, x, y);
        }
        k := k + 1;
      }
    }
  }

  /** A request that is rejected leads nowhere: for trust the user has to ask or enter the
      sender, or accept a request that has come since. */
  lemma RejectionHolds(w: World, y: Id, x: Id, run: seq<Action>)
    requires Enabled(w, Reject(x, y)) && !Trusts(w.stores[x], y) && !Awaits(w.stores[x], y)
    requires IsRun(Next(w, Reject(x, y)), run)
    ensures x in After(Next(w, Reject(x, y)), run).stores
    ensures Trusts(After(Next(w, Reject(x, y)), run).stores[x], y) ==> exists k :: IsFreshWish(run, k, x, y)
  {
    var k := TrustNeedsFreshWish(Next(w, Reject(x, y)), run, x, y);
  }

  // ----- what is stored about a friend -----------------------------------------------------

  /** What waits was brought by this action or has been waiting. */
  lemma RequestComesByDelivery(w: World, a: Action, x: Id, y: Id)
    requires Enabled(w, a) && x in w.stores
    ensures x in Next(w, a).stores
    ensures var was, now := w.stores[x].requests, Next(w, a).stores[x].requests;
            if BringsRequest(a, x, y) then y in now && now[y] == a.p.frame.contact
            else y in now ==> y in was && now[y] == was[y]
  {
  }

  /** After the run the request of `y` that waits at `x` is the one that was delivered last, at
      `i`; if none was, it has been there from the start and `i` is the length of the run. */
  lemma {:induction false} WaitingIsLastDelivered(w: World, run: seq<Action>, x: Id, y: Id) returns (i: nat)
    requires IsRun(w, run) && x in w.stores
    ensures x in After(w, run).stores && i <= |run| && (i < |run| ==> BringsRequest(run[i], x, y))
    ensures forall j :: 0 <= j < |run| && (i < |run| ==> i < j) ==> !BringsRequest(run[j], x, y)
    ensures var s := After(w, run).stores[x];
            y in s.requests ==>
              if i < |run| then s.requests[y] == run[i].p.frame.contact
              else y in w.stores[x].requests && s.requests[y] == w.stores[x].requests[y]
    decreases |run|
  {
    i := 0;
    if run != [] {
      var i' := WaitingIsLastDelivered(Next(w, run[0]), run[1..], x, y);
      assert forall j :: 1 <= j < |run| ==> run[j] == run[1..][j - 1];
      i := if i' == |run| - 1 && BringsRequest(run[0], x, y) then 0 else i' + 1;
      RequestComesByDelivery(w, run[0], x, y);
    }
  }

  /** Who is accepted is stored as a trusted device with the name and the endpoints of its
      last request, however often it asked; asking it by its code accepts it as well. */
  lemma AcceptedContactIsLastRequest(ids: set<Id>, run: seq<Action>, a: Action) returns (i: nat)
    requires IsRun(Fresh(ids), run) && Enabled(After(Fresh(ids), run), a)
    requires a.Accept? || a.Ask?
    requires a.Ask? ==> var s := After(Fresh(ids), run).stores[a.x]; a.y in s.requests && !Trusts(s, a.y)
    ensures i < |run| && BringsRequest(run[i], a.x, a.y) && forall j :: i < j < |run| ==> !BringsRequest(run[j], a.x, a.y)
    ensures a.x in Next(After(Fresh(ids), run), a).stores
    ensures var s := Next(After(Fresh(ids), run), a).stores[a.x];
            && a.y !in s.requests && a.y in s.devices
            && s.devices[a.y] == Device(run[i].p.frame.contact, true, false)
  {
    StoresStay(Fresh(ids), run);
    i := WaitingIsLastDelivered(Fresh(ids), run, a.x, a.y);
  }

  /** `y` tells its own name and endpoints in this action. */
  predicate Announces(a: Action, y: Id) {
    ((a.Ask? || a.Accept? || a.Resend?) && a.x == y) || (a.Deliver? && a.p.to == y)
  }

  /** The user of `x` tells the name and the endpoints of `y`. */
  predicate Enters(a: Action, x: Id, y: Id) {
    (a.Ask? || a.AddManually?) && a.x == x && a.y == y
  }

  /** Name and endpoints are both among those known. */
  ghost predicate Stems(c: Contact, known: set<Contact>) {
    && (exists d :: d in known && d.name == c.name)
    && (exists d :: d in known && d.endpoints == c.endpoints)
  }

  lemma RenewedStems(c: Contact, news: Contact, known: set<Contact>)
    requires Stems(c, known) && news in known
    ensures Stems(Renewed(c, news), known)
  {
  }

  /** `y` has sent nothing about itself but what is in `own`. */
  ghost predicate TellsOwn(w: World, y: Id, own: set<Contact>) {
    forall p :: p in w.net && p.from == y ==>
      && (p.frame.FriendRequest? ==> p.frame.contact in own)
      && (p.frame.FriendResponse? ==> p.frame.contact in own)
  }

  /** A device knows about `y` what `y` has announced and what its own user was given. */
  ghost predicate KnowsOwn(s: Store, y: Id, own: set<Contact>, given: set<Contact>) {
    && (y in s.requests ==> s.requests[y] in own)
    && (y in s.devices ==> Stems(s.devices[y].contact, own + given))
  }

  lemma TellingStaysOwn(w: World, a: Action, y: Id, own: set<Contact>)
    requires Enabled(w, a) && y in w.stores && TellsOwn(w, y, own)
    requires Announces(a, y) ==> a.own in own
    ensures TellsOwn(Next(w, a), y, own)
  {
  }

  lemma KnowingStaysOwn(w: World, a: Action, x: Id, y: Id, own: set<Contact>, given: set<Contact>)
    requires Enabled(w, a) && x in w.stores && TellsOwn(w, y, own) && KnowsOwn(w.stores[x], y, own, given)
    requires Enters(a, x, y) ==> a.contact in given
    ensures x in Next(w, a).stores && KnowsOwn(Next(w, a).stores[x], y, own, given)
  {
    if (a.Deliver? || a.DeliverAnswer?) && a.p.to == x && a.p.from == y && y in w.stores[x].devices {
      var frame, known := a.p.frame, w.stores[x].devices[y].contact;
      if frame.FriendRequest? || frame.FriendResponse? {
        RenewedStems(known, frame.contact, own + given);
      }
    }
  }

  lemma {:induction false} RunKnowsOwn(w: World, run: seq<Action>, x: Id, y: Id, own: set<Contact>, given: set<Contact>)
    requires IsRun(w, run) && x in w.stores && y in w.stores && TellsOwn(w, y, own)
    requires KnowsOwn(w.stores[x], y, own, given)
    requires forall a :: a in run && Announces(a, y) ==> a.own in own
    requires forall a :: a in run && Enters(a, x, y) ==> a.contact in given
    ensures x in After(w, run).stores && KnowsOwn(After(w, run).stores[x], y, own, given)
    decreases |run|
  {
    if run != [] {
      TellingStaysOwn(w, run[0], y, own);
      KnowingStaysOwn(w, run[0], x, y, own, given);
      RunKnowsOwn(Next(w, run[0]), run[1..], x, y, own, given);
    }
  }

  /** Nobody else can tell an honest device a name or an endpoint for another honest device:
      what is stored about it was entered by the own user or announced by that device, whatever
      third parties send. */
  lemma StoredContactIsOwn(ids: set<Id>, run: seq<Action>, x: Id, y: Id, own: set<Contact>, given: set<Contact>)
    requires IsRun(Fresh(ids), run) && x in ids && y in ids
    requires forall a :: a in run && Announces(a, y) ==> a.own in own
    requires forall a :: a in run && Enters(a, x, y) ==> a.contact in given
    ensures x in After(Fresh(ids), run).stores
    ensures var s := After(Fresh(ids), run).stores[x];
            && (y in s.requests ==> s.requests[y] in own)
            && (y in s.devices ==>
                  && (exists d :: d in own + given && d.name == s.devices[y].contact.name)
                  && (exists d :: d in own + given && d.endpoints == s.devices[y].contact.endpoints))
  {
    RunKnowsOwn(Fresh(ids), run, x, y, own, given);
  }

  // ----- completion ------------------------------------------------------------------------

  /** Steps that no user takes. */
  predicate IsNetwork(a: Action) {
    a.Resend? || a.Deliver? || a.DeliverAnswer? || a.Forge?
  }

  predicate AllNetwork(run: seq<Action>) {
    forall a :: a in run ==> IsNetwork(a)
  }

  /** `a` brings `x` an acceptance from `y` where it is listened to. */
  predicate BringsAcceptance(a: Action, x: Id, y: Id) {
    && ((a.Deliver? && !a.trustedConn) || a.DeliverAnswer?)
    && a.p.from == y && a.p.to == x && a.p.frame.FriendResponse? && a.p.frame.accepted
  }

  /** The network makes a device trust another exactly by bringing an acceptance that it
      waits for, and never takes trust away. */
  lemma NetworkTrustsExactly(w: World, a: Action, x: Id, y: Id)
    requires Enabled(w, a) && IsNetwork(a) && x in w.stores
    ensures x in Next(w, a).stores
    ensures var s, s' := w.stores[x], Next(w, a).stores[x];
            && (Trusts(s', y) <==> Trusts(s, y) || (Awaits(s, y) && BringsAcceptance(a, x, y)))
            && (Awaits(s', y) <==> Awaits(s, y) && !BringsAcceptance(a, x, y))
  {
  }

  lemma UserTrustIsManual(w: World, a: Action, x: Id, y: Id)
    requires Inv(w) && Enabled(w, a) && !IsNetwork(a) && x in w.stores && y in w.stores
    requires (y, x) !in w.wanted && !Trusts(w.stores[x], y)
    ensures x in Next(w, a).stores
    ensures Trusts(Next(w, a).stores[x], y) <==> a.AddManually? && a.x == x && a.y == y
  {
    assert StoreOk(w, x, w.stores[x]);
    assert y !in w.stores[x].requests;
  }

  /** Entering a device by hand is the only action that makes one honest device trust another
      whose user has never wanted it. */
  lemma OnlyManualTrustIsOneSided(w: World, a: Action, x: Id, y: Id)
    requires Inv(w) && Enabled(w, a) && x in w.stores && y in w.stores
    requires (y, x) !in w.wanted && !Trusts(w.stores[x], y)
    ensures x in Next(w, a).stores
    ensures Trusts(Next(w, a).stores[x], y) <==> a.AddManually? && a.x == x && a.y == y
  {
    if IsNetwork(a) {
      if a.Deliver? || a.DeliverAnswer? {
        assert PacketOk(w, a.p);
      }
      NetworkTrustsExactly(w, a, x, y);
    } else {
      UserTrustIsManual(w, a, x, y);
    }
  }

  ghost predicate Mutual(w: World, x: Id, y: Id) {
    x in w.stores && y in w.stores && Trusts(w.stores[x], y) && Trusts(w.stores[y], x)
  }

  /** Once trust is mutual no number of repeated, late or forged messages changes it. */
  lemma {:induction false} MutualTrustLasts(w: World, run: seq<Action>, x: Id, y: Id)
    requires IsRun(w, run) && AllNetwork(run) && Mutual(w, x, y)
    ensures Mutual(After(w, run), x, y)
    decreases |run|
  {
    if run != [] {
      NetworkTrustsExactly(w, run[0], x, y);
      NetworkTrustsExactly(w, run[0], y, x);
      MutualTrustLasts(Next(w, run[0]), run[1..], x, y);
    }
  }

  /** Runs one after the other. */
  lemma {:induction false} RunsJoin(w: World, r: seq<Action>, s: seq<Action>)
    requires IsRun(w, r) && IsRun(After(w, r), s)
    ensures IsRun(w, r + s) && After(w, r + s) == After(After(w, r), s)
    decreases |r|
  {
    if r == [] {
      assert r + s == s;
    } else {
      RunsJoin(Next(w, r[0]), r[1..], s);
      assert (r + s)[0] == r[0] && (r + s)[1..] == r[1..] + s;
    }
  }

  /** What is in the network stays there, and what was trusted is remembered. */
  lemma {:induction false} NothingIsForgotten(w: World, run: seq<Action>)
    requires IsRun(w, run)
    ensures w.net <= After(w, run).net && w.ever <= After(w, run).ever && After(w, run).stores.Keys == w.stores.Keys
    decreases |run|
  {
    if run != [] {
      NothingIsForgotten(Next(w, run[0]), run[1..]);
    }
  }

  /** `y` trusts `x`, and `x` trusts `y` or waits for it. */
  ghost predicate HalfWay(w: World, x: Id, y: Id) {
    && x in w.stores && y in w.stores && Trusts(w.stores[y], x) && (y, x) in w.ever
    && (Trusts(w.stores[x], y) || Awaits(w.stores[x], y))
  }

  lemma StepStaysHalfWay(w: World, a: Action, x: Id, y: Id)
    requires Enabled(w, a) && IsNetwork(a) && HalfWay(w, x, y)
    ensures HalfWay(Next(w, a), x, y)
    ensures BringsAcceptance(a, x, y) ==> Mutual(Next(w, a), x, y)
  {
    NetworkTrustsExactly(w, a, x, y);
    NetworkTrustsExactly(w, a, y, x);
  }

  lemma {:induction false} RunStaysHalfWay(w: World, run: seq<Action>, x: Id, y: Id)
    requires IsRun(w, run) && AllNetwork(run) && HalfWay(w, x, y)
    ensures HalfWay(After(w, run), x, y)
    decreases |run|
  {
    if run != [] {
      StepStaysHalfWay(w, run[0], x, y);
      RunStaysHalfWay(Next(w, run[0]), run[1..], x, y);
    }
  }

  /** One network step behind a run that led half way. */
  lemma OneMoreStep(w: World, run: seq<Action>, a: Action, x: Id, y: Id)
    requires IsRun(w, run) && HalfWay(After(w, run), x, y) && Enabled(After(w, run), a) && IsNetwork(a)
    ensures IsRun(w, run + [a]) && After(w, run + [a]) == Next(After(w, run), a)
    ensures HalfWay(After(w, run + [a]), x, y)
    ensures BringsAcceptance(a, x, y) ==> Mutual(After(w, run + [a]), x, y)
  {
    OneStep(After(w, run), a);
    RunsJoin(w, run, [a]);
    StepStaysHalfWay(After(w, run), a, x, y);
  }

  lemma MoreNetwork(w: World, run: seq<Action>, more: seq<Action>, x: Id, y: Id)
    requires IsRun(w, run) && HalfWay(After(w, run), x, y) && IsRun(After(w, run), more) && AllNetwork(more)
    ensures IsRun(w, run + more) && After(w, run + more) == After(After(w, run), more)
    ensures HalfWay(After(w, run + more), x, y) && After(w, run).net <= After(w, run + more).net
  {
    RunsJoin(w, run, more);
    RunStaysHalfWay(After(w, run), more, x, y);
    NothingIsForgotten(After(w, run), more);
  }

  /** A request that is sent again and reaches a device that trusts its sender is answered by
      an acceptance. */
  lemma ResentRequestIsAnswered(w: World, x: Id, y: Id, own: Contact, theirs: Contact, n1: seq<Action>)
    requires Inv(w) && x in w.stores && y in w.stores && Trusts(w.stores[y], x) && Awaits(w.stores[x], y)
    requires AllNetwork(n1) && IsRun(Next(w, Resend(x, y, own)), n1)
    ensures var request, response := Packet(x, y, FriendRequest(x, own)), Packet(y, x, FriendResponse(true, theirs));
            var run := [Resend(x, y, own)] + n1;
            var a2 := Deliver(request, true, theirs);
            && IsRun(w, run) && After(w, run) == After(Next(w, Resend(x, y, own)), n1) && Enabled(After(w, run), a2)
            && IsRun(w, run + [a2]) && HalfWay(After(w, run + [a2]), x, y) && response in After(w, run + [a2]).net
            && After(w, run + [a2]) == Next(After(w, run), a2)
  {
    var a1, a2 := Resend(x, y, own), Deliver(Packet(x, y, FriendRequest(x, own)), true, theirs);
    assert StoreOk(w, x, w.stores[x]) && StoreOk(w, y, w.stores[y]);
    assert IsRun(w, []) && After(w, []) == w && [] + [a1] == [a1];
    OneMoreStep(w, [], a1, x, y);
    MoreNetwork(w, [a1], n1, x, y);
    assert a2.p in After(w, [a1]).net;
    OneMoreStep(w, [a1] + n1, a2, x, y);
  }

  /** If B trusts A while A still waits for B, then a request that is sent again, delivered and
      answered makes trust mutual, whatever else the network does in between. */
  lemma ResentRequestCompletes(w: World, x: Id, y: Id, own: Contact, theirs: Contact, n1: seq<Action>, n2: seq<Action>)
    requires Inv(w) && x in w.stores && y in w.stores && Trusts(w.stores[y], x) && Awaits(w.stores[x], y)
    requires AllNetwork(n1) && AllNetwork(n2) && IsRun(Next(w, Resend(x, y, own)), n1)
    requires var request := Deliver(Packet(x, y, FriendRequest(x, own)), true, theirs);
             var w1 := After(Next(w, Resend(x, y, own)), n1);
             Enabled(w1, request) ==> IsRun(Next(w1, request), n2)
    ensures var request, response := Packet(x, y, FriendRequest(x, own)), Packet(y, x, FriendResponse(true, theirs));
            var run := [Resend(x, y, own)] + n1 + [Deliver(request, true, theirs)] + n2 + [DeliverAnswer(response)];
            IsRun(w, run) && Mutual(After(w, run), x, y)
  {
    var request, response := Packet(x, y, FriendRequest(x, own)), Packet(y, x, FriendResponse(true, theirs));
    var front := [Resend(x, y, own)] + n1 + [Deliver(request, true, theirs)];
    ResentRequestIsAnswered(w, x, y, own, theirs, n1);
    MoreNetwork(w, front, n2, x, y);
    OneMoreStep(w, front + n2, DeliverAnswer(response), x, y);
  }

  lemma OneStep(w: World, a: Action)
    requires Enabled(w, a)
    ensures IsRun(w, [a]) && After(w, [a]) == Next(w, a)
  {
    assert [a][1..] == [];
  }

  lemma TwoSteps(w: World, a1: Action, a2: Action)
    requires Enabled(w, a1) && Enabled(Next(w, a1), a2)
    ensures IsRun(w, [a1, a2]) && After(w, [a1, a2]) == Next(Next(w, a1), a2)
  {
    OneStep(Next(w, a1), a2);
    assert [a1, a2][1..] == [a2];
  }

  /** Requests that cross: asking someone whose request is here accepts it, and the
      acceptance makes trust mutual. */
  lemma CrossingRequestsResolve(w: World, x: Id, y: Id, contact: Contact, own: Contact, theirs: Contact)
    requires x in w.stores && y in w.stores && x != y
    requires y in w.stores[x].requests && !Trusts(w.stores[x], y) && Awaits(w.stores[y], x)
    ensures var response := Packet(x, y, FriendResponse(true, own));
            var run := [Ask(x, y, contact, own), Deliver(response, false, theirs)];
            && IsRun(w, run) && Mutual(After(w, run), x, y)
            && y !in After(w, run).stores[x].requests
  {
    var a1, a2 := Ask(x, y, contact, own), Deliver(Packet(x, y, FriendResponse(true, own)), false, theirs);
    var w1 := Next(w, a1);
    NetworkTrustsExactly(w1, a2, x, y);
    NetworkTrustsExactly(w1, a2, y, x);
    TwoSteps(w, a1, a2);
  }

  lemma AskedAndDelivered(w: World, x: Id, y: Id, contact: Contact, own: Contact, theirs: Contact)
    requires x in w.stores && y in w.stores && x != y
    requires !Trusts(w.stores[x], y) && y !in w.stores[x].requests
    ensures var run := [Ask(x, y, contact, own), Deliver(Packet(x, y, FriendRequest(x, own)), false, theirs)];
            && IsRun(w, run) && After(w, run).stores.Keys == w.stores.Keys
            && y in After(w, run).stores[x].devices && After(w, run).stores[x].devices[y] == Device(contact, false, true)
            && x in After(w, run).stores[y].requests && After(w, run).stores[y].requests[x] == own
  {
    TwoSteps(w, Ask(x, y, contact, own), Deliver(Packet(x, y, FriendRequest(x, own)), false, theirs));
  }

  lemma AcceptedAndDelivered(w: World, x: Id, y: Id, own: Contact, theirs: Contact)
    requires x in w.stores && y in w.stores && x != y
    requires Awaits(w.stores[x], y) && x in w.stores[y].requests
    ensures var run := [Accept(y, x, theirs), Deliver(Packet(y, x, FriendResponse(true, theirs)), false, own)];
            && IsRun(w, run) && Mutual(After(w, run), x, y)
            && After(w, run).stores[y].devices[x].contact == w.stores[y].requests[x]
            && After(w, run).stores[x].devices[y].contact == Renewed(w.stores[x].devices[y].contact, theirs)
  {
    TwoSteps(w, Accept(y, x, theirs), Deliver(Packet(y, x, FriendResponse(true, theirs)), false, own));
  }

  /** The whole handshake: a request that is delivered and accepted, and whose acceptance
      comes back, makes trust mutual. Each side has stored what the other told of itself. */
  lemma AcceptedRequestCompletes(w: World, x: Id, y: Id, contact: Contact, own: Contact, theirs: Contact)
    requires x in w.stores && y in w.stores && x != y
    requires !Trusts(w.stores[x], y) && y !in w.stores[x].requests
    ensures var request, response := Packet(x, y, FriendRequest(x, own)), Packet(y, x, FriendResponse(true, theirs));
            var run := [Ask(x, y, contact, own), Deliver(request, false, theirs)]
                       + [Accept(y, x, theirs), Deliver(response, false, own)];
            && IsRun(w, run) && Mutual(After(w, run), x, y)
            && After(w, run).stores[y].devices[x].contact == own
            && After(w, run).stores[x].devices[y].contact.name == (if theirs.name != "" then theirs.name else contact.name)
            && After(w, run).stores[x].devices[y].contact.endpoints
               == (if theirs.endpoints != [] then theirs.endpoints else contact.endpoints)
  {
    var request, response := Packet(x, y, FriendRequest(x, own)), Packet(y, x, FriendResponse(true, theirs));
    var a1, a2 := Ask(x, y, contact, own), Deliver(request, false, theirs);
    var a3, a4 := Accept(y, x, theirs), Deliver(response, false, own);
    AskedAndDelivered(w, x, y, contact, own, theirs);
    AcceptedAndDelivered(After(w, [a1, a2]), x, y, own, theirs);
    RunsJoin(w, [a1, a2], [a3, a4]);
  }
}
