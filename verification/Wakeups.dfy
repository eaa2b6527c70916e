// How long polls and live streams learn of changes: a broadcast channel that is closed
// and replaced, and one-slot buffers that coalesce wake-ups. Any number of changes are
// committed and then announced, in any order, while any number of polls and streams
// register, read the store and park.
module Wakeups {
  import opened Options
  import opened Store

  type ChangeId = nat
  type WaiterId = nat
  type ChannelId = nat

  /** A long poll: it took the current channel, then read the store, then waits for the channel to close. */
  datatype Poll = Registered(channel: ChannelId) | Parked(channel: ChannelId, seen: set<ChangeId>)

  /** A stream: it must read the store, or it waits for its buffer to fill. */
  datatype Stream = MustRead | Waiting(seen: set<ChangeId>)

  /**
    * `committed` changes are in the store; `notified` and `published` are those whose
    * notify and publish have completed. `buffers` holds each subscriber's slot.
    */
  datatype State = State(committed: set<ChangeId>, notified: set<ChangeId>, published: set<ChangeId>,
                         channel: ChannelId, polls: map<WaiterId, Poll>,
                         buffers: map<ChannelId, bool>, streams: map<ChannelId, Stream>)

  /** Publish fills every buffer; a full one stays full. */
  function Filled(buffers: map<ChannelId, bool>): map<ChannelId, bool> {
    map c | c in buffers :: true
  }

  datatype Move =
    | Commit(change: ChangeId)
    | Notify(change: ChangeId)
    | Publish(change: ChangeId)
    | Register(poll: WaiterId)
    | PollRead(poll: WaiterId)
    | PollWake(poll: WaiterId)
    | PollStop(poll: WaiterId)
    | Subscribe(stream: ChannelId)
    | StreamRead(stream: ChannelId)
    | StreamWake(stream: ChannelId)
    | Unsubscribe(stream: ChannelId)

  predicate Allowed(s: State, m: Move) {
    match m
    case Commit(change) => change !in s.committed
    case Notify(change) => change in s.committed
    case Publish(change) => change in s.committed
    case Register(p) => p !in s.polls
    case PollRead(p) => p in s.polls && s.polls[p].Registered?
    case PollWake(p) => p in s.polls && s.polls[p].Parked? && s.polls[p].channel != s.channel
    case PollStop(p) => p in s.polls
    case Subscribe(c) => c !in s.streams && c !in s.buffers
    case StreamRead(c) => c in s.streams && s.streams[c].MustRead?
    case StreamWake(c) => c in s.streams && s.streams[c].Waiting? && c in s.buffers && s.buffers[c]
    case Unsubscribe(c) => c in s.streams
  }

  function Moved(s: State, m: Move): State
    requires Allowed(s, m)
  {
    match m
    case Commit(change) => s.(committed := s.committed + {change})
    case Notify(change) => s.(notified := s.notified + {change}, channel := s.channel + 1)
    case Publish(change) => s.(published := s.published + {change}, buffers := Filled(s.buffers))
    case Register(p) => s.(polls := s.polls[p := Registered(s.channel)])
    case PollRead(p) => s.(polls := s.polls[p := Parked(s.polls[p].channel, s.committed)])
    case PollWake(p) => s.(polls := s.polls[p := Registered(s.channel)])
    case PollStop(p) => s.(polls := s.polls - {p})
    case Subscribe(c) => s.(buffers := s.buffers[c := false], streams := s.streams[c := MustRead])
    case StreamRead(c) => s.(streams := s.streams[c := Waiting(s.committed)])
    case StreamWake(c) => s.(buffers := s.buffers[c := false], streams := s.streams[c := MustRead])
    case Unsubscribe(c) => s.(buffers := s.buffers - {c}, streams := s.streams - {c})
  }

  const START := State({}, {}, {}, 0, map[], map[], map[])

  predicate Legal(moves: seq<Move>)
    decreases |moves|, 0
  {
    moves == [] || (Legal(moves[..|moves| - 1]) && Allowed(After(moves[..|moves| - 1]), moves[|moves| - 1]))
  }

  function After(moves: seq<Move>): State
    requires Legal(moves)
    decreases |moves|, 1
  {
    if moves == [] then START else Moved(After(moves[..|moves| - 1]), moves[|moves| - 1])
  }

  ghost predicate Inv(s: State) {
    && s.notified <= s.committed && s.published <= s.committed
    && (forall p :: p in s.polls ==> s.polls[p].channel <= s.channel)
    && (forall p :: p in s.polls && s.polls[p].Parked? && s.polls[p].channel == s.channel ==> s.notified <= s.polls[p].seen)
    && (forall c :: c in s.streams ==> c in s.buffers)
    && (forall c :: c in s.streams && s.streams[c].Waiting? && !s.buffers[c] ==> s.published <= s.streams[c].seen)
  }

  lemma {:induction false} PollMoveKeeps(s: State, m: Move)
    requires Inv(s) && Allowed(s, m) && (m.Register? || m.PollRead? || m.PollWake? || m.PollStop?)
    ensures Inv(Moved(s, m))
  {
  }

  lemma {:induction false} StreamMoveKeeps(s: State, m: Move)
    requires Inv(s) && Allowed(s, m) && (m.Subscribe? || m.StreamRead? || m.StreamWake? || m.Unsubscribe?)
    ensures Inv(Moved(s, m))
  {
  }

  lemma {:induction false} ChangeMoveKeeps(s: State, m: Move)
    requires Inv(s) && Allowed(s, m) && (m.Commit? || m.Notify? || m.Publish?)
    ensures Inv(Moved(s, m))
  {
  }

  lemma {:induction false} InvHolds(moves: seq<Move>)
    requires Legal(moves)
    ensures Inv(After(moves))
    decreases |moves|
  {
    if moves != [] {
      var s, m := After(moves[..|moves| - 1]), moves[|moves| - 1];
      InvHolds(moves[..|moves| - 1]);
      if m.Commit? || m.Notify? || m.Publish? {
        ChangeMoveKeeps(s, m);
      } else if m.Register? || m.PollRead? || m.PollWake? || m.PollStop? {
        PollMoveKeeps(s, m);
      } else {
        StreamMoveKeeps(s, m);
      }
    }
  }

  /**
    * No lost wake-ups. A poll parked on a channel that is still open has read a state with
    * every change whose notify has completed; a stream parked with an empty buffer has
    * read one with every change whose publish has completed. Otherwise its wake-up is due.
    */
  lemma {:induction false} NoLostWakeUp(moves: seq<Move>, p: WaiterId, c: ChannelId)
    requires Legal(moves)
    ensures var s := After(moves);
            && (p in s.polls && s.polls[p].Parked? ==> s.notified <= s.polls[p].seen || Allowed(s, PollWake(p)))
            && (c in s.streams && s.streams[c].Waiting? ==> s.published <= s.streams[c].seen || Allowed(s, StreamWake(c)))
  {
    InvHolds(moves);
  }

  // ------------------------------------------------------------ the live objects

  /** changeSignal: the channel that waiters take, and the channels closed so far. */
  class ChangeSignal {
    var channel: ChannelId
    var closed: set<ChannelId>

    /** The current channel is open, and every channel handed out before it is closed. */
    ghost predicate Valid()
      reads this
    {
      forall c: ChannelId {:trigger c in closed} :: c in closed <==> c < channel
    }

    constructor ()
      ensures Valid() && channel == 0
    {
      channel, closed := 0, {};
    }

    /** The channel taken is open; it closes with the next notification. */
    method Wait() returns (current: ChannelId)
      requires Valid()
      ensures current == channel && current !in closed
    {
      return channel;
    }

    /** Wakes everybody who took a channel before: each such channel is closed, and a new one is open. */
    method Notify()
      requires Valid()
      modifies this
      ensures Valid() && channel == old(channel) + 1
      ensures closed == old(closed) + {old(channel)}
      ensures forall c: ChannelId {:trigger c in closed} :: c <= old(channel) ==> c in closed
    {
      closed := closed + {channel};
      channel := channel + 1;
    }
  }

  class EventBus {
    var subscribers: map<ChannelId, bool>

    constructor ()
      ensures subscribers == map[]
    {
      subscribers := map[];
    }

    method Subscribe(channel: ChannelId)
      requires channel !in subscribers
      modifies this
      ensures subscribers == old(subscribers)[channel := false]
    {
      subscribers := subscribers[channel := false];
    }

    method Unsubscribe(channel: ChannelId)
      modifies this
      ensures subscribers == old(subscribers) - {channel}
    {
      subscribers := subscribers - {channel};
    }

    /** Sends to each subscriber without blocking: a full slot drops the wake-up. */
    method Publish()
      modifies this
      ensures subscribers == Filled(old(subscribers))
    {
      var todo := subscribers.Keys;
      while todo != {}
        invariant todo <= subscribers.Keys == old(subscribers).Keys
        invariant forall c :: c in subscribers ==> subscribers[c] == (c !in todo || old(subscribers)[c])
      {
        var c :| c in todo;
        todo := todo - {c};
        if !subscribers[c] {
          subscribers := subscribers[c := true];
        }
      }
    }
  }

  // ------------------------------------------------------------------- the loops

  function States(r: Request): seq<ItemState> {
    seq(|r.items|, i requires 0 <= i < |r.items| => r.items[i].state)
  }

  /** Some item of the request has changed state, or its items are not as many. */
  predicate Differs(first: Request, current: Request) {
    |current.items| != |first.items| || exists i :: 0 <= i < |first.items| && current.items[i].state != first.items[i].state
  }

  lemma {:induction false} StatesExact(first: Request, current: Request)
    ensures States(current) != States(first) <==> Differs(first, current)
  {
    if !Differs(first, current) {
      assert forall i :: 0 <= i < |first.items| ==> States(current)[i] == States(first)[i];
    } else if |current.items| == |first.items| {
      var i :| 0 <= i < |first.items| && current.items[i].state != first.items[i].state;
      assert States(current)[i] != States(first)[i];
    }
  }

  /** The read finds the request with every item in the state it first had, and a change ends the wait. */
  predicate StaysParked(first: Request, snapshot: Option<Request>, changed: bool) {
    snapshot.Some? && !Differs(first, snapshot.value) && changed
  }

  datatype PollEnd = Answer(request: Request) | ReadFailed | StillParked

  /**
    * The long poll over what its reads return and whether each wait ends by a change. It
    * answers with the first read in which an item has another state than at first, or, once
    * a wait times out, with the last read.
    */
  method LongPoll(first: Request, snapshots: seq<Option<Request>>, changed: seq<bool>) returns (end: PollEnd, n: nat)
    requires |changed| == |snapshots|
    ensures n <= |snapshots|
    ensures !HasPending(first.items) ==> end == Answer(first) && n == 0
    ensures HasPending(first.items) ==>
              && (forall i :: 0 <= i < n - 1 ==> StaysParked(first, snapshots[i], changed[i]))
              && (end.StillParked? <==> n == |snapshots| && (n > 0 ==> StaysParked(first, snapshots[n - 1], changed[n - 1])))
              && (end.ReadFailed? ==> n > 0 && snapshots[n - 1] == None)
              && (end.Answer? ==> n > 0 && snapshots[n - 1] == Some(end.request) && (Differs(first, end.request) || !changed[n - 1]))
  {
    n := 0;
    if !HasPending(first.items) {
      return Answer(first), 0;
    }
    var initial := States(first);
    for k := 0 to |snapshots|
      invariant n == k
      invariant forall i :: 0 <= i < k ==> StaysParked(first, snapshots[i], changed[i])
    {
      n := k + 1;
      if snapshots[k] == None {
        return ReadFailed, n;
      }
      var current := snapshots[k].value;
      StatesExact(first, current);
      if States(current) != initial {
        return Answer(current), n;
      }
      if !changed[k] {
        return Answer(current), n;
      }
    }
    return StillParked, n;
  }

  /** What a Requester sees of an item, and of a request. */
  datatype ItemView = ItemView(id: Id, path: string, capabilities: seq<string>, state: ItemState, reason: Reason, ttl: int, expiresAt: int)
  datatype View = View(id: Id, createdAt: int, items: seq<ItemView>)

  function ViewItem(r: Request, item: Item): ItemView {
    var expiresAt := if item.state == Pending then r.pendingUntil
                     else if item.state == Approved || item.state == Revoked then item.grantExpires else 0;
    ItemView(item.id, item.path, item.capabilities, item.state, item.reason, if item.ttl > 0 then item.ttl else 0, expiresAt)
  }

  function ViewOf(r: Request): View {
    View(r.id, r.createdAt, seq(|r.items|, i requires 0 <= i < |r.items| => ViewItem(r, r.items[i])))
  }

  /** What is shown of an item: what was asked, what became of it and why, and when that lapses. */
  lemma {:induction false} ViewExact(r: Request, i: nat)
    requires i < |r.items|
    ensures ViewOf(r).id == r.id && ViewOf(r).createdAt == r.createdAt && |ViewOf(r).items| == |r.items|
    ensures var item, view := r.items[i], ViewOf(r).items[i];
            && view.id == item.id && view.path == item.path && view.capabilities == item.capabilities
            && view.state == item.state && view.reason == item.reason
            && (item.ttl >= 0 ==> view.ttl == item.ttl)
            && match item.state
               case Pending => view.expiresAt == r.pendingUntil
               case Approved => view.expiresAt == item.grantExpires
               case Revoked => view.expiresAt == item.grantExpires
               case _ => view.expiresAt == 0
  {
  }

  /** A change of any item's state is a change of what is shown, so that it is sent. */
  lemma {:induction false} DifferenceIsShown(first: Request, current: Request)
    requires Differs(first, current)
    ensures ViewOf(current) != ViewOf(first)
  {
    if |current.items| == |first.items| {
      var i :| 0 <= i < |first.items| && current.items[i].state != first.items[i].state;
      assert ViewOf(current).items[i].state != ViewOf(first).items[i].state;
    }
  }

  /** The views of the first n reads, without immediate repetitions. */
  function Distinct(snapshots: seq<Option<Request>>, n: nat): seq<View>
    requires n <= |snapshots| && forall i :: 0 <= i < n ==> snapshots[i].Some?
  {
    if n == 0 then []
    else
      var before := Distinct(snapshots, n - 1);
      var view := ViewOf(snapshots[n - 1].value);
      if before != [] && before[|before| - 1] == view then before else before + [view]
  }

  lemma {:induction false} DistinctEnds(snapshots: seq<Option<Request>>, n: nat)
    requires n <= |snapshots| && forall i :: 0 <= i < n ==> snapshots[i].Some?
    ensures n > 0 ==> Distinct(snapshots, n) != [] && Distinct(snapshots, n)[|Distinct(snapshots, n)| - 1] == ViewOf(snapshots[n - 1].value)
    ensures n == 0 ==> Distinct(snapshots, n) == []
    ensures forall k :: 0 < k < |Distinct(snapshots, n)| ==> Distinct(snapshots, n)[k - 1] != Distinct(snapshots, n)[k]
    ensures n > 0 ==> Distinct(snapshots, n - 1) <= Distinct(snapshots, n) && |Distinct(snapshots, n)| <= |Distinct(snapshots, n - 1)| + 1
  {
    if n > 0 {
      DistinctEnds(snapshots, n - 1);
    }
  }

  datatype WatchEnd = Finished | Broken | Watching

  /**
    * The watch loop over what its reads return, and whether each send and each wait
    * succeeds. It sends every state that differs from the one sent before, and ends
    * normally exactly when it has just dealt with a state with nothing pending.
    */
  method WatchGrantRequest(snapshots: seq<Option<Request>>, sends: seq<bool>, waits: seq<bool>) returns (sent: seq<View>, end: WatchEnd, n: nat)
    requires |sends| == |waits| == |snapshots|
    ensures n <= |snapshots| && forall i :: 0 <= i < n ==> snapshots[i].Some?
    ensures sent == Distinct(snapshots, n)
    ensures forall i :: 0 <= i < n - 1 ==> HasPending(snapshots[i].value.items) && waits[i]
    ensures end.Finished? <==> n > 0 && !HasPending(snapshots[n - 1].value.items)
    ensures end.Finished? ==> sent != [] && sent[|sent| - 1] == ViewOf(snapshots[n - 1].value)
    ensures end.Broken? ==> (n < |snapshots| && (snapshots[n] == None || !sends[n])) || (n > 0 && !waits[n - 1])
    ensures end.Watching? ==> n == |snapshots| && forall i :: 0 <= i < n ==> HasPending(snapshots[i].value.items) && waits[i]
  {
    sent := [];
    var last: Option<View> := None;
    n := 0;
    for k := 0 to |snapshots|
      invariant n == k && forall i :: 0 <= i < k ==> snapshots[i].Some?
      invariant sent == Distinct(snapshots, k)
      invariant last == if sent == [] then None else Some(sent[|sent| - 1])
      invariant forall i :: 0 <= i < k ==> HasPending(snapshots[i].value.items) && waits[i]
    {
      if snapshots[k] == None {
        return sent, Broken, n;
      }
      var current := snapshots[k].value;
      var rendered := ViewOf(current);
      if last != Some(rendered) {
        if !sends[k] {
          return sent, Broken, n;
        }
        sent := sent + [rendered];
        last := Some(rendered);
      }
      n := k + 1;
      DistinctEnds(snapshots, n);
      if !HasPending(current.items) {
        return sent, Finished, n;
      }
      if !waits[k] {
        return sent, Broken, n;
      }
    }
    return sent, Watching, n;
  }
}
