/** Host.listenForEvents: the loop that polls enet_host_service with a 1000
    ms timeout and dispatches each event to the handler. The native poll is
    a finite script of results; each result is the status the call returns
    and the _ENetEvent record it leaves in the event segment. The handler is
    represented by the sequence of callbacks it receives. */
module Service {
  import Wrappers
  import opened Memory
  import opened Records
  import Events

  /** An _ENetEvent record as enet_host_service leaves it. */
  type EventRecord = s: seq<byte> | |s| == EventBytes witness Zeros(EventBytes)

  /** One return of enet_host_service. */
  datatype Poll = Poll(status: int32, record: EventRecord)

  /** A handler call, with the event segment's contents at the time of the
      call. */
  datatype Callback =
    | OnConnect(event: seq<byte>)
    | OnDisconnect(event: seq<byte>)
    | OnReceive(event: seq<byte>)

  /** The exceptions that end the loop. */
  datatype Failure =
    | ServiceError(status: int32)
    | UnknownEvent(tag: int32)

  /** How the loop stands: ended by an exception, or still polling when
      the script runs out (the loop itself never ends normally). */
  datatype Exit = Fatal(failure: Failure) | StillPolling

  /** The callbacks made, how the loop stands, and how many polls it made. */
  datatype Outcome = Outcome(callbacks: seq<Callback>, exit: Exit, polls: nat)

  /** One iteration for one poll: no call for status 0, an error for a
      negative status, otherwise the decoded event's callback (none for
      None), or the decoding error. A callback comes exactly when the
      status is positive and the record's tag is 1, 2 or 3, and it is the
      one for that event, carrying that record. */
  function Step(p: Poll): (r: Wrappers.Result<Wrappers.Option<Callback>, Failure>)
    ensures r.Err? <==> p.status < 0 || (p.status > 0 && Events.FromUnsafe(p.record).Err?)
    ensures r.Ok? && r.value.Some? <==>
      p.status > 0 && Events.FromUnsafe(p.record).Ok? && Events.FromUnsafe(p.record).value != Events.None
    ensures r.Ok? && r.value.Some? ==>
      Events.FromUnsafe(p.record) == Wrappers.Ok(Kind(r.value.value))
      && r.value.value.event == p.record
  {
    if p.status == 0 then Wrappers.Ok(Wrappers.None)
    else if p.status < 0 then Wrappers.Err(ServiceError(p.status))
    else match Events.FromUnsafe(p.record)
      case Err(UnknownEventType(t)) => Wrappers.Err(UnknownEvent(t))
      case Ok(None) => Wrappers.Ok(Wrappers.None)
      case Ok(Connect) => Wrappers.Ok(Wrappers.Some(OnConnect(p.record)))
      case Ok(Disconnect) => Wrappers.Ok(Wrappers.Some(OnDisconnect(p.record)))
      case Ok(Receive) => Wrappers.Ok(Wrappers.Some(OnReceive(p.record)))
  }

  /** The decoded event a callback stands for. */
  function Kind(c: Callback): Events.Event
  {
    match c
    case OnConnect(_) => Events.Connect
    case OnDisconnect(_) => Events.Disconnect
    case OnReceive(_) => Events.Receive
  }

  /** The loop run over a script, poll by poll; after an exception no further
      poll is made. */
  function Run(script: seq<Poll>): (o: Outcome)
    ensures o.polls <= |script|
    ensures o.exit.StillPolling? ==> o.polls == |script|
    decreases |script|
  {
    if script == [] then Outcome([], StillPolling, 0)
    else
      var before := Run(script[..|script| - 1]);
      if before.exit.Fatal? then before
      else match Step(script[|script| - 1])
        case Err(f) => Outcome(before.callbacks, Fatal(f), before.polls + 1)
        case Ok(None) => Outcome(before.callbacks, StillPolling, before.polls + 1)
        case Ok(Some(c)) => Outcome(before.callbacks + [c], StillPolling, before.polls + 1)
  }

  /** The polls that end the loop. */
  predicate Ends(p: Poll)
  {
    Step(p).Err?
  }

  /** The number of callbacks a run of non-ending polls produces. */
  function Delivered(script: seq<Poll>): nat
    decreases |script|
  {
    if script == [] then 0
    else
      var p := script[|script| - 1];
      Delivered(script[..|script| - 1])
        + (if Step(p).Ok? && Step(p).value.Some? then 1 else 0)
  }

  /** An exception is final: polls after it change nothing. */
  lemma {:induction false} FatalIsFinal(script: seq<Poll>, more: seq<Poll>)
    requires Run(script).exit.Fatal?
    ensures Run(script + more) == Run(script)
    decreases |more|
  {
    if more != [] {
      var all := script + more;
      assert all[..|all| - 1] == script + more[..|more| - 1];
      FatalIsFinal(script, more[..|more| - 1]);
      assert Run(all[..|all| - 1]).exit.Fatal?;
    } else {
      assert script + more == script;
    }
  }

  /** The loop keeps polling exactly as long as no poll ends it; then every
      poll produced at most one callback and exactly one for each positive
      status with a known, non-None event. */
  lemma {:induction false} RunWithoutFailure(script: seq<Poll>)
    ensures Run(script).exit.StillPolling? <==> forall i :: 0 <= i < |script| ==> !Ends(script[i])
    ensures Run(script).exit.StillPolling? ==> |Run(script).callbacks| == Delivered(script)
    decreases |script|
  {
    if script != [] {
      var init := script[..|script| - 1];
      RunWithoutFailure(init);
      assert forall i :: 0 <= i < |init| ==> init[i] == script[i];
    }
  }

  /** When the loop fails, it failed at its last poll, on the first poll
      that ends it, for that poll's reason. */
  lemma {:induction false} RunFailure(script: seq<Poll>)
    requires Run(script).exit.Fatal?
    ensures var o := Run(script);
      && 0 < o.polls <= |script|
      && Step(script[o.polls - 1]) == Wrappers.Err(o.exit.failure)
      && (forall i :: 0 <= i < o.polls - 1 ==> !Ends(script[i]))
    decreases |script|
  {
    var init := script[..|script| - 1];
    assert forall i :: 0 <= i < |init| ==> init[i] == script[i];
    if Run(init).exit.Fatal? {
      RunFailure(init);
    } else {
      RunWithoutFailure(init);
    }
  }

  /** Every callback is for the event its record's type member names, and
      never for None. */
  lemma {:induction false} CallbacksMatchTags(script: seq<Poll>)
    ensures forall c :: c in Run(script).callbacks ==>
      |c.event| == EventBytes && Events.FromUnsafe(c.event) == Wrappers.Ok(Kind(c))
    decreases |script|
  {
    if script != [] {
      CallbacksMatchTags(script[..|script| - 1]);
    }
  }

  /** A session: an idle poll, a connection, a received packet, then a
      failing poll. The handler hears of the connection and the packet, in
      that order, and the loop ends with the failing status. */
  lemma Session(idle: EventRecord, connect: EventRecord, receive: EventRecord)
    requires idle == Zeros(EventBytes)
    requires connect == Events.WithType(Zeros(EventBytes), 1)
    requires receive == Events.WithType(Zeros(EventBytes), 3)
    ensures Run([Poll(0, idle), Poll(1, connect), Poll(1, receive), Poll(-1, idle)])
      == Outcome([OnConnect(connect), OnReceive(receive)], Fatal(ServiceError(-1)), 4)
  {
    Events.FromUnsafeReadsType(Zeros(EventBytes), 1);
    Events.FromUnsafeReadsType(Zeros(EventBytes), 3);
    assert Step(Poll(1, connect)) == Wrappers.Ok(Wrappers.Some(OnConnect(connect)));
    assert Step(Poll(1, receive)) == Wrappers.Ok(Wrappers.Some(OnReceive(receive)));
    var s := [Poll(0, idle), Poll(1, connect), Poll(1, receive), Poll(-1, idle)];
    assert s[..1][..0] == [];
    assert Run(s[..1]) == Outcome([], StillPolling, 1);
    assert s[..2][..1] == s[..1];
    assert Run(s[..2]) == Outcome([OnConnect(connect)], StillPolling, 2);
    assert s[..3][..2] == s[..2];
    assert Run(s[..3]) == Outcome([OnConnect(connect), OnReceive(receive)], StillPolling, 3);
    assert s[..3] == s[..|s| - 1];
  }

  /** listenForEvents over a script: the event segment is allocated once and
      reused; every poll overwrites it, and a callback sees it as it is. */
  method ListenForEvents(script: seq<Poll>) returns (o: Outcome)
    ensures o == Run(script)
  {
    var eventSegment := new byte[EventBytes](_ => 0);
    var callbacks: seq<Callback> := [];
    var polls: nat := 0;
    while polls < |script|
      invariant polls <= |script|
      invariant Run(script[..polls]) == Outcome(callbacks, StillPolling, polls)
    {
      var p := script[polls];
      forall k | 0 <= k < EventBytes {
        eventSegment[k] := p.record[k];
      }
      assert eventSegment[..] == p.record;
      assert script[..polls + 1][..polls] == script[..polls];
      polls := polls + 1;
      var status := p.status;
      if status == 0 {
        // no event
      } else if status < 0 {
        o := Outcome(callbacks, Fatal(ServiceError(status)), polls);
        FatalIsFinal(script[..polls], script[polls..]);
        assert script[..polls] + script[polls..] == script;
        return;
      } else {
        match Events.FromUnsafe(eventSegment[..])
        case Err(UnknownEventType(t)) =>
          o := Outcome(callbacks, Fatal(UnknownEvent(t)), polls);
          FatalIsFinal(script[..polls], script[polls..]);
          assert script[..polls] + script[polls..] == script;
          return;
        case Ok(None) =>
        case Ok(Connect) =>
          callbacks := callbacks + [OnConnect(eventSegment[..])];
        case Ok(Disconnect) =>
          callbacks := callbacks + [OnDisconnect(eventSegment[..])];
        case Ok(Receive) =>
          callbacks := callbacks + [OnReceive(eventSegment[..])];
      }
    }
    assert script[..polls] == script;
    o := Outcome(callbacks, StillPolling, polls);
  }
}
