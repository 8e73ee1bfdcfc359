/** EnetServer.start: initialise ENet, create a host listening on every
    interface at port 17091 (as a try-with-resources resource), install the
    CRC32 checksum and the range coder, listen for events, and on the way
    out close the host and, in the finally block, deinitialise ENet. Each
    native call is recorded in a trace; the native side says which calls
    throw and what they answer. */
module Server {
  import opened Memory
  import Wrappers
  import Hosts
  import Service

  /** ENET_HOST_ANY and the arguments start passes to Host.create. */
  const HostAny: int32 := 0
  const Port: int16 := 17091
  const PeerCount: int64 := 1024
  const ChannelLimit: int64 := 10
  const IncomingBandwidth: int32 := 0
  const OutgoingBandwidth: int32 := 0

  const ListenAddress: Hosts.Address := Hosts.Address(HostAny, Port)

  /** The native calls start makes. */
  datatype Op =
    | Initialize
    | HostCreate(address: Hosts.Address, peerCount: int64, channelLimit: int64,
                 incomingBandwidth: int32, outgoingBandwidth: int32)
    | SetChecksum(host: Hosts.Host)
    | Compress(host: Hosts.Host)
    | Listen(host: Hosts.Host, polls: nat)
    | HostDestroy(host: Hosts.Host)
    | Deinitialize

  /** The Host.create call start makes: 0:17091, 1024 peers, 10 channels,
      unlimited bandwidth. */
  const Creation: Op := HostCreate(ListenAddress, PeerCount, ChannelLimit, IncomingBandwidth, OutgoingBandwidth)

  /** The native side: which calls throw, the address enet_host_create
      answers for start's one call (0 for NULL), and the polls
      enet_host_service answers. */
  datatype Native = Native(
    initializeThrows: bool,
    createThrows: bool,
    created: nat,
    checksumThrows: bool,
    compressThrows: bool,
    script: seq<Service.Poll>,
    destroyThrows: bool,
    deinitializeThrows: bool)

  /** The exceptions start can let escape. */
  datatype Error =
    | InitializeFailed
    | CreateFailed
    | NullHost
    | ChecksumFailed
    | CompressFailed
    | ListenFailed(failure: Service.Failure)
    | DestroyFailed
    | DeinitializeFailed

  /** start either throws, with the exceptions suppressed on the way out,
      or is still listening when the poll script runs out. */
  datatype Exit =
    | Escaped(error: Error, suppressed: seq<Error>)
    | Running(callbacks: seq<Service.Callback>)

  /** Host creation fails: the call throws or answers NULL. */
  predicate CreateFails(n: Native)
  {
    n.createThrows || n.created == 0
  }

  /** The host start runs on when creation succeeds. */
  function StartedHost(n: Native): Hosts.Host
  {
    Hosts.Host(n.created)
  }

  /** What the try block does with a created host: the calls it makes, the
      exception it lets escape (none while the loop is still polling), and
      the callbacks the handler received. */
  datatype Block = Block(calls: seq<Op>, failure: Wrappers.Option<Error>, callbacks: seq<Service.Callback>)

  /** The try block: set the checksum, then the compressor, then listen; the
      first call that throws ends it. */
  function TryBlock(n: Native, host: Hosts.Host): Block
  {
    if n.checksumThrows then Block([SetChecksum(host)], Wrappers.Some(ChecksumFailed), [])
    else if n.compressThrows then
      Block([SetChecksum(host), Compress(host)], Wrappers.Some(CompressFailed), [])
    else
      var o := Service.Run(n.script);
      var calls := [SetChecksum(host), Compress(host), Listen(host, o.polls)];
      match o.exit
      case Fatal(f) => Block(calls, Wrappers.Some(ListenFailed(f)), o.callbacks)
      case StillPolling => Block(calls, Wrappers.None, o.callbacks)
  }

  /** The exception the body of the try lets escape, if any: the first
      failing step's; none when the loop is still polling. */
  function BodyFailure(n: Native): Wrappers.Option<Error>
  {
    if n.createThrows then Wrappers.Some(CreateFailed)
    else if n.created == 0 then Wrappers.Some(NullHost)
    else TryBlock(n, StartedHost(n)).failure
  }

  /** The number of times op occurs in trace. */
  function Occurrences(trace: seq<Op>, op: Op): nat
  {
    multiset(trace)[op]
  }

  /** What start leaves behind: the native calls made, and how it ends. */
  datatype Run = Run(trace: seq<Op>, exit: Exit)

  /** The finally block: deinitialisation, whose own exception replaces the
      one escaping from the try. */
  function Finally(n: Native, body: seq<Op>, failure: Error, suppressed: seq<Error>): Run
  {
    Run(body + [Deinitialize],
        if n.deinitializeThrows then Escaped(DeinitializeFailed, []) else Escaped(failure, suppressed))
  }

  /** start, step by step: the calls made until one throws or the loop is
      reached; the host is closed (a failing close suppressed onto the
      escaping exception) before the finally block runs. */
  function Started(n: Native): Run
  {
    if n.initializeThrows then Run([Initialize], Escaped(InitializeFailed, []))
    else if n.createThrows then
      Finally(n, [Initialize, Creation], CreateFailed, [])
    else if n.created == 0 then
      Finally(n, [Initialize, Creation], NullHost, [])
    else
      var host := StartedHost(n);
      var b := TryBlock(n, host);
      var body := [Initialize, Creation] + b.calls;
      match b.failure
      case None => Run(body, Running(b.callbacks))
      case Some(e) =>
        Finally(n, body + [HostDestroy(host)], e, if n.destroyThrows then [DestroyFailed] else [])
  }

  /** The try block's statements on the created host. */
  method Try(n: Native, host: Hosts.Host) returns (b: Block)
    ensures b == TryBlock(n, host)
  {
    if n.checksumThrows {
      return Block([SetChecksum(host)], Wrappers.Some(ChecksumFailed), []);
    }
    if n.compressThrows {
      return Block([SetChecksum(host), Compress(host)], Wrappers.Some(CompressFailed), []);
    }
    var o := Service.ListenForEvents(n.script);
    var failure := if o.exit.Fatal? then Wrappers.Some(ListenFailed(o.exit.failure)) else Wrappers.None;
    b := Block([SetChecksum(host), Compress(host), Listen(host, o.polls)], failure, o.callbacks);
  }

  method Start(n: Native) returns (trace: seq<Op>, exit: Exit)
    ensures Run(trace, exit) == Started(n)
  {
    if n.initializeThrows {
      // enet_initialize is called before the try: nothing to undo
      return [Initialize], Escaped(InitializeFailed, []);
    }
    var failure: Error;
    var created, _ := Hosts.Create(ListenAddress, PeerCount, ChannelLimit,
                                   IncomingBandwidth, OutgoingBandwidth, _ => n.created);
    var body := [Initialize, Creation];
    var suppressed: seq<Error> := [];
    if n.createThrows {
      failure := CreateFailed;
    } else if created.Err? {
      failure := NullHost;
    } else {
      var host := created.value;
      var b := Try(n, host);
      body := body + b.calls;
      if b.failure.None? {
        return body, Running(b.callbacks);
      }
      failure := b.failure.value;
      // try-with-resources closes the host; a failing close is suppressed
      body := body + [HostDestroy(host)];
      if n.destroyThrows {
        suppressed := [DestroyFailed];
      }
    }
    // finally
    trace := body + [Deinitialize];
    if n.deinitializeThrows {
      exit := Escaped(DeinitializeFailed, []);
    } else {
      exit := Escaped(failure, suppressed);
    }
  }

  /** An op that occurs in neither part around it occurs once. */
  lemma OccursOnce(pre: seq<Op>, op: Op, post: seq<Op>)
    requires op !in pre && op !in post
    ensures Occurrences(pre + [op] + post, op) == 1
  {
    assert multiset(pre + [op] + post) == multiset(pre) + multiset{op} + multiset(post);
  }

  /** Initialisation comes first; when it throws, nothing else happens and
      nothing is undone. Otherwise the host is created next, with the
      listen address, 1024 peers, 10 channels and unlimited bandwidth. */
  lemma InitializeFirst(n: Native)
    ensures |Started(n).trace| > 0 && Started(n).trace[0] == Initialize
    ensures n.initializeThrows <==> Started(n) == Run([Initialize], Escaped(InitializeFailed, []))
    ensures !n.initializeThrows ==>
      |Started(n).trace| > 1 && Started(n).trace[1] == HostCreate(Hosts.Address(0, 17091), 1024, 10, 0, 0)
  {
  }

  /** The try block works on the created host only, sets the checksum
      first and the compressor second, listens only third, and neither
      closes the host nor touches ENet's initialisation. */
  lemma TryBlockShape(n: Native, host: Hosts.Host)
    ensures var c := TryBlock(n, host).calls;
      1 <= |c| <= 3 && c[0] == SetChecksum(host) && (|c| > 1 ==> c[1] == Compress(host))
      && (forall i :: 0 <= i < |c| ==> (c[i].SetChecksum? || c[i].Compress? || c[i].Listen?) && c[i].host == host)
      && (forall i :: 0 <= i < |c| && c[i].Listen? ==> i == 2)
  {
  }

  /** When start throws after creating the host, the calls are the try
      block's, then the close, then the deinitialisation. */
  lemma EscapedAfterCreate(n: Native)
    requires !n.initializeThrows && !CreateFails(n) && Started(n).exit.Escaped?
    ensures var h := StartedHost(n);
      TryBlock(n, h).failure.Some?
      && Started(n).trace == [Initialize, Creation] + TryBlock(n, h).calls + [HostDestroy(h), Deinitialize]
  {
  }

  /** Before the close, neither the creation nor the try block's calls
      close a host or deinitialise. */
  lemma BeforeClose(c: seq<Op>, h: Hosts.Host)
    requires forall i :: 0 <= i < |c| ==> c[i].SetChecksum? || c[i].Compress? || c[i].Listen?
    ensures var pre := [Initialize, Creation] + c;
      HostDestroy(h) !in pre && Deinitialize !in pre
  {
    var pre := [Initialize, Creation] + c;
    forall i | 0 <= i < |pre|
      ensures pre[i] != HostDestroy(h) && pre[i] != Deinitialize
    {
      if i >= 2 {
        assert pre[i] == c[i - 2];
      }
    }
  }

  /** A trace that ends by closing h and deinitialising, neither done
      before, does each once, in that order, at its end. */
  lemma ClosedLast(pre: seq<Op>, h: Hosts.Host)
    requires HostDestroy(h) !in pre && Deinitialize !in pre
    ensures var t := pre + [HostDestroy(h), Deinitialize];
      |t| == |pre| + 2 && t[|t| - 2] == HostDestroy(h) && t[|t| - 1] == Deinitialize
      && Occurrences(t, HostDestroy(h)) == 1 && Occurrences(t, Deinitialize) == 1
  {
    assert pre + [HostDestroy(h), Deinitialize] == pre + [HostDestroy(h)] + [Deinitialize];
    OccursOnce(pre, HostDestroy(h), [Deinitialize]);
    assert pre + [HostDestroy(h), Deinitialize] == (pre + [HostDestroy(h)]) + [Deinitialize] + [];
    OccursOnce(pre + [HostDestroy(h)], Deinitialize, []);
  }

  /** Once inside the try, every way out deinitialises exactly once, as the
      last call. */
  lemma DeinitializeOnceLast(n: Native)
    requires !n.initializeThrows && Started(n).exit.Escaped?
    ensures var t := Started(n).trace;
      Occurrences(t, Deinitialize) == 1 && t[|t| - 1] == Deinitialize
  {
    if CreateFails(n) {
      NoCloseWithoutHost(n);
      assert Started(n).trace == [Initialize, Creation] + [Deinitialize] + [];
      OccursOnce([Initialize, Creation], Deinitialize, []);
    } else {
      var h := StartedHost(n);
      TryBlockShape(n, h);
      EscapedAfterCreate(n);
      BeforeClose(TryBlock(n, h).calls, h);
      ClosedLast([Initialize, Creation] + TryBlock(n, h).calls, h);
    }
  }

  /** A host that was never created is never closed, but ENet is still
      deinitialised. */
  lemma NoCloseWithoutHost(n: Native)
    requires !n.initializeThrows && CreateFails(n)
    ensures Started(n).trace == [Initialize, Creation, Deinitialize]
    ensures forall i :: 0 <= i < |Started(n).trace| ==> !Started(n).trace[i].HostDestroy?
  {
  }

  /** A created host is closed exactly once, immediately before ENet is
      deinitialised. */
  lemma CloseBeforeDeinitialize(n: Native)
    requires !n.initializeThrows && !CreateFails(n) && Started(n).exit.Escaped?
    ensures var t := Started(n).trace;
      |t| >= 4 && t[|t| - 2] == HostDestroy(StartedHost(n))
      && Occurrences(t, HostDestroy(StartedHost(n))) == 1
  {
    var h := StartedHost(n);
    TryBlockShape(n, h);
    EscapedAfterCreate(n);
    BeforeClose(TryBlock(n, h).calls, h);
    ClosedLast([Initialize, Creation] + TryBlock(n, h).calls, h);
  }

  /** Listening starts only once the checksum and the compressor are set on
      the created host. */
  lemma ListenAfterSetup(n: Native)
    ensures var t := Started(n).trace;
      forall i :: 0 <= i < |t| && t[i].Listen? ==>
        i == 4 && t[2] == SetChecksum(StartedHost(n)) && t[3] == Compress(StartedHost(n))
        && t[i].host == StartedHost(n)
  {
    if n.initializeThrows || CreateFails(n) {
      NeverListens(n);
    } else {
      ListensOnCreatedHost(n);
    }
  }

  /** Without a host, start never listens. */
  lemma NeverListens(n: Native)
    requires n.initializeThrows || CreateFails(n)
    ensures forall i :: 0 <= i < |Started(n).trace| ==> !Started(n).trace[i].Listen?
  {
  }

  /** With a host, listening is the try block's third call, the trace's fifth. */
  lemma ListensOnCreatedHost(n: Native)
    requires !n.initializeThrows && !CreateFails(n)
    ensures var t := Started(n).trace;
      forall i :: 0 <= i < |t| && t[i].Listen? ==>
        i == 4 && t[2] == SetChecksum(StartedHost(n)) && t[3] == Compress(StartedHost(n))
        && t[i].host == StartedHost(n)
  {
    var h := StartedHost(n);
    TryBlockShape(n, h);
    var rest: seq<Op> := if TryBlock(n, h).failure.None? then [] else [HostDestroy(h), Deinitialize];
    assert Started(n).trace == [Initialize, Creation] + TryBlock(n, h).calls + rest;
    ListensInBlock(Started(n).trace, TryBlock(n, h).calls, rest, h);
  }

  /** Listening inside the try block is listening at position 4 of the trace. */
  lemma ListensInBlock(t: seq<Op>, c: seq<Op>, rest: seq<Op>, h: Hosts.Host)
    requires t == [Initialize, Creation] + c + rest && |c| >= 1
    requires rest == [] || rest == [HostDestroy(h), Deinitialize]
    requires c[0] == SetChecksum(h) && (|c| > 1 ==> c[1] == Compress(h))
    requires forall i :: 0 <= i < |c| && c[i].Listen? ==> i == 2 && c[i].host == h
    ensures forall i :: 0 <= i < |t| && t[i].Listen? ==>
      i == 4 && t[2] == SetChecksum(h) && t[3] == Compress(h) && t[i].host == h
  {
    forall i | 0 <= i < |t| && (i < 2 || 2 + |c| <= i)
      ensures !t[i].Listen?
    {
      if i >= 2 {
        assert t[i] == rest[i - 2 - |c|];
      }
    }
    forall i | 2 <= i < 2 + |c| && t[i].Listen?
      ensures i == 4 && t[2] == SetChecksum(h) && t[3] == Compress(h) && t[i].host == h
    {
      assert t[i] == c[i - 2];
    }
  }

  /** While the loop runs the host stays open and ENet initialised, and the
      handler has heard exactly what the loop delivered. */
  lemma RunningKeepsHostOpen(n: Native)
    ensures Started(n).exit.Running? <==> !n.initializeThrows && BodyFailure(n).None?
    ensures Started(n).exit.Running? ==>
      Started(n).exit.callbacks == Service.Run(n.script).callbacks
      && Started(n).trace == [Initialize, Creation, SetChecksum(StartedHost(n)),
                              Compress(StartedHost(n)), Listen(StartedHost(n), |n.script|)]
  {
  }

  /** What escapes: a failing deinitialisation replaces everything; else the
      first failing step's exception, with a failing close suppressed onto
      it. */
  lemma EscapingException(n: Native)
    requires !n.initializeThrows && Started(n).exit.Escaped?
    ensures n.deinitializeThrows ==> Started(n).exit == Escaped(DeinitializeFailed, [])
    ensures !n.deinitializeThrows ==>
      BodyFailure(n).Some? && Started(n).exit.error == BodyFailure(n).value
      && Started(n).exit.suppressed == (if !CreateFails(n) && n.destroyThrows then [DestroyFailed] else [])
  {
  }
}
