/** What holds in every state of every run of one update session. */
module DfuTheorems {
  import opened Bytes
  import opened DfuModel
  import opened DfuSession
  import opened DfuSafety

  // ----- the client in one iteration -----

  predicate ActivationsHold(c: Node, image: seq<byte>) {
    forall i :: 0 <= i < |c.log.activations| ==> Holds(c.log.activations[i], image)
  }

  lemma {:induction false} RunActivatesNothing(c: Node, ev: Event, env: Env)
    requires c.core.phase !in {HostReqUpdate, HostUpdate}
    ensures Run(c, ev, env).log.activations == c.log.activations
  {
    match c.core.phase
    case ClientReceiving => ReceivingIsQuiet(c, ev, env);
    case _ =>
  }

  lemma {:induction false} TransitionActivatesImage(c: Node, ev: Event, env: Env, info: ImgInfo, image: seq<byte>, w: nat)
    requires MidInv(c, info, image, w) && ActivationsHold(c, image)
    ensures ActivationsHold(TakeTransition(c, ev, env), image)
  {
    match c.core.pending
    case None =>
    case Some(next) =>
      var c1 := c.(core := c.core.(pending := None, phase := next));
      if next in {Error, ClientReceiving, ClientValidating, ClientRebootReq} {
        EntryIsQuiet(c1, ev, env);
      }
  }

  /** The client's invariants after one iteration on an event that is not a payload. */
  lemma {:induction false} ClientIterates(c: Node, ev: Event, env: Env, info: ImgInfo, image: seq<byte>, w: nat)
    requires ClientInv(c, info, image, w) && HistoryInv(c, info, image) && ActivationsHold(c, image)
    requires !c.core.resetting && c.log.out == []
    requires !ev.EvBeginHost? && (ev.EvFrame? && ev.msg.MsgStart? ==> ev.msg.info == info)
    requires ev.EvFrame? && ev.msg.MsgPayload? ==> c.core.phase != ClientReceiving
    ensures var c' := SmRun(c, ev, env);
      && ClientInv(c', info, image, w) && HistoryInv(c', info, image) && ActivationsHold(c', image)
      && SendsOk(c', c'.log.out, info, image) && LogGrows(c, c')
  {
    match c.core.phase {
      case Idle => IdleKeeps(c, ev, env, info, image, w);
      case ClientReceiving => ReceivingKeeps(c, ev, env, info, image, w);
      case _ => OtherKeeps(c, ev, env, info, image, w);
    }
    Finishes(c, ev, env, info, image, w, w);
  }

  /** The same for a payload taken from the image at or after `w`. */
  lemma {:induction false} ClientTakesPayload(c: Node, data: seq<byte>, env: Env, info: ImgInfo, image: seq<byte>, w: nat, o: nat)
    requires ClientInv(c, info, image, w) && HistoryInv(c, info, image) && ActivationsHold(c, image)
    requires !c.core.resetting && c.log.out == []
    requires w <= o && SliceAt(image, o, data)
    ensures var c' := SmRun(c, EvFrame(MsgPayload(data)), env);
      && ClientInv(c', info, image, o + |data|) && HistoryInv(c', info, image) && ActivationsHold(c', image)
      && SendsOk(c', c'.log.out, info, image) && LogGrows(c, c')
  {
    var ev := EvFrame(MsgPayload(data));
    if c.core.phase == ClientReceiving {
      ReceivesChunk(c, data, env, info, image, w, o);
      Finishes(c, ev, env, info, image, w, o + |data|);
    } else {
      assert ClientInv(c, info, image, o + |data|);
      ClientIterates(c, ev, env, info, image, o + |data|);
    }
  }

  lemma {:induction false} Finishes(c: Node, ev: Event, env: Env, info: ImgInfo, image: seq<byte>, w: nat, w': nat)
    requires ClientInv(c, info, image, w) && HistoryInv(c, info, image) && ActivationsHold(c, image)
    requires !c.core.resetting && c.log.out == []
    requires !ev.EvBeginHost? && (ev.EvFrame? && ev.msg.MsgStart? ==> ev.msg.info == info)
    requires MidInv(Run(c, ev, env), info, image, w')
    ensures var c' := SmRun(c, ev, env);
      && ClientInv(c', info, image, w') && HistoryInv(c', info, image) && ActivationsHold(c', image)
      && SendsOk(c', c'.log.out, info, image) && LogGrows(c, c')
  {
    var r := Run(c, ev, env);
    RunKeepsHistory(c, ev, env, info, image, w);
    RunActivatesNothing(c, ev, env);
    RunResetsLast(c, ev, env);
    TransitionKeeps(r, ev, env, info, image, w');
    TransitionKeepsHistory(r, ev, env, info, image, w');
    TransitionActivatesImage(r, ev, env, info, image, w');
  }

  /** A run function that asks for a reset leaves no transition pending. */
  lemma {:induction false} RunResetsLast(c: Node, ev: Event, env: Env)
    requires c.core.phase !in {HostReqUpdate, HostUpdate} && !c.core.resetting
    requires c.core.phase == ClientRebootDone ==> c.core.pending == None
    ensures Run(c, ev, env).core.resetting ==> Run(c, ev, env).core.pending == None
  {
    match c.core.phase
    case ClientReceiving => ReceivingIsQuiet(c, ev, env);
    case _ =>
  }

  // ----- the host in one iteration -----

  /** The host calls back once, when it leaves the session; only the client's End makes it a success. */
  predicate CallbackInv(h: Node) {
    && (h.core.phase in {HostReqUpdate, HostUpdate} ==> h.log.callbacks == [])
    && (h.core.phase in {Idle, Error} && h.core.callbackSet ==> |h.log.callbacks| == 1)
    && |h.log.callbacks| <= 1
  }

  predicate Succeeded(h: Node) {
    exists i :: 0 <= i < |h.log.callbacks| && h.log.callbacks[i].0
  }

  /** What one iteration adds to the host's output: at most one frame, a payload being the next piece. */
  predicate Advances(h: Node, h': Node, info: ImgInfo, image: seq<byte>) {
    && h'.host.img == h.host.img && h'.host.store == h.host.store
    && h'.host.bytesRemaining <= h.host.bytesRemaining <= h.host.img.imageSize
    && |h'.log.out| <= 1
    && (if |h'.log.out| == 1 && h'.log.out[0].MsgPayload? then
          SliceAt(image, Sent(h), h'.log.out[0].data) && Sent(h') == Sent(h) + |h'.log.out[0].data|
        else Sent(h') == Sent(h))
    && (|h'.log.out| == 1 && h'.log.out[0].MsgStart? ==> h'.log.out[0].info == info)
  }

  lemma {:induction false} SubSlice(store: seq<byte>, at: nat, image: seq<byte>, from: nat, length: nat)
    requires SliceAt(store, at, image) && from + length <= |image|
    ensures store[at + from..at + from + length] == image[from..from + length]
  {
    var piece, expected := store[at + from..at + from + length], image[from..from + length];
    forall k | 0 <= k < length
      ensures piece[k] == expected[k]
    {
      assert image[from + k] == store[at..at + |image|][from + k];
    }
  }

  lemma {:induction false} SendsPiece(h: Node, env: Env, info: ImgInfo, image: seq<byte>)
    requires HostInv(h, info, image) && h.log.out == []
    ensures var h' := SendChunk(h, env);
      && Advances(h, h', info, image) && h'.log.callbacks == h.log.callbacks
      && (h'.core == h.core || h'.core == h.core.(error := h'.core.error, pending := Some(Error)))
  {
    var length := if h.host.bytesRemaining >= h.host.img.chunkSize then h.host.img.chunkSize else h.host.bytesRemaining;
    SubSlice(h.host.store, IMG_START_OFFSET, image, Sent(h), length);
  }

  lemma {:induction false} HostUpdateAdvances(h: Node, ev: Event, env: Env, info: ImgInfo, image: seq<byte>)
    requires HostInv(h, info, image) && h.log.out == [] && h.log.callbacks == [] && h.core.phase == HostUpdate
    ensures var h' := HostUpdateRun(h, ev, env);
      && Advances(h, h', info, image)
      && (h'.core == h.core || h'.core == h.core.(error := h'.core.error, pending := h'.core.pending))
      && h'.core.pending in {None, Some(Error), Some(Idle)}
      && (if h'.core.pending == Some(Idle) then
            ev.EvFrame? && ev.msg.MsgEnd?
            && h'.log.callbacks == if h.core.callbackSet then [(ev.msg.success, ev.msg.err)] else []
          else h'.log.callbacks == [])
  {
    if ev.EvFrame? && ev.msg.MsgPayloadReq? && env.timerStart {
      SendsPiece(h, env, info, image);
    }
  }

  lemma {:induction false} ReqUpdateAdvances(h: Node, ev: Event, env: Env, info: ImgInfo, image: seq<byte>)
    requires HostInv(h, info, image) && h.log.out == [] && h.core.phase == HostReqUpdate
    ensures var h' := ReqUpdateRun(h, ev, env);
      && Advances(h, h', info, image) && h'.log.callbacks == h.log.callbacks
      && h'.core == h.core.(error := h'.core.error, pending := h'.core.pending)
      && h'.core.pending in {None, Some(Error), Some(HostUpdate)}
  {
  }

  predicate HostOutcome(h: Node, ev: Event, h': Node, info: ImgInfo, image: seq<byte>) {
    && HostInv(h', info, image) && CallbackInv(h') && h'.core.callbackSet == h.core.callbackSet
    && Advances(h, h', info, image)
    && (Succeeded(h') ==> Succeeded(h) || (ev.EvFrame? && ev.msg.MsgEnd? && ev.msg.success))
  }

  lemma {:induction false} HostUpdateIterates(h: Node, ev: Event, env: Env, info: ImgInfo, image: seq<byte>)
    requires HostInv(h, info, image) && CallbackInv(h) && h.log.out == [] && h.core.phase == HostUpdate
    ensures HostOutcome(h, ev, SmRun(h, ev, env), info, image)
  {
    HostUpdateAdvances(h, ev, env, info, image);
    var r := HostUpdateRun(h, ev, env);
    LeavesSession(r, ev, env);
  }

  lemma {:induction false} ReqUpdateIterates(h: Node, ev: Event, env: Env, info: ImgInfo, image: seq<byte>)
    requires HostInv(h, info, image) && CallbackInv(h) && h.log.out == [] && h.core.phase == HostReqUpdate
    ensures HostOutcome(h, ev, SmRun(h, ev, env), info, image)
  {
    ReqUpdateAdvances(h, ev, env, info, image);
    var r := ReqUpdateRun(h, ev, env);
    LeavesSession(r, ev, env);
  }

  /** Taking a transition out of a host state: an error calls back with a failure. */
  lemma {:induction false} LeavesSession(r: Node, ev: Event, env: Env)
    requires r.core.pending in {None, Some(Error), Some(Idle), Some(HostUpdate)}
    requires r.core.phase in {HostReqUpdate, HostUpdate}
    ensures var h' := TakeTransition(r, ev, env);
      && h'.host == r.host && h'.log.out == r.log.out && h'.core.callbackSet == r.core.callbackSet
      && h'.core.phase == (if r.core.pending == None then r.core.phase else r.core.pending.value)
      && (h'.core.pending == None || (h'.core.phase == Error && h'.core.pending == Some(Idle)))
      && h'.log.callbacks == if r.core.pending == Some(Error) && r.core.callbackSet
                             then r.log.callbacks + [(false, r.core.error)] else r.log.callbacks
  {
  }

  lemma {:induction false} HostIterates(h: Node, ev: Event, env: Env, info: ImgInfo, image: seq<byte>)
    requires HostInv(h, info, image) && CallbackInv(h) && h.log.out == []
    requires !ev.EvBeginHost? && (ev.EvFrame? ==> !ev.msg.MsgStart?)
    ensures HostOutcome(h, ev, SmRun(h, ev, env), info, image)
  {
    match h.core.phase
    case HostUpdate => HostUpdateIterates(h, ev, env, info, image);
    case HostReqUpdate => ReqUpdateIterates(h, ev, env, info, image);
    case _ =>
  }

  // ----- the session -----

  ghost predicate SessionInv(s: Sys, info: ImgInfo, image: seq<byte>, w: nat) {
    && Inv(s, info, image, w)
    && HistoryInv(s.client, info, image) && ActivationsHold(s.client, image)
    && CallbackInv(s.host) && s.host.core.callbackSet
    && (forall i :: 0 <= i < |s.toHost| ==> s.toHost[i].MsgEnd? && s.toHost[i].success ==> Earned(s.client, info, image))
    && (Succeeded(s.host) ==> Earned(s.client, info, image))
  }

  /** The host's part of a step, for any outcome of its iteration. */
  lemma {:induction false} HostOutcomeKeeps(s: Sys, ev: Event, h: Node, info: ImgInfo, image: seq<byte>, w: nat)
    requires SessionInv(s, info, image, w) && HostOutcome(ClearOut(s.host), ev, h, info, image)
    requires ev.EvFrame? && ev.msg.MsgEnd? && ev.msg.success ==> Earned(s.client, info, image)
    ensures SessionInv(s.(host := h, toClient := s.toClient + h.log.out), info, image, w)
  {
    if h.log.out == [] {
      assert s.toClient + h.log.out == s.toClient;
    } else {
      assert h.log.out == [h.log.out[0]];
      FeedsSend(s.toClient, h.log.out[0], w, Sent(s.host), Sent(h), image);
    }
  }

  lemma {:induction false} HostStepKeeps(s: Sys, ev: Event, env: Env, info: ImgInfo, image: seq<byte>, w: nat)
    requires SessionInv(s, info, image, w)
    requires !ev.EvBeginHost? && (ev.EvFrame? ==> !ev.msg.MsgStart?)
    requires ev.EvFrame? && ev.msg.MsgEnd? && ev.msg.success ==> Earned(s.client, info, image)
    ensures SessionInv(HostStep(s, ev, env), info, image, w)
  {
    HostIterates(ClearOut(s.host), ev, env, info, image);
    HostOutcomeKeeps(s, ev, SmRun(ClearOut(s.host), ev, env), info, image, w);
  }

  function StepWith(s: Sys, c: Node): Sys {
    s.(client := c, toHost := s.toHost + c.log.out)
  }

  /** The client's part of a step, for any outcome of its iteration. */
  lemma {:induction false} ClientOutcomeKeeps(s: Sys, c: Node, info: ImgInfo, image: seq<byte>, w: nat)
    requires HostInv(s.host, info, image) && ToClientOk(s.toClient, info) && ToHostOk(s.toHost)
    requires Feeds(s.toClient, w, Sent(s.host), image)
    requires CallbackInv(s.host) && s.host.core.callbackSet
    requires forall i :: 0 <= i < |s.toHost| ==> s.toHost[i].MsgEnd? && s.toHost[i].success ==> Earned(s.client, info, image)
    requires Succeeded(s.host) ==> Earned(s.client, info, image)
    requires ClientInv(c, info, image, w) && HistoryInv(c, info, image) && ActivationsHold(c, image)
    requires SendsOk(c, c.log.out, info, image) && LogGrows(s.client, c)
    ensures SessionInv(StepWith(s, c), info, image, w)
  {
    EarnedGrows(s.client, c, info, image);
  }

  /** `f` is one iteration on `ev`; stated on the side so that proofs about sessions need not look inside one. */
  ghost predicate IsIteration(f: Node -> Node, ev: Event, env: Env) {
    forall n {:trigger SmRun(n, ev, env)} :: f(n) == SmRun(n, ev, env)
  }

  /** The client after an iteration, as the session needs it. */
  ghost predicate ClientOutcome(c: Node, c': Node, info: ImgInfo, image: seq<byte>, w: nat) {
    && ClientInv(c', info, image, w) && HistoryInv(c', info, image) && ActivationsHold(c', image)
    && SendsOk(c', c'.log.out, info, image) && LogGrows(c, c')
  }

  lemma {:induction false} PieceOutcome(f: Node -> Node, c: Node, data: seq<byte>, env: Env, info: ImgInfo, image: seq<byte>,
                                        w: nat, o: nat)
    requires IsIteration(f, EvFrame(MsgPayload(data)), env)
    requires ClientInv(c, info, image, w) && HistoryInv(c, info, image) && ActivationsHold(c, image)
    requires !c.core.resetting && c.log.out == [] && w <= o && SliceAt(image, o, data)
    ensures ClientOutcome(c, f(c), info, image, o + |data|)
  {
    ClientTakesPayload(c, data, env, info, image, w, o);
  }

  lemma {:induction false} PieceKeeps(f: Node -> Node, s: Sys, data: seq<byte>, env: Env, info: ImgInfo, image: seq<byte>,
                                      w: nat, o: nat)
    requires IsIteration(f, EvFrame(MsgPayload(data)), env)
    requires SessionInv(s, info, image, w) && !s.client.core.resetting
    requires w <= o && SliceAt(image, o, data)
    requires s.toClient != [] && Feeds(s.toClient[1..], o + |data|, Sent(s.host), image)
    ensures SessionInv(StepWith(s.(toClient := s.toClient[1..]), f(ClearOut(s.client))), info, image, o + |data|)
  {
    PieceOutcome(f, ClearOut(s.client), data, env, info, image, w, o);
    ClientOutcomeKeeps(s.(toClient := s.toClient[1..]), f(ClearOut(s.client)), info, image, o + |data|);
  }

  lemma {:induction false} PayloadKeeps(s: Sys, data: seq<byte>, env: Env, info: ImgInfo, image: seq<byte>, w: nat)
    returns (w': nat)
    requires SessionInv(s, info, image, w) && !s.client.core.resetting
    requires s.toClient != [] && s.toClient[0] == MsgPayload(data)
    ensures SessionInv(ClientStep(s.(toClient := s.toClient[1..]), EvFrame(MsgPayload(data)), env), info, image, w')
  {
    var o: nat :| w <= o && SliceAt(image, o, data) && Feeds(s.toClient[1..], o + |data|, Sent(s.host), image);
    w' := o + |data|;
    var ev := EvFrame(MsgPayload(data));
    var f := (n: Node) => SmRun(n, ev, env);
    PieceKeeps(f, s, data, env, info, image, w, o);
  }

  lemma {:induction false} OtherFrameKeeps(s: Sys, m: Msg, env: Env, info: ImgInfo, image: seq<byte>, w: nat)
    requires SessionInv(s, info, image, w) && !s.client.core.resetting
    requires s.toClient != [] && s.toClient[0] == m && !m.MsgPayload?
    ensures SessionInv(ClientStep(s.(toClient := s.toClient[1..]), EvFrame(m), env), info, image, w)
  {
    ClientIterates(ClearOut(s.client), EvFrame(m), env, info, image, w);
    var c := SmRun(ClearOut(s.client), EvFrame(m), env);
    ClientOutcomeKeeps(s.(toClient := s.toClient[1..]), c, info, image, w);
  }

  lemma {:induction false} LocalKeeps(s: Sys, ev: Event, env: Env, info: ImgInfo, image: seq<byte>, w: nat)
    requires SessionInv(s, info, image, w) && !s.client.core.resetting && IsLocal(ev)
    ensures SessionInv(ClientStep(s, ev, env), info, image, w)
  {
    ClientIterates(ClearOut(s.client), ev, env, info, image, w);
    ClientOutcomeKeeps(s, SmRun(ClearOut(s.client), ev, env), info, image, w);
  }

  lemma {:induction false} ResetKeeps(s: Sys, gitSha: uint32, info: ImgInfo, image: seq<byte>, w: nat)
    requires SessionInv(s, info, image, w) && s.client.core.resetting
    ensures SessionInv(Next(s, ClientReset(gitSha)), info, image, w)
  {
    EarnedGrows(s.client, Reset(s.client, gitSha), info, image);
  }

  lemma {:induction false} NextKeeps(s: Sys, a: Action, info: ImgInfo, image: seq<byte>, w: nat) returns (w': nat)
    requires SessionInv(s, info, image, w)
    ensures SessionInv(Next(s, a), info, image, w')
  {
    w' := w;
    match a
    case HostReceives(env) =>
      if s.toHost != [] {
        HostStepKeeps(s.(toHost := s.toHost[1..]), EvFrame(s.toHost[0]), env, info, image, w);
      }
    case ClientReceives(env) =>
      if s.toClient != [] && !s.client.core.resetting {
        if s.toClient[0].MsgPayload? {
          w' := PayloadKeeps(s, s.toClient[0].data, env, info, image, w);
        } else {
          OtherFrameKeeps(s, s.toClient[0], env, info, image, w);
        }
      }
    case HostLocal(ev, env) =>
      if IsLocal(ev) {
        HostStepKeeps(s, ev, env, info, image, w);
      }
    case ClientLocal(ev, env) =>
      if IsLocal(ev) && !s.client.core.resetting {
        LocalKeeps(s, ev, env, info, image, w);
      }
    case HostHeartbeat =>
      FeedsSend(s.toClient, MsgHeartbeat, w, Sent(s.host), Sent(s.host), image);
    case LoseToClient(i) =>
      if i < |s.toClient| {
        FeedsLose(s.toClient, i, w, Sent(s.host), image);
      }
    case LoseToHost(i) =>
    case ClientReset(gitSha) =>
      if s.client.core.resetting {
        ResetKeeps(s, gitSha, info, image, w);
      }
  }

  lemma {:induction false} ExecKeeps(s: Sys, actions: seq<Action>, info: ImgInfo, image: seq<byte>, w: nat) returns (w': nat)
    requires SessionInv(s, info, image, w)
    ensures SessionInv(Exec(s, actions), info, image, w')
    decreases |actions|
  {
    if actions == [] {
      w' := w;
    } else {
      w' := NextKeeps(s, actions[0], info, image, w);
      w' := ExecKeeps(Next(s, actions[0]), actions[1..], info, image, w');
    }
  }

  lemma {:induction false} BeginEstablishes(host: Node, client: Node, info: ImgInfo, image: seq<byte>, env: Env)
    requires CanBegin(host, client, info, image)
    ensures SessionInv(Begin(host, client, info, env), info, image, 0)
  {
    var s := Begin(host, client, info, env);
    assert s.toClient == [MsgStart(info)];
    assert Feeds(s.toClient[1..], 0, Sent(s.host), image);
  }

  /**
   Whatever is lost, delayed or refused, a client that asks for the reboot, and every image it ever
   hands to its bootloader, holds exactly the host's image. The CRC is not needed for this.
   */
  lemma {:induction false} UpdateIsSafe(host: Node, client: Node, info: ImgInfo, image: seq<byte>, env: Env, actions: seq<Action>)
    requires CanBegin(host, client, info, image)
    ensures var s := Exec(Begin(host, client, info, env), actions);
      && (s.client.core.phase in {ClientRebootReq, ClientActivating} ==> Holds(s.client.client.flash, image))
      && ActivationsHold(s.client, image)
  {
    BeginEstablishes(host, client, info, image, env);
    var w := ExecKeeps(Begin(host, client, info, env), actions, info, image, 0);
  }

  /**
   The host reports success only if the client activated the host's image, rebooted into the requested
   version and confirmed it; and it reports exactly once, when it leaves the session.
   */
  lemma {:induction false} SuccessIsEarned(host: Node, client: Node, info: ImgInfo, image: seq<byte>, env: Env, actions: seq<Action>)
    requires CanBegin(host, client, info, image)
    ensures var s := Exec(Begin(host, client, info, env), actions);
      && (Succeeded(s.host) ==> Earned(s.client, info, image))
      && s.host.core.phase in {HostReqUpdate, HostUpdate, Idle, Error}
      && |s.host.log.callbacks| == (if s.host.core.phase in {HostReqUpdate, HostUpdate} then 0 else 1)
  {
    BeginEstablishes(host, client, info, image, env);
    var w := ExecKeeps(Begin(host, client, info, env), actions, info, image, 0);
  }
}
