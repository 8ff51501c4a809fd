/**
 The completion callback outside a host session. A session makes exactly one callback
 (`DfuTheorems.SuccessIsEarned`), but the registration is never dropped: a node that later plays the
 client calls the old callback again, once for every time it enters the error state.
 */
module DfuCallbacks {
  import opened Bytes
  import opened DfuModel
  import opened DfuSession
  import opened DfuSafety
  import opened DfuTheorems

  function Iterate(n: Node, evs: seq<(Event, Env)>): Node
    decreases |evs|
  {
    if evs == [] then n else Iterate(SmRun(n, evs[0].0, evs[0].1), evs[1..])
  }

  predicate EntersError(n: Node, ev: Event, env: Env) {
    n.core.phase != Error && SmRun(n, ev, env).core.phase == Error
  }

  function ErrorEntries(n: Node, evs: seq<(Event, Env)>): nat
    decreases |evs|
  {
    if evs == [] then 0
    else (if EntersError(n, evs[0].0, evs[0].1) then 1 else 0) + ErrorEntries(SmRun(n, evs[0].0, evs[0].1), evs[1..])
  }

  /** A node that is neither in a host state nor on its way to one. */
  predicate NotHost(n: Node) {
    n.core.phase !in {HostReqUpdate, HostUpdate} && n.core.pending !in {Some(HostReqUpdate), Some(HostUpdate)}
  }

  /** `r` makes no callback that `n` did not make, and keeps out of the host states. */
  predicate Silent(n: Node, r: Node) {
    NotHost(r) && r.log.callbacks == n.log.callbacks && r.core.callbackSet == n.core.callbackSet
  }

  lemma {:induction false} NextChunkIsSilent(n: Node, env: Env)
    requires NotHost(n)
    ensures Silent(n, NextChunk(n, env)) && NextChunk(n, env).core.phase == n.core.phase
  {
  }

  lemma {:induction false} StoreIsSilent(n: Node, data: seq<byte>, env: Env)
    requires NotHost(n) && |data| <= MAX_CHUNK_SIZE
    ensures Silent(n, StoreChunk(n, data, env)) && StoreChunk(n, data, env).core.phase == n.core.phase
  {
  }

  lemma {:induction false} ChunkTimeoutIsSilent(n: Node, env: Env)
    requires NotHost(n)
    ensures var r := ReceivingRun(n, EvChunkTimeout, env); Silent(n, r) && r.core.phase == n.core.phase
  {
  }

  lemma {:induction false} RestartIsSilent(n: Node, info: ImgInfo, env: Env)
    requires NotHost(n)
    ensures var r := ReceivingRun(n, EvFrame(MsgStart(info)), env); Silent(n, r) && r.core.phase == n.core.phase
  {
  }

  lemma {:induction false} PayloadIsSilent(n: Node, data: seq<byte>, env: Env)
    requires NotHost(n)
    ensures var r := ReceivingRun(n, EvFrame(MsgPayload(data)), env); Silent(n, r) && r.core.phase == n.core.phase
  {
    if |data| <= MAX_CHUNK_SIZE && env.timerStop {
      StoreIsSilent(n, data, env);
      NextChunkIsSilent(StoreChunk(n, data, env), env);
    }
  }

  lemma {:induction false} ReceivingIsSilent(n: Node, ev: Event, env: Env)
    requires NotHost(n)
    ensures Silent(n, ReceivingRun(n, ev, env)) && ReceivingRun(n, ev, env).core.phase == n.core.phase
  {
    match ev {
      case EvFrame(MsgPayload(data)) => PayloadIsSilent(n, data, env);
      case EvFrame(MsgStart(info)) => RestartIsSilent(n, info, env);
      case EvChunkTimeout => ChunkTimeoutIsSilent(n, env);
      case _ =>
    }
  }

  lemma {:induction false} RunIsSilent(n: Node, ev: Event, env: Env)
    requires NotHost(n) && !ev.EvBeginHost?
    ensures Silent(n, Run(n, ev, env)) && Run(n, ev, env).core.phase == n.core.phase
  {
    match n.core.phase
    case ClientReceiving => ReceivingIsSilent(n, ev, env);
    case Idle => assert Silent(n, IdleRun(n, ev, env));
    case ClientRebootReq => assert Silent(n, RebootReqRun(n, ev));
    case ClientRebootDone => assert Silent(n, RebootDoneRun(n, ev));
    case _ =>
  }

  lemma {:induction false} EntryIsSilent(n: Node, ev: Event, env: Env)
    requires NotHost(n) && n.core.phase != Error
    ensures Silent(n, Entry(n, ev, env)) && Entry(n, ev, env).core.phase == n.core.phase
  {
    match n.core.phase
    case ClientReceiving => assert Silent(n, ReceivingEntry(n));
    case ClientValidating => assert Silent(n, ValidatingEntry(n));
    case ClientRebootDone => assert Silent(n, RebootDoneEntry(n, env));
    case _ =>
  }

  lemma {:induction false} TransitionCallsBack(n: Node, ev: Event, env: Env)
    requires NotHost(n)
    ensures var n' := TakeTransition(n, ev, env);
      && NotHost(n') && n'.core.callbackSet == n.core.callbackSet
      && n'.log.callbacks == (if n.core.phase != Error && n'.core.phase == Error && n.core.callbackSet
                              then n.log.callbacks + [(false, n.core.error)] else n.log.callbacks)
  {
    if n.core.pending.Some? && n.core.pending.value !in {Error, n.core.phase} {
      EntryIsSilent(n.(core := n.core.(pending := None, phase := n.core.pending.value)), ev, env);
    }
  }

  /** Outside the host states an iteration calls back exactly when it enters the error state. */
  lemma {:induction false} CallbacksCountErrors(n: Node, evs: seq<(Event, Env)>)
    requires NotHost(n) && forall i :: 0 <= i < |evs| ==> !evs[i].0.EvBeginHost?
    ensures |Iterate(n, evs).log.callbacks|
      == |n.log.callbacks| + (if n.core.callbackSet then ErrorEntries(n, evs) else 0)
    decreases |evs|
  {
    if evs != [] {
      var (ev, env) := evs[0];
      RunIsSilent(n, ev, env);
      TransitionCallsBack(Run(n, ev, env), ev, env);
      CallbacksCountErrors(SmRun(n, ev, env), evs[1..]);
    }
  }

  /** A finished host that is asked to take an update with too large a chunk reports a second outcome. */
  lemma {:induction false} StaleCallback(n: Node, info: ImgInfo, env: Env)
    requires Ready(n) && n.core.callbackSet && n.log.callbacks == [(true, ERR_NONE)]
    requires info.gitSha != n.core.gitSha && info.chunkSize > MAX_CHUNK_SIZE
    ensures SmRun(n, EvFrame(MsgStart(info)), env).log.callbacks == [(true, ERR_NONE), (false, ERR_CHUNK_SIZE)]
  {
    var r := Run(n, EvFrame(MsgStart(info)), env);
    assert r.core.pending == Some(Error) && r.core.error == ERR_CHUNK_SIZE;
    TransitionCallsBack(r, EvFrame(MsgStart(info)), env);
  }
}
