/**
 One update session between a host and a client over a lossy network.

 Each direction is a queue that keeps order and may lose any frame, but neither duplicates nor
 invents one. Losing a frame also stands for a full event queue and for a failed transmission.
 The nodes take turns in any order, timers may fire at any time, and every call of the
 environment may fail. A reset asked for by a node is the next thing that happens to it, and the
 environment decides which version it then runs.
 */
module DfuSession {
  import opened Bytes
  import opened DfuModel

  datatype Sys = Sys(host: Node, client: Node, toClient: seq<Msg>, toHost: seq<Msg>)

  datatype Action =
    | HostReceives(env: Env)
    | ClientReceives(env: Env)
    | HostLocal(ev: Event, env: Env)
    | ClientLocal(ev: Event, env: Env)
    | HostHeartbeat
    | LoseToClient(i: nat)
    | LoseToHost(i: nat)
    | ClientReset(gitSha: uint32)

  function ClearOut(n: Node): Node {
    n.(log := n.log.(out := []))
  }

  function HostStep(s: Sys, ev: Event, env: Env): Sys {
    var h := SmRun(ClearOut(s.host), ev, env);
    s.(host := h, toClient := s.toClient + h.log.out)
  }

  function ClientStep(s: Sys, ev: Event, env: Env): Sys {
    var c := SmRun(ClearOut(s.client), ev, env);
    s.(client := c, toHost := s.toHost + c.log.out)
  }

  function Without<T>(q: seq<T>, i: nat): seq<T>
    requires i < |q|
  {
    q[..i] + q[i + 1..]
  }

  /** Timer and wake-up events; a frame only comes from the peer and a session is begun once. */
  predicate IsLocal(ev: Event) {
    !ev.EvFrame? && !ev.EvBeginHost?
  }

  /** The node after a reset: the reboot record and the flash survive. */
  function Reset(n: Node, gitSha: uint32): Node {
    Node(Core(Init, None, ERR_NONE, false, n.core.rebootInfo, gitSha, false),
         Client(0, 0, 0, 0, 0, 0, 0, n.client.flash), [],
         Host(ImgInfo(0, 1, 0, 0, 0), 0, 0, n.host.store),
         n.log.(out := []))
  }

  /** An action that is not possible in the state changes nothing. */
  function Next(s: Sys, a: Action): Sys {
    match a
    case HostReceives(env) =>
      if s.toHost == [] then s else HostStep(s.(toHost := s.toHost[1..]), EvFrame(s.toHost[0]), env)
    case ClientReceives(env) =>
      if s.toClient == [] || s.client.core.resetting then s
      else ClientStep(s.(toClient := s.toClient[1..]), EvFrame(s.toClient[0]), env)
    case HostLocal(ev, env) => if IsLocal(ev) then HostStep(s, ev, env) else s
    case ClientLocal(ev, env) =>
      if IsLocal(ev) && !s.client.core.resetting then ClientStep(s, ev, env) else s
    case HostHeartbeat => s.(toClient := s.toClient + [MsgHeartbeat])
    case LoseToClient(i) => if i < |s.toClient| then s.(toClient := Without(s.toClient, i)) else s
    case LoseToHost(i) => if i < |s.toHost| then s.(toHost := Without(s.toHost, i)) else s
    case ClientReset(gitSha) =>
      if s.client.core.resetting then s.(client := Reset(s.client, gitSha)) else s
  }

  function Exec(s: Sys, actions: seq<Action>): Sys
    decreases |actions|
  {
    if actions == [] then s else Exec(Next(s, actions[0]), actions[1..])
  }

  predicate SliceAt(image: seq<byte>, at: nat, data: seq<byte>) {
    at + |data| <= |image| && image[at..at + |data|] == data
  }

  predicate Ready(n: Node) {
    n.core.phase == Idle && n.core.pending == None && !n.core.resetting && n.core.rebootInfo == NO_REBOOT_INFO
  }

  /** Two idle nodes, quiet channels, and an image behind its descriptor in the host's flash. */
  predicate CanBegin(host: Node, client: Node, info: ImgInfo, image: seq<byte>) {
    && Ready(host) && Ready(client)
    && host.log.callbacks == [] && client.log.confirmations == [] && client.log.activations == []
    && |image| == info.imageSize && SliceAt(host.host.store, IMG_START_OFFSET, image)
  }

  function Begin(host: Node, client: Node, info: ImgInfo, env: Env): Sys {
    HostStep(Sys(host, client, [], []), EvBeginHost(info, true), env)
  }

  // ----- what is in flight -----

  /** The payloads in `ch` are pieces of `image[lo..hi]`, in order and without overlap. */
  ghost predicate Feeds(ch: seq<Msg>, lo: nat, hi: nat, image: seq<byte>)
    decreases |ch|
  {
    if ch == [] then lo <= hi
    else match ch[0]
      case MsgPayload(data) =>
        exists o: nat :: lo <= o && SliceAt(image, o, data) && Feeds(ch[1..], o + |data|, hi, image)
      case _ => Feeds(ch[1..], lo, hi, image)
  }

  lemma {:induction false} FeedsWeaken(ch: seq<Msg>, lo: nat, lo': nat, hi: nat, image: seq<byte>)
    requires Feeds(ch, lo, hi, image) && lo' <= lo
    ensures Feeds(ch, lo', hi, image)
    decreases |ch|
  {
    if ch != [] && !ch[0].MsgPayload? {
      FeedsWeaken(ch[1..], lo, lo', hi, image);
    }
  }

  lemma {:induction false} FeedsOrdered(ch: seq<Msg>, lo: nat, hi: nat, image: seq<byte>)
    requires Feeds(ch, lo, hi, image)
    ensures lo <= hi
    decreases |ch|
  {
    if ch != [] {
      if ch[0].MsgPayload? {
        var o: nat :| lo <= o && SliceAt(image, o, ch[0].data) && Feeds(ch[1..], o + |ch[0].data|, hi, image);
        FeedsOrdered(ch[1..], o + |ch[0].data|, hi, image);
      } else {
        FeedsOrdered(ch[1..], lo, hi, image);
      }
    }
  }

  lemma {:induction false} FeedsLose(ch: seq<Msg>, i: nat, lo: nat, hi: nat, image: seq<byte>)
    requires Feeds(ch, lo, hi, image) && i < |ch|
    ensures Feeds(Without(ch, i), lo, hi, image)
    decreases |ch|
  {
    if i == 0 {
      assert Without(ch, 0) == ch[1..];
      if ch[0].MsgPayload? {
        var o: nat :| lo <= o && SliceAt(image, o, ch[0].data) && Feeds(ch[1..], o + |ch[0].data|, hi, image);
        FeedsWeaken(ch[1..], o + |ch[0].data|, lo, hi, image);
      }
    } else {
      assert Without(ch, i)[1..] == Without(ch[1..], i - 1);
      if ch[0].MsgPayload? {
        var o: nat :| lo <= o && SliceAt(image, o, ch[0].data) && Feeds(ch[1..], o + |ch[0].data|, hi, image);
        FeedsLose(ch[1..], i - 1, o + |ch[0].data|, hi, image);
      } else {
        FeedsLose(ch[1..], i - 1, lo, hi, image);
      }
    }
  }

  lemma {:induction false} FeedsSend(ch: seq<Msg>, m: Msg, lo: nat, hi: nat, hi': nat, image: seq<byte>)
    requires Feeds(ch, lo, hi, image)
    requires if m.MsgPayload? then SliceAt(image, hi, m.data) && hi' == hi + |m.data| else hi' == hi
    ensures Feeds(ch + [m], lo, hi', image)
    decreases |ch|
  {
    if ch == [] {
      assert (ch + [m])[1..] == [];
      assert m.MsgPayload? ==> Feeds([], hi + |m.data|, hi', image);
    } else {
      assert (ch + [m])[1..] == ch[1..] + [m];
      if ch[0].MsgPayload? {
        var o: nat :| lo <= o && SliceAt(image, o, ch[0].data) && Feeds(ch[1..], o + |ch[0].data|, hi, image);
        FeedsSend(ch[1..], m, o + |ch[0].data|, hi, hi', image);
      } else {
        FeedsSend(ch[1..], m, lo, hi, hi', image);
      }
    }
  }

  // ----- invariant -----

  /** `data` came from `image[..w]`; it is all of it as soon as it is long enough. */
  predicate Stored(data: seq<byte>, image: seq<byte>, w: nat) {
    w <= |image| && |data| <= w && (|data| == w ==> data == image[..w])
  }

  predicate Holds(flash: seq<byte>, image: seq<byte>) {
    |image| <= |flash| && flash[..|image|] == image
  }

  predicate HostInv(h: Node, info: ImgInfo, image: seq<byte>) {
    && h.core.phase in {Idle, Error, HostReqUpdate, HostUpdate}
    && (h.core.pending == None || (h.core.phase == Error && h.core.pending == Some(Idle)))
    && h.host.img == info && |image| == info.imageSize
    && h.host.bytesRemaining <= info.imageSize
    && SliceAt(h.host.store, IMG_START_OFFSET, image)
  }

  function Sent(h: Node): int {
    h.host.img.imageSize - h.host.bytesRemaining
  }

  /** `w` bounds from above where the pieces accepted so far came from in the image. */
  predicate ClientInv(c: Node, info: ImgInfo, image: seq<byte>, w: nat) {
    && w <= |image| == info.imageSize
    && c.core.phase in {Init, Idle, Error, ClientReceiving, ClientValidating, ClientRebootReq,
                        ClientRebootDone, ClientActivating}
    && (c.core.pending == None
        || (c.core.phase == Error && c.core.pending == Some(Idle))
        || (c.core.phase == ClientValidating && c.core.pending in {Some(Error), Some(ClientRebootReq)}))
    && (c.core.phase in {ClientReceiving, ClientValidating, ClientRebootReq, ClientActivating}
        ==> c.client.imageSize == info.imageSize)
    && (c.core.phase == ClientReceiving
        ==> c.client.flashOffset <= |c.client.flash|
            && Stored(c.client.flash[..c.client.flashOffset] + c.page, image, w))
    && (c.core.phase == ClientValidating
        ==> c.client.flashOffset <= |c.client.flash|
            && Stored(c.client.flash[..c.client.flashOffset], image, w)
            && (c.core.pending == Some(ClientRebootReq) ==> c.client.flashOffset == c.client.imageSize))
    && (c.core.phase in {ClientRebootReq, ClientActivating} ==> Holds(c.client.flash, image))
  }

  /** What each side may find on its queue. */
  predicate ToClientOk(ch: seq<Msg>, info: ImgInfo) {
    forall i :: 0 <= i < |ch| ==> ch[i].MsgStart? ==> ch[i].info == info
  }

  predicate ToHostOk(ch: seq<Msg>) {
    forall i :: 0 <= i < |ch| ==> !ch[i].MsgStart?
  }

  ghost predicate Inv(s: Sys, info: ImgInfo, image: seq<byte>, w: nat) {
    && HostInv(s.host, info, image)
    && ClientInv(s.client, info, image, w)
    && ToClientOk(s.toClient, info) && ToHostOk(s.toHost)
    && Feeds(s.toClient, w, Sent(s.host), image)
  }
}
