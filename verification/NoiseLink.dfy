/** Two ends joined by a byte stream in each direction, every poll of either end being one step. Over
    every interleaving, what is delivered is what was accepted, in order, once. */
module NoiseLink {
  import opened Prelude
  import opened Noise

  /** One direction: bytes in flight, and the history of it: the payloads sealed so far, the bytes put
      on the wire, and the plaintext accepted and delivered. */
  datatype Channel = Channel(wire: Bytes, frames: seq<Bytes>, emitted: Bytes, accepted: Bytes, delivered: Bytes)

  datatype Link = Link(left: End, right: End, toRight: Channel, toLeft: Channel)

  const IDLE := End([], [], [], 0, 0)
  const OPEN := Channel([], [], [], [], [])

  /** One poll of the end on that side, by what it did. */
  datatype Step =
    | LeftWrites(sent: Bytes, payloads: seq<Bytes>)
    | RightWrites(sent: Bytes, payloads: seq<Bytes>)
    | LeftReads(pulled: Bytes, unsealed: seq<Bytes>, delivered: Bytes)
    | RightReads(pulled: Bytes, unsealed: seq<Bytes>, delivered: Bytes)

  ghost predicate Sends(k: Cipher, e: End, ch: Channel, sent: Bytes, payloads: seq<Bytes>, e': End, ch': Channel) {
    && Small(payloads)
    && Wrote(k, e, e', sent, payloads)
    && ch' == ch.(wire := ch.wire + sent, emitted := ch.emitted + sent, frames := ch.frames + payloads,
                  accepted := ch.accepted + Flatten(payloads))
  }

  ghost predicate Receives(k: Cipher, e: End, ch: Channel, pulled: Bytes, unsealed: seq<Bytes>, delivered: Bytes,
                           e': End, ch': Channel) {
    && pulled <= ch.wire
    && Read(k, e, e', pulled, unsealed, delivered)
    && ch' == ch.(wire := ch.wire[|pulled|..], delivered := ch.delivered + delivered)
  }

  /** `lr` seals what the left end sends, `rl` what the right end sends. */
  ghost predicate Next(lr: Cipher, rl: Cipher, l: Link, step: Step, l': Link) {
    match step
    case LeftWrites(sent, payloads) =>
      Sends(lr, l.left, l.toRight, sent, payloads, l'.left, l'.toRight) && l'.right == l.right && l'.toLeft == l.toLeft
    case RightWrites(sent, payloads) =>
      Sends(rl, l.right, l.toLeft, sent, payloads, l'.right, l'.toLeft) && l'.left == l.left && l'.toRight == l.toRight
    case LeftReads(pulled, unsealed, delivered) =>
      Receives(rl, l.left, l.toLeft, pulled, unsealed, delivered, l'.left, l'.toLeft)
      && l'.right == l.right && l'.toRight == l.toRight
    case RightReads(pulled, unsealed, delivered) =>
      Receives(lr, l.right, l.toRight, pulled, unsealed, delivered, l'.right, l'.toRight)
      && l'.left == l.left && l'.toLeft == l.toLeft
  }

  ghost predicate IsRun(lr: Cipher, rl: Cipher, links: seq<Link>, steps: seq<Step>) {
    && |links| == |steps| + 1
    && links[0] == Link(IDLE, IDLE, OPEN, OPEN)
    && forall i :: 0 <= i < |steps| ==> Next(lr, rl, links[i], steps[i], links[i + 1])
  }

  // ── the invariant ─────────────────────────────────────────────────────────

  ghost predicate SenderOk(k: Cipher, sender: End, ch: Channel) {
    && Small(ch.frames)
    && sender.sendNonce == |ch.frames|
    && ch.emitted + sender.writeCipher == Frames(k, 0, ch.frames)
    && Flatten(ch.frames) == ch.accepted
  }

  ghost predicate ReceiverOk(k: Cipher, receiver: End, ch: Channel) {
    && receiver.recvNonce <= |ch.frames|
    && Frames(k, 0, ch.frames[..receiver.recvNonce]) + receiver.readCipher + ch.wire == ch.emitted
    && ch.delivered + receiver.readPlain == Flatten(ch.frames[..receiver.recvNonce])
  }

  ghost predicate ChannelOk(k: Cipher, sender: End, receiver: End, ch: Channel) {
    SenderOk(k, sender, ch) && ReceiverOk(k, receiver, ch)
  }

  ghost predicate LinkOk(lr: Cipher, rl: Cipher, l: Link) {
    ChannelOk(lr, l.left, l.right, l.toRight) && ChannelOk(rl, l.right, l.left, l.toLeft)
  }

  lemma SendsKeeps(k: Cipher, e: End, ch: Channel, sent: Bytes, payloads: seq<Bytes>, e': End, ch': Channel,
                   receiver: End)
    requires ChannelOk(k, e, receiver, ch) && Sends(k, e, ch, sent, payloads, e', ch')
    ensures ChannelOk(k, e', receiver, ch')
  {
    SenderKeeps(k, e, ch, sent, payloads, e', ch');
    assert ch'.frames[..receiver.recvNonce] == ch.frames[..receiver.recvNonce];
    WireGrows(Frames(k, 0, ch.frames[..receiver.recvNonce]), receiver.readCipher, ch.wire, sent);
  }

  lemma SenderKeeps(k: Cipher, e: End, ch: Channel, sent: Bytes, payloads: seq<Bytes>, e': End, ch': Channel)
    requires SenderOk(k, e, ch) && Sends(k, e, ch, sent, payloads, e', ch')
    ensures SenderOk(k, e', ch')
  {
    FramesAppend(k, 0, ch.frames, payloads);
    FlattenAppend(ch.frames, payloads);
    SealedBehind(ch.emitted, e.writeCipher, Frames(k, |ch.frames|, payloads), sent, e'.writeCipher);
  }

  lemma WireGrows(done: Bytes, buffered: Bytes, wire: Bytes, sent: Bytes)
    ensures done + buffered + (wire + sent) == (done + buffered + wire) + sent
  {
  }

  /** Sealing appends behind the unsent bytes; sending moves bytes from unsent to emitted. */
  lemma SealedBehind(emitted: Bytes, unsent: Bytes, frames: Bytes, sent: Bytes, unsent': Bytes)
    requires unsent + frames == sent + unsent'
    ensures (emitted + sent) + unsent' == (emitted + unsent) + frames
  {
    calc {
      (emitted + sent) + unsent';
      emitted + (sent + unsent');
      emitted + (unsent + frames);
      (emitted + unsent) + frames;
    }
  }

  // ── frames are read back as they were written ─────────────────────────────

  lemma FirstFrame(k: Cipher, nonce: nat, payload: Bytes, rest: Bytes)
    requires Sound(k) && |payload| <= MAX_PAYLOAD
    ensures var b := Frame(k, nonce, payload) + rest;
            && HasFrame(b)
            && b[FRAME_LEN_SIZE..FRAME_LEN_SIZE + GetU16(b)] == k.seal(nonce, payload)
            && b[FRAME_LEN_SIZE + GetU16(b)..] == rest
  {
    var n := |k.seal(nonce, payload)|;
    assert n <= MAX_NOISE_MSG;
    assert GetU16(Frame(k, nonce, payload) + rest) == n;
  }

  lemma DeframeFirst(k: Cipher, nonce: nat, payload: Bytes, rest: Bytes)
    requires Sound(k) && |payload| <= MAX_PAYLOAD
    ensures Deframe(k, nonce, Frame(k, nonce, payload) + rest) == payload + Deframe(k, nonce + 1, rest)
  {
    FirstFrame(k, nonce, payload, rest);
    assert k.open(nonce, k.seal(nonce, payload)) == Some(payload);
  }

  lemma SameFirstFrame(k: Cipher, nonce: nat, p: Bytes, rest: Bytes, q: Bytes, rest': Bytes)
    requires Sound(k) && |p| <= MAX_PAYLOAD && |q| <= MAX_PAYLOAD
    requires Frame(k, nonce, p) + rest == Frame(k, nonce, q) + rest'
    ensures p == q && rest == rest'
  {
    FirstFrame(k, nonce, p, rest);
    FirstFrame(k, nonce, q, rest');
    assert k.open(nonce, k.seal(nonce, p)) == Some(p);
    assert k.open(nonce, k.seal(nonce, q)) == Some(q);
  }

  /** Round trip: in-order decryption of frames gives back their payloads. */
  lemma {:induction false} DeframeFrames(k: Cipher, nonce: nat, payloads: seq<Bytes>)
    requires Sound(k) && Small(payloads)
    ensures Deframe(k, nonce, Frames(k, nonce, payloads)) == Flatten(payloads)
    decreases |payloads|
  {
    if payloads != [] {
      DeframeFirst(k, nonce, payloads[0], Frames(k, nonce + 1, payloads[1..]));
      DeframeFrames(k, nonce + 1, payloads[1..]);
    }
  }

  /** What opens at the front of a stream of frames is what was sealed there. */
  lemma {:induction false} OpenedAsSealed(k: Cipher, nonce: nat, unsealed: seq<Bytes>, rest: Bytes,
                                          payloads: seq<Bytes>)
    requires Sound(k) && Small(payloads) && Small(unsealed)
    requires Frames(k, nonce, unsealed) + rest == Frames(k, nonce, payloads)
    ensures |unsealed| <= |payloads| && unsealed == payloads[..|unsealed|]
    ensures rest == Frames(k, nonce + |unsealed|, payloads[|unsealed|..])
    decreases |unsealed|
  {
    if unsealed != [] {
      var more := Frames(k, nonce + 1, unsealed[1..]) + rest;
      assert Frames(k, nonce, unsealed) + rest == Frame(k, nonce, unsealed[0]) + more;
      assert payloads != [];
      SameFirstFrame(k, nonce, unsealed[0], more, payloads[0], Frames(k, nonce + 1, payloads[1..]));
      OpenedAsSealed(k, nonce + 1, unsealed[1..], rest, payloads[1..]);
      assert unsealed == [unsealed[0]] + unsealed[1..];
      assert payloads[1..][|unsealed| - 1..] == payloads[|unsealed|..];
    }
  }

  lemma Cancel(a: Bytes, x: Bytes, y: Bytes)
    requires a + x == a + y
    ensures x == y
  {
    assert x == (a + x)[|a|..];
  }

  /** Pulling bytes and opening frames only moves the boundary between read and unread. */
  lemma Shift(buffered: Bytes, pulled: Bytes, wire: Bytes, unsent: Bytes, frames: Bytes, left: Bytes)
    requires buffered + pulled == frames + left
    ensures buffered + (pulled + wire) + unsent == frames + (left + wire + unsent)
  {
    calc {
      buffered + (pulled + wire) + unsent;
      (buffered + pulled) + (wire + unsent);
      frames + (left + wire + unsent);
    }
  }

  /** What follows the opened frames in the emitted and unsent bytes. */
  lemma Behind(done: Bytes, buffered: Bytes, wire: Bytes, unsent: Bytes, emitted: Bytes, after: Bytes)
    requires done + buffered + wire == emitted && emitted + unsent == done + after
    ensures buffered + wire + unsent == after
  {
    assert done + (buffered + wire + unsent) == done + buffered + wire + unsent;
    Cancel(done, buffered + wire + unsent, after);
  }

  /** What has left the sender's nonce and not yet the receiver's is exactly the frames between them. */
  lemma Remaining(k: Cipher, sender: End, receiver: End, ch: Channel)
    requires ChannelOk(k, sender, receiver, ch)
    ensures receiver.readCipher + ch.wire + sender.writeCipher
            == Frames(k, receiver.recvNonce, ch.frames[receiver.recvNonce..])
  {
    var before, after := ch.frames[..receiver.recvNonce], ch.frames[receiver.recvNonce..];
    assert ch.frames == before + after;
    FramesAppend(k, 0, before, after);
    Behind(Frames(k, 0, before), receiver.readCipher, ch.wire, sender.writeCipher, ch.emitted,
           Frames(k, receiver.recvNonce, after));
  }

  /** The frames a read opens are the next ones sealed, and what it leaves continues with the rest. */
  lemma UnsealedIsNext(k: Cipher, nonce: nat, after: seq<Bytes>, buffered: Bytes, pulled: Bytes, wire: Bytes,
                       unsent: Bytes, unsealed: seq<Bytes>, left: Bytes)
    requires Sound(k) && Small(after) && Small(unsealed)
    requires buffered + (pulled + wire) + unsent == Frames(k, nonce, after)
    requires buffered + pulled == Frames(k, nonce, unsealed) + left
    ensures |unsealed| <= |after| && unsealed == after[..|unsealed|]
    ensures left + wire + unsent == Frames(k, nonce + |unsealed|, after[|unsealed|..])
  {
    Shift(buffered, pulled, wire, unsent, Frames(k, nonce, unsealed), left);
    OpenedAsSealed(k, nonce, unsealed, left + wire + unsent, after);
  }

  lemma Divided(wire: Bytes, pulled: Bytes)
    requires pulled <= wire
    ensures wire == pulled + wire[|pulled|..]
  {
  }

  lemma Longer(frames: seq<Bytes>, n: nat, more: seq<Bytes>)
    requires n <= |frames| && |more| <= |frames[n..]| && more == frames[n..][..|more|]
    ensures n + |more| <= |frames| && frames[..n + |more|] == frames[..n] + more
  {
  }

  lemma OpensNext(k: Cipher, sender: End, e: End, ch: Channel, pulled: Bytes, unsealed: seq<Bytes>,
                  delivered: Bytes, e': End, ch': Channel)
    requires Sound(k) && ChannelOk(k, sender, e, ch) && Receives(k, e, ch, pulled, unsealed, delivered, e', ch')
    ensures ch.wire == pulled + ch'.wire
    ensures e'.recvNonce <= |ch.frames| && ch.frames[..e'.recvNonce] == ch.frames[..e.recvNonce] + unsealed
  {
    Remaining(k, sender, e, ch);
    Divided(ch.wire, pulled);
    UnsealedIsNext(k, e.recvNonce, ch.frames[e.recvNonce..], e.readCipher, pulled, ch'.wire, sender.writeCipher,
                   unsealed, e'.readCipher);
    Longer(ch.frames, e.recvNonce, unsealed);
  }

  lemma ReceivesKeeps(k: Cipher, sender: End, e: End, ch: Channel, pulled: Bytes, unsealed: seq<Bytes>,
                      delivered: Bytes, e': End, ch': Channel)
    requires Sound(k) && ChannelOk(k, sender, e, ch) && Receives(k, e, ch, pulled, unsealed, delivered, e', ch')
    ensures ChannelOk(k, sender, e', ch')
  {
    var before := ch.frames[..e.recvNonce];
    OpensNext(k, sender, e, ch, pulled, unsealed, delivered, e', ch');
    FramesAppend(k, 0, before, unsealed);
    FlattenAppend(before, unsealed);
    EmittedStays(Frames(k, 0, before), e.readCipher, pulled, ch'.wire, Frames(k, e.recvNonce, unsealed), e'.readCipher);
    DeliveredStays(ch.delivered, e.readPlain, Flatten(unsealed), delivered, e'.readPlain);
  }

  lemma EmittedStays(done: Bytes, buffered: Bytes, pulled: Bytes, wire: Bytes, frames: Bytes, left: Bytes)
    requires buffered + pulled == frames + left
    ensures (done + frames) + left + wire == done + buffered + (pulled + wire)
  {
    calc {
      (done + frames) + left + wire;
      done + (frames + left) + wire;
      done + (buffered + pulled) + wire;
      done + buffered + (pulled + wire);
    }
  }

  lemma DeliveredStays(before: Bytes, plain: Bytes, more: Bytes, delivered: Bytes, plain': Bytes)
    requires plain + more == delivered + plain'
    ensures (before + delivered) + plain' == before + plain + more
  {
    calc {
      (before + delivered) + plain';
      before + (delivered + plain');
      before + plain + more;
    }
  }

  lemma StepKeeps(lr: Cipher, rl: Cipher, l: Link, step: Step, l': Link)
    requires Sound(lr) && Sound(rl) && LinkOk(lr, rl, l) && Next(lr, rl, l, step, l')
    ensures LinkOk(lr, rl, l')
  {
    match step
    case LeftWrites(sent, payloads) =>
      SendsKeeps(lr, l.left, l.toRight, sent, payloads, l'.left, l'.toRight, l.right);
    case RightWrites(sent, payloads) =>
      SendsKeeps(rl, l.right, l.toLeft, sent, payloads, l'.right, l'.toLeft, l.left);
    case LeftReads(pulled, unsealed, delivered) =>
      ReceivesKeeps(rl, l.right, l.left, l.toLeft, pulled, unsealed, delivered, l'.left, l'.toLeft);
    case RightReads(pulled, unsealed, delivered) =>
      ReceivesKeeps(lr, l.left, l.right, l.toRight, pulled, unsealed, delivered, l'.right, l'.toRight);
  }

  lemma OpensOk(k: Cipher)
    ensures ChannelOk(k, IDLE, IDLE, OPEN)
  {
  }

  lemma {:induction false} RunKeeps(lr: Cipher, rl: Cipher, links: seq<Link>, steps: seq<Step>, i: nat)
    requires Sound(lr) && Sound(rl) && IsRun(lr, rl, links, steps) && i < |links|
    ensures LinkOk(lr, rl, links[i])
  {
    if i == 0 {
      OpensOk(lr);
      OpensOk(rl);
    } else {
      RunKeeps(lr, rl, links, steps, i - 1);
      assert Next(lr, rl, links[i - 1], steps[i - 1], links[i - 1 + 1]);
      StepKeeps(lr, rl, links[i - 1], steps[i - 1], links[i]);
    }
  }

  // ── the theorems ──────────────────────────────────────────────────────────

  /** What an integral channel has delivered, has buffered and still has to decrypt is what was accepted;
      every byte on the wire belongs to a frame sealed once, frame i under nonce i. */
  ghost predicate Integral(k: Cipher, sender: End, receiver: End, ch: Channel) {
    && ch.delivered + receiver.readPlain
       + Deframe(k, receiver.recvNonce, receiver.readCipher + ch.wire + sender.writeCipher) == ch.accepted
    && ch.emitted + sender.writeCipher == Frames(k, 0, ch.frames)
    && sender.sendNonce == |ch.frames|
    && forall i :: 0 <= i < |ch.frames| ==> |k.seal(i, ch.frames[i])| <= MAX_NOISE_MSG
  }

  lemma ChannelIntegral(k: Cipher, sender: End, receiver: End, ch: Channel)
    requires Sound(k) && ChannelOk(k, sender, receiver, ch)
    ensures Integral(k, sender, receiver, ch)
  {
    var before, after := ch.frames[..receiver.recvNonce], ch.frames[receiver.recvNonce..];
    Remaining(k, sender, receiver, ch);
    DeframeFrames(k, receiver.recvNonce, after);
    assert ch.frames == before + after;
    FlattenAppend(before, after);
  }

  /** Stream integrity in both directions, in every state of every run. */
  lemma StreamIntegrity(lr: Cipher, rl: Cipher, links: seq<Link>, steps: seq<Step>, i: nat)
    requires Sound(lr) && Sound(rl) && IsRun(lr, rl, links, steps) && i < |links|
    ensures var l := links[i];
            Integral(lr, l.left, l.right, l.toRight) && Integral(rl, l.right, l.left, l.toLeft)
  {
    RunKeeps(lr, rl, links, steps, i);
    ChannelIntegral(lr, links[i].left, links[i].right, links[i].toRight);
    ChannelIntegral(rl, links[i].right, links[i].left, links[i].toLeft);
  }

  /** No frame is ever rejected: in every state of every run, a whole frame at the front of either read
      buffer opens under the next nonce. */
  lemma NothingRejected(lr: Cipher, rl: Cipher, links: seq<Link>, steps: seq<Step>, i: nat)
    requires Sound(lr) && Sound(rl) && IsRun(lr, rl, links, steps) && i < |links|
    ensures !Unopenable(rl, links[i].left.recvNonce, links[i].left.readCipher)
    ensures !Unopenable(lr, links[i].right.recvNonce, links[i].right.readCipher)
  {
    RunKeeps(lr, rl, links, steps, i);
    NextFrameOpens(lr, links[i].left, links[i].right, links[i].toRight);
    NextFrameOpens(rl, links[i].right, links[i].left, links[i].toLeft);
  }

  lemma NextFrameOpens(k: Cipher, sender: End, receiver: End, ch: Channel)
    requires Sound(k) && ChannelOk(k, sender, receiver, ch)
    ensures !Unopenable(k, receiver.recvNonce, receiver.readCipher)
  {
    Remaining(k, sender, receiver, ch);
    FrontOpens(k, receiver.recvNonce, ch.frames[receiver.recvNonce..], receiver.readCipher, ch.wire,
               sender.writeCipher);
  }

  lemma FrontOpens(k: Cipher, nonce: nat, payloads: seq<Bytes>, b: Bytes, wire: Bytes, unsent: Bytes)
    requires Sound(k) && Small(payloads) && b + wire + unsent == Frames(k, nonce, payloads)
    ensures !Unopenable(k, nonce, b)
  {
    if HasFrame(b) {
      FrontFrame(b, wire + unsent);
      assert b + (wire + unsent) == b + wire + unsent;
      assert payloads != [];
      FirstFrame(k, nonce, payloads[0], Frames(k, nonce + 1, payloads[1..]));
      assert k.open(nonce, k.seal(nonce, payloads[0])) == Some(payloads[0]);
    }
  }

  lemma FrontFrame(b: Bytes, more: Bytes)
    requires HasFrame(b)
    ensures HasFrame(b + more) && GetU16(b + more) == GetU16(b)
    ensures (b + more)[FRAME_LEN_SIZE..FRAME_LEN_SIZE + GetU16(b)] == b[FRAME_LEN_SIZE..FRAME_LEN_SIZE + GetU16(b)]
  {
  }

  /** The bytes sent so far end at a frame boundary. */
  ghost predicate WholeFrames(k: Cipher, ch: Channel) {
    exists n: nat :: n <= |ch.frames| && ch.emitted == Frames(k, 0, ch.frames[..n])
  }

  /** The wire ends after everything sent on it was read and no whole frame is left: the reader finds a
      clean end exactly when the bytes sent were a whole number of frames, and has then been handed
      exactly those frames' payloads. */
  lemma EofIsCleanIff(k: Cipher, sender: End, receiver: End, ch: Channel)
    requires Sound(k) && ChannelOk(k, sender, receiver, ch)
    requires ch.wire == [] && receiver.readPlain == [] && !HasFrame(receiver.readCipher)
    ensures receiver.readCipher == [] <==> WholeFrames(k, ch)
    ensures ch.delivered == Flatten(ch.frames[..receiver.recvNonce])
    ensures sender.writeCipher == [] ==> receiver.readCipher == [] && ch.delivered == ch.accepted
  {
    var r := receiver.recvNonce;
    var read := Frames(k, 0, ch.frames[..r]);
    assert read + receiver.readCipher + [] == read + receiver.readCipher == ch.emitted;
    if receiver.readCipher == [] {
      assert r <= |ch.frames| && ch.emitted == Frames(k, 0, ch.frames[..r]);
    }
    if n: nat :| n <= |ch.frames| && ch.emitted == Frames(k, 0, ch.frames[..n]) {
      CutAtFrame(k, ch.frames, r, n, receiver.readCipher);
    }
    if sender.writeCipher == [] {
      assert ch.frames[..|ch.frames|] == ch.frames && ch.emitted + [] == ch.emitted;
      CutAtFrame(k, ch.frames, r, |ch.frames|, receiver.readCipher);
    }
    assert ch.delivered + [] == ch.delivered;
  }

  /** Bytes between two frame boundaries with no whole frame among them are none. */
  lemma CutAtFrame(k: Cipher, frames: seq<Bytes>, r: nat, n: nat, b: Bytes)
    requires Sound(k) && Small(frames) && r <= |frames| && n <= |frames|
    requires Frames(k, 0, frames[..r]) + b == Frames(k, 0, frames[..n]) && !HasFrame(b)
    ensures r == n && b == []
  {
    if n <= r {
      assert frames[..r] == frames[..n] + frames[n..r];
      FramesAppend(k, 0, frames[..n], frames[n..r]);
    } else {
      assert frames[..n] == frames[..r] + frames[r..n];
      FramesAppend(k, 0, frames[..r], frames[r..n]);
      Cancel(Frames(k, 0, frames[..r]), b, Frames(k, r, frames[r..n]));
      FirstFrame(k, r, frames[r], Frames(k, r + 1, frames[r..n][1..]));
    }
  }

  // ── the poll functions over a link ────────────────────────────────────────

  /** The link after its left end has written or read. */
  function LeftWrote(l: Link, e: End, sent: Bytes, payloads: seq<Bytes>): Link {
    l.(left := e, toRight := l.toRight.(wire := l.toRight.wire + sent, emitted := l.toRight.emitted + sent,
                                        frames := l.toRight.frames + payloads,
                                            accepted := l.toRight.accepted + Flatten(payloads)))
  }

  function LeftRead(l: Link, e: End, pulled: Bytes, delivered: Bytes): Link
    requires pulled <= l.toLeft.wire
  {
    l.(left := e, toLeft := l.toLeft.(wire := l.toLeft.wire[|pulled|..], delivered := l.toLeft.delivered + delivered))
  }

  /** poll_write of the left end is a step of the link: the whole payload is accepted, or nothing. */
  method WriteFromLeft(stream: NoiseStream, buf: Bytes, script: seq<WriteOutcome>, ghost lr: Cipher, ghost rl: Cipher,
                       ghost l: Link)
    returns (r: Poll<nat>, ghost step: Step, ghost l': Link)
    requires Sound(lr) && Sound(rl) && LinkOk(lr, rl, l) && stream.View() == l.left && stream.sending == lr
    modifies stream
    ensures stream.View() == l'.left && Next(lr, rl, l, step, l') && LinkOk(lr, rl, l')
    ensures l'.toRight.accepted == l.toRight.accepted + buf || l'.toRight.accepted == l.toRight.accepted
    ensures r.Ready? ==> l'.toRight.accepted == l.toRight.accepted + buf
    ensures r.Pending? ==> l'.toRight.accepted == l.toRight.accepted
    ensures l.left.writeCipher == [] ==> !r.Pending? && l'.toRight.accepted == l.toRight.accepted + buf
  {
    var sent;
    ghost var payloads, used;
    r, sent, payloads, used := stream.PollWrite(buf, script);
    PiecesJoin(buf);
    assert l.toRight.accepted + Flatten(payloads)
        == if payloads == [] then l.toRight.accepted else l.toRight.accepted + buf;
    assert buf == [] ==> l.toRight.accepted + buf == l.toRight.accepted;
    step := LeftWrites(sent, payloads);
    l' := LeftWrote(l, stream.View(), sent, payloads);
    StepKeeps(lr, rl, l, step, l');
  }

  lemma {:induction false} GivenPrefix(script: seq<ReadOutcome>, used: nat)
    requires used <= |script|
    ensures Given(script[..used]) <= Given(script)
  {
    if used < |script| {
      GivenPrefix(script[..|script| - 1], used);
      assert script[..|script| - 1][..used] == script[..used];
    } else {
      assert script[..used] == script;
    }
  }

  /** The answers hand over all that is on the wire, and with what the reader has already that completes
      plaintext it has not been handed. */
  ghost predicate Arrives(k: Cipher, e: End, ch: Channel, script: seq<ReadOutcome>) {
    || e.readPlain != []
    || (&& Given(script) == ch.wire
        && (forall o :: o in script ==> o.Gives?)
        && exists n: nat :: CompletesPlaintext(k, e, ch, n))
  }

  /** The first n frames have been sent whole, and there is plaintext in those not yet opened. */
  ghost predicate CompletesPlaintext(k: Cipher, e: End, ch: Channel, n: nat) {
    e.recvNonce <= n <= |ch.frames| && Frames(k, 0, ch.frames[..n]) <= ch.emitted
    && Flatten(ch.frames[e.recvNonce..n]) != []
  }

  /** A reader that has taken the whole wire and has no whole frame left has opened every frame sent whole. */
  lemma AllOpened(k: Cipher, sender: End, e: End, ch: Channel, n: nat)
    requires Sound(k) && ChannelOk(k, sender, e, ch) && ch.wire == [] && !HasFrame(e.readCipher)
    requires n <= |ch.frames| && Frames(k, 0, ch.frames[..n]) <= ch.emitted
    ensures n <= e.recvNonce
  {
    var r := e.recvNonce;
    if r < n {
      var next := ch.frames[r..n];
      assert ch.frames[..n] == ch.frames[..r] + next;
      FramesAppend(k, 0, ch.frames[..r], next);
      LeadsWith(Frames(k, 0, ch.frames[..r]), e.readCipher, Frames(k, r, next), ch.emitted);
      LeadingFrame(k, r, next, e.readCipher);
    }
  }

  lemma LeadsWith(done: Bytes, left: Bytes, next: Bytes, emitted: Bytes)
    requires done + left + [] == emitted && done + next <= emitted
    ensures next <= left
  {
    assert done + left == emitted;
    assert left == emitted[|done|..];
    assert next == emitted[|done|..|done| + |next|];
  }

  lemma LeadingFrame(k: Cipher, nonce: nat, payloads: seq<Bytes>, b: Bytes)
    requires Sound(k) && Small(payloads) && payloads != [] && Frames(k, nonce, payloads) <= b
    ensures HasFrame(b)
  {
    var frames, rest := Frames(k, nonce, payloads), Frames(k, nonce + 1, payloads[1..]);
    Divided(b, frames);
    Assoc(Frame(k, nonce, payloads[0]), rest, b[|frames|..]);
    FirstFrame(k, nonce, payloads[0], rest + b[|frames|..]);
  }

  lemma NothingBetween(frames: seq<Bytes>, a: nat, n: nat, b: nat)
    requires a <= n <= b <= |frames| && Flatten(frames[..a]) == Flatten(frames[..b])
    ensures Flatten(frames[a..n]) == []
  {
    assert frames[..n] == frames[..a] + frames[a..n] && frames[..b] == frames[..n] + frames[n..b];
    FlattenAppend(frames[..a], frames[a..n]);
    FlattenAppend(frames[..n], frames[n..b]);
  }

  /** A read that opens no plaintext has found all the plaintext there was. */
  lemma NothingArrived(k: Cipher, sender: End, e: End, ch: Channel, e': End, ch': Channel, n: nat)
    requires Sound(k) && ChannelOk(k, sender, e, ch) && ChannelOk(k, sender, e', ch')
    requires ch'.frames == ch.frames && ch'.emitted == ch.emitted && ch'.delivered == ch.delivered
    requires e.readPlain == [] && e'.readPlain == [] && ch'.wire == [] && !HasFrame(e'.readCipher)
    requires e.recvNonce <= e'.recvNonce
    ensures !CompletesPlaintext(k, e, ch, n)
  {
    if CompletesPlaintext(k, e, ch, n) {
      AllOpened(k, sender, e', ch', n);
      assert ch.delivered + [] == ch.delivered;
      NothingBetween(ch.frames, e.recvNonce, n, e'.recvNonce);
    }
  }

  /** poll_read of the left end is a step of the link, and no frame is rejected. The inner stream gives what is on
      the wire and ends after all of it; then the end is clean if the bytes sent were a whole number of frames, and
      the mid-frame failure is reported if they were not. With room and plaintext at hand or complete on the wire, the
      poll delivers. */
  method ReadAtLeft(stream: NoiseStream, room: nat, script: seq<ReadOutcome>, ghost lr: Cipher, ghost rl: Cipher,
                    ghost l: Link)
    returns (r: Poll<Bytes>, ghost step: Step, ghost l': Link)
    requires Sound(lr) && Sound(rl) && LinkOk(lr, rl, l) && stream.View() == l.left && stream.receiving == rl
    requires Given(script) <= l.toLeft.wire && forall k: nat :: AtEof(script, k) ==> Given(script[..k]) == l.toLeft.wire
    modifies stream
    ensures stream.View() == l'.left && Next(lr, rl, l, step, l') && LinkOk(lr, rl, l')
    ensures r != Failed(InvalidData)
    ensures l'.toLeft.delivered == l.toLeft.delivered + if r.Ready? then r.value else []
    ensures r == Ready([]) && room != 0 ==> WholeFrames(rl, l'.toLeft)
    ensures r == Failed(UnexpectedEof) ==> !WholeFrames(rl, l'.toLeft)
    ensures r == Ready([]) && room != 0 && l'.right.writeCipher == [] ==> l'.toLeft.delivered == l'.toLeft.accepted
    ensures room != 0 && Arrives(rl, l.left, l.toLeft, script) ==> r.Ready? && r.value != []
  {
    ghost var pulled, payloads, left, used;
    r, pulled, payloads, left, used := stream.PollRead(room, script);
    GivenPrefix(script, used);
    ghost var delivered := if r.Ready? then r.value else [];
    ghost var e := stream.View().(readCipher := left);
    step := LeftReads(pulled, payloads, delivered);
    l' := LeftRead(l, e, pulled, delivered);
    StepKeeps(lr, rl, l, step, l');
    NextFrameOpens(rl, l'.right, e, l'.toLeft);
    assert r != Failed(InvalidData);
    if AtEof(script, used) && e.readPlain == [] && !HasFrame(e.readCipher) {
      assert l'.toLeft.wire == [];
      EofIsCleanIff(rl, l'.right, e, l'.toLeft);
    }
    if && l.left.readPlain + Flatten(payloads) == [] && Given(script) == l.toLeft.wire
       && (forall o :: o in script ==> o.Gives?)
    {
      assert 0 < used ==> script[used - 1] in script;
      assert used == |script| ==> script[..used] == script;
      assert l'.toLeft.wire == [] && l.toLeft.delivered + [] == l.toLeft.delivered;
      forall n: nat ensures !CompletesPlaintext(rl, l.left, l.toLeft, n) {
        NothingArrived(rl, l.right, l.left, l.toLeft, e, l'.toLeft, n);
      }
    }
  }

  // ── the other end ─────────────────────────────────────────────────────────

  /** The link with its ends swapped. */
  function Mirrored(l: Link): Link {
    Link(l.right, l.left, l.toLeft, l.toRight)
  }

  function MirroredStep(step: Step): Step {
    match step
    case LeftWrites(sent, payloads) => RightWrites(sent, payloads)
    case RightWrites(sent, payloads) => LeftWrites(sent, payloads)
    case LeftReads(pulled, unsealed, delivered) => RightReads(pulled, unsealed, delivered)
    case RightReads(pulled, unsealed, delivered) => LeftReads(pulled, unsealed, delivered)
  }

  /** Swapping the ends swaps their steps and keeps soundness, so what holds of the left end's polls holds of the
      right end's. */
  lemma MirrorsAgree(lr: Cipher, rl: Cipher, l: Link, step: Step, l': Link)
    ensures Next(rl, lr, Mirrored(l), MirroredStep(step), Mirrored(l')) <==> Next(lr, rl, l, step, l')
    ensures LinkOk(rl, lr, Mirrored(l)) <==> LinkOk(lr, rl, l)
    ensures Mirrored(Mirrored(l)) == l && MirroredStep(MirroredStep(step)) == step
  {
  }

  /** poll_write of the right end. */
  method WriteFromRight(stream: NoiseStream, buf: Bytes, script: seq<WriteOutcome>, ghost lr: Cipher, ghost rl: Cipher,
                        ghost l: Link)
    returns (r: Poll<nat>, ghost step: Step, ghost l': Link)
    requires Sound(lr) && Sound(rl) && LinkOk(lr, rl, l) && stream.View() == l.right && stream.sending == rl
    modifies stream
    ensures stream.View() == l'.right && Next(lr, rl, l, step, l') && LinkOk(lr, rl, l')
    ensures l'.toLeft.accepted == l.toLeft.accepted + buf || l'.toLeft.accepted == l.toLeft.accepted
    ensures r.Ready? ==> l'.toLeft.accepted == l.toLeft.accepted + buf
    ensures r.Pending? ==> l'.toLeft.accepted == l.toLeft.accepted
    ensures l.right.writeCipher == [] ==> !r.Pending? && l'.toLeft.accepted == l.toLeft.accepted + buf
  {
    MirrorsAgree(lr, rl, l, LeftWrites([], []), l);
    ghost var s, m;
    r, s, m := WriteFromLeft(stream, buf, script, rl, lr, Mirrored(l));
    MirrorsAgree(rl, lr, Mirrored(l), s, m);
    step, l' := MirroredStep(s), Mirrored(m);
    MirrorsAgree(lr, rl, l', step, l');
  }

  /** poll_read of the right end. */
  method ReadAtRight(stream: NoiseStream, room: nat, script: seq<ReadOutcome>, ghost lr: Cipher, ghost rl: Cipher,
                     ghost l: Link)
    returns (r: Poll<Bytes>, ghost step: Step, ghost l': Link)
    requires Sound(lr) && Sound(rl) && LinkOk(lr, rl, l) && stream.View() == l.right && stream.receiving == lr
    requires Given(script) <= l.toRight.wire
    requires forall k: nat :: AtEof(script, k) ==> Given(script[..k]) == l.toRight.wire
    modifies stream
    ensures stream.View() == l'.right && Next(lr, rl, l, step, l') && LinkOk(lr, rl, l')
    ensures r != Failed(InvalidData)
    ensures l'.toRight.delivered == l.toRight.delivered + if r.Ready? then r.value else []
    ensures r == Ready([]) && room != 0 ==> WholeFrames(lr, l'.toRight)
    ensures r == Failed(UnexpectedEof) ==> !WholeFrames(lr, l'.toRight)
    ensures r == Ready([]) && room != 0 && l'.left.writeCipher == [] ==> l'.toRight.delivered == l'.toRight.accepted
    ensures room != 0 && Arrives(lr, l.right, l.toRight, script) ==> r.Ready? && r.value != []
  {
    MirrorsAgree(lr, rl, l, LeftWrites([], []), l);
    ghost var s, m;
    r, s, m := ReadAtLeft(stream, room, script, rl, lr, Mirrored(l));
    MirrorsAgree(rl, lr, Mirrored(l), s, m);
    step, l' := MirroredStep(s), Mirrored(m);
    MirrorsAgree(lr, rl, l', step, l');
  }
}
